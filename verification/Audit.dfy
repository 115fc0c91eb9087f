/**
 The hash-chained audit log, internal/observability/audit.go.  The hash is any function;
 binding needs it to be free of collisions.
 */
module Audit {
  import opened Text
  import opened StableSort

  datatype Entry = Entry(
    index: nat, timestamp: string, event: string, actor: string, resource: string,
    details: map<string, string>, prev: string, hash: string)

  const ZEROS := "0000000000000000"

  /** Sixty-four zeros. */
  const GENESIS := ZEROS + ZEROS + ZEROS + ZEROS

  // ----- canonical form

  /** `k=v` pairs joined by `&`, in the order of the keys. */
  function JoinPairs(pairs: seq<(string, string)>): string {
    if pairs == [] then ""
    else if |pairs| == 1 then pairs[0].0 + "=" + pairs[0].1
    else pairs[0].0 + "=" + pairs[0].1 + "&" + JoinPairs(pairs[1..])
  }

  function PairsIn(details: map<string, string>, keys: seq<string>): (r: seq<(string, string)>)
    requires forall k :: k in keys ==> k in details
    ensures |r| == |keys| && forall i :: 0 <= i < |keys| ==> r[i] == (keys[i], details[keys[i]])
  {
    seq(|keys|, i requires 0 <= i < |keys| => (keys[i], details[keys[i]]))
  }

  /** Some list of the set's elements, each once. */
  ghost function Listing(s: set<string>): (r: seq<string>)
    ensures ListsOnce(r, s)
  {
    if s == {} then [] else
      var x :| x in s;
      var rest := Listing(s - {x});
      assert x !in rest;
      [x] + rest
  }

  ghost predicate ListsOnce(order: seq<string>, s: set<string>) {
    (forall x :: x in order <==> x in s) && forall i, j :: 0 <= i < j < |order| ==> order[i] != order[j]
  }

  function ByText(): (string, string) -> bool {
    (a, b) => Less(a, b)
  }

  /** Sorting a list without duplicates leaves it strictly ascending. */
  lemma {:induction false} SortedAscends(order: seq<string>)
    requires forall i, j :: 0 <= i < j < |order| ==> order[i] != order[j]
    ensures Ascending(Sorted(order, ByText())) && forall x :: x in Sorted(order, ByText()) <==> x in order
  {
    forall v, w | ByText()(v, w) ensures !ByText()(w, v) {
      LessAsymmetric(v, w);
    }
    SortedSettles(order, ByText());
    var r := Sorted(order, ByText());
    assert forall x :: x in r <==> x in multiset(r);
    assert forall x :: x in order <==> x in multiset(order);
    forall i | 0 < i < |r| ensures Less(r[i - 1], r[i]) {
      assert !ByText()(r[i], r[i - 1]);
      LessTotal(r[i - 1], r[i]);
      DistinctStaysDistinct(order, r, i);
    }
  }

  lemma {:induction false} DistinctStaysDistinct(order: seq<string>, r: seq<string>, i: nat)
    requires forall i, j :: 0 <= i < j < |order| ==> order[i] != order[j]
    requires multiset(r) == multiset(order) && 0 < i < |r|
    ensures r[i - 1] != r[i]
  {
    AtMostOnce(order, r[i]);
    if r[i - 1] == r[i] {
      TwiceInside(r, i);
    }
  }

  lemma {:induction false} TwiceInside(r: seq<string>, i: nat)
    requires 0 < i < |r| && r[i - 1] == r[i]
    ensures multiset(r)[r[i]] >= 2
  {
    assert r == r[..i - 1] + [r[i - 1], r[i]] + r[i + 1..];
  }

  lemma {:induction false} AtMostOnce(s: seq<string>, x: string)
    requires forall i, j :: 0 <= i < j < |s| ==> s[i] != s[j]
    ensures multiset(s)[x] <= 1
  {
    if s != [] {
      var front, last := s[..|s| - 1], s[|s| - 1];
      assert s == front + [last];
      AtMostOnce(front, x);
      assert last !in front;
      assert last in multiset(front) <==> last in front;
    }
  }

  ghost function SortedKeys(details: map<string, string>): (r: seq<string>)
    ensures Ascending(r) && forall k :: k in r <==> k in details
  {
    SortedAscends(Listing(details.Keys));
    Sorted(Listing(details.Keys), ByText())
  }

  /** Whatever order the map yields its keys in, they sort to the same list. */
  lemma {:induction false} SortIgnoresOrder(details: map<string, string>, order: seq<string>)
    requires ListsOnce(order, details.Keys)
    ensures Sorted(order, ByText()) == SortedKeys(details)
  {
    SortedAscends(order);
    AscendingIsUnique(Sorted(order, ByText()), SortedKeys(details));
  }

  ghost function Canonical(details: map<string, string>): string {
    JoinPairs(PairsIn(details, SortedKeys(details)))
  }

  function RawText(index: nat, timestamp: string, event: string, actor: string, resource: string,
                   details: string, prev: string): string {
    Decimal(index) + "|" + (timestamp + "|" + (event + "|" + (actor + "|" + (resource + "|" + (details + "|" + prev)))))
  }

  /** The text that is hashed for an entry. */
  ghost function Raw(e: Entry): string {
    RawText(e.index, e.timestamp, e.event, e.actor, e.resource, Canonical(e.details), e.prev)
  }

  // ----- the log

  ghost predicate Linked(entries: seq<Entry>, i: int)
    requires 0 <= i < |entries|
  {
    entries[i].index == i && entries[i].prev == if i == 0 then GENESIS else entries[i - 1].hash
  }

  ghost predicate Intact(entries: seq<Entry>, i: int, hash: string -> string)
    requires 0 <= i < |entries|
  {
    entries[i].hash == hash(Raw(entries[i]))
  }

  /** Every entry links to the one before it and hashes to its recorded hash. */
  ghost predicate Accepted(entries: seq<Entry>, hash: string -> string) {
    forall i :: 0 <= i < |entries| ==> Linked(entries, i) && Intact(entries, i, hash)
  }

  datatype Verdict = Fine | BrokenChain(at: nat) | Tampered(at: nat)

  /** What is appended: everything of an entry but its place in the chain. */
  datatype Record = Record(timestamp: string, event: string, actor: string, resource: string, details: map<string, string>)

  ghost function Appended(entries: seq<Entry>, r: Record, hash: string -> string): seq<Entry> {
    var prev := if entries == [] then GENESIS else entries[|entries| - 1].hash;
    var e := Entry(|entries|, r.timestamp, r.event, r.actor, r.resource, r.details, prev, "");
    entries + [e.(hash := hash(Raw(e)))]
  }

  class AuditRepository {
    const hash: string -> string
    var entries: seq<Entry>

    constructor (h: string -> string)
      ensures hash == h && entries == []
    {
      hash := h;
      entries := [];
    }

    /** The `k=v` parts, joined. */
    static method JoinDetails(details: map<string, string>, keys: seq<string>) returns (text: string)
      requires forall k :: k in keys ==> k in details
      ensures text == JoinPairs(PairsIn(details, keys))
    {
      ghost var pairs := PairsIn(details, keys);
      text := "";
      var n := |keys|;
      while n > 0
        invariant 0 <= n <= |keys| && text == JoinPairs(pairs[n..])
      {
        assert pairs[n - 1..][0] == (keys[n - 1], details[keys[n - 1]]) && pairs[n - 1..][1..] == pairs[n..];
        var part := keys[n - 1] + "=" + details[keys[n - 1]];
        text := if n == |keys| then part else part + "&" + text;
        n := n - 1;
      }
      assert pairs[0..] == pairs;
    }

    /** Sorts the keys the map yields, in whatever order, and hashes the canonical text. */
    method ComputeHash(index: nat, r: Record, prev: string, order: seq<string>) returns (h: string)
      requires ListsOnce(order, r.details.Keys)
      ensures h == hash(RawText(index, r.timestamp, r.event, r.actor, r.resource, Canonical(r.details), prev))
    {
      var keys := new string[|order|](i requires 0 <= i < |order| => order[i]);
      assert keys[..] == order;
      SortInPlace(keys, ByText());
      SortIgnoresOrder(r.details, order);
      var text := JoinDetails(r.details, keys[..]);
      h := hash(RawText(index, r.timestamp, r.event, r.actor, r.resource, text, prev));
    }

    method Append(r: Record, order: seq<string>) returns (e: Entry)
      requires ListsOnce(order, r.details.Keys)
      modifies this
      ensures entries == Appended(old(entries), r, hash) && e == entries[|entries| - 1]
    {
      var prev := GENESIS;
      if |entries| > 0 {
        prev := entries[|entries| - 1].hash;
      }
      var h := ComputeHash(|entries|, r, prev, order);
      e := Entry(|entries|, r.timestamp, r.event, r.actor, r.resource, r.details, prev, h);
      entries := entries + [e];
    }

    /** Walks the chain; the first fault found is the first there is. */
    method VerifyChain(orders: nat -> seq<string>) returns (v: Verdict)
      requires forall i :: 0 <= i < |entries| ==> ListsOnce(orders(i), entries[i].details.Keys)
      ensures Justified(entries, hash, v)
      ensures v.Fine? <==> Accepted(entries, hash)
    {
      var expected := GENESIS;
      for i := 0 to |entries|
        invariant expected == if i == 0 then GENESIS else entries[i - 1].hash
        invariant SoundTo(entries, i, hash)
      {
        var e := entries[i];
        if e.index != i || e.prev != expected {
          FaultRejects(entries, i, hash);
          return BrokenChain(i);
        }
        var h := ComputeHash(e.index, Record(e.timestamp, e.event, e.actor, e.resource, e.details), e.prev, orders(i));
        if e.hash != h {
          FaultRejects(entries, i, hash);
          return Tampered(i);
        }
        expected := e.hash;
        SoundNext(entries, i, hash);
      }
      return Fine;
    }
  }

  /** The first `n` entries are linked and intact. */
  ghost predicate SoundTo(entries: seq<Entry>, n: nat, hash: string -> string) {
    n <= |entries| && forall j :: 0 <= j < n ==> Linked(entries, j) && Intact(entries, j, hash)
  }

  /** The verdict names the first fault there is, and its kind. */
  ghost predicate Justified(entries: seq<Entry>, hash: string -> string, v: Verdict) {
    match v
    case Fine => SoundTo(entries, |entries|, hash)
    case BrokenChain(i) => i < |entries| && SoundTo(entries, i, hash) && !Linked(entries, i)
    case Tampered(i) => i < |entries| && SoundTo(entries, i, hash) && Linked(entries, i) && !Intact(entries, i, hash)
  }

  lemma {:induction false} SoundNext(entries: seq<Entry>, i: nat, hash: string -> string)
    requires i < |entries| && SoundTo(entries, i, hash) && Linked(entries, i) && Intact(entries, i, hash)
    ensures SoundTo(entries, i + 1, hash)
  {
  }

  lemma {:induction false} FaultRejects(entries: seq<Entry>, i: nat, hash: string -> string)
    requires i < |entries| && !(Linked(entries, i) && Intact(entries, i, hash))
    ensures !Accepted(entries, hash)
  {
  }

  lemma {:induction false} PrefixAccepted(entries: seq<Entry>, n: nat, hash: string -> string)
    requires n <= |entries| && forall j :: 0 <= j < n ==> Linked(entries, j) && Intact(entries, j, hash)
    ensures Accepted(entries[..n], hash)
  {
    forall j | 0 <= j < n ensures Linked(entries[..n], j) && Intact(entries[..n], j, hash) {
      assert Linked(entries, j) && Intact(entries, j, hash);
    }
  }

  /** Appending to an accepted log gives an accepted log. */
  lemma {:induction false} AppendKeepsAccepted(entries: seq<Entry>, r: Record, hash: string -> string)
    requires Accepted(entries, hash)
    ensures Accepted(Appended(entries, r, hash), hash)
  {
    var log := Appended(entries, r, hash);
    forall i | 0 <= i < |log| ensures Linked(log, i) && Intact(log, i, hash) {
      if i < |entries| {
        assert Linked(entries, i) && Intact(entries, i, hash);
      }
    }
  }

  ghost function LogOf(records: seq<Record>, hash: string -> string): (log: seq<Entry>)
    ensures |log| == |records|
  {
    if records == [] then [] else Appended(LogOf(records[..|records| - 1], hash), records[|records| - 1], hash)
  }

  /** Every log built by appending is accepted. */
  lemma {:induction false} AppendedLogsVerify(records: seq<Record>, hash: string -> string)
    ensures Accepted(LogOf(records, hash), hash)
  {
    if records != [] {
      AppendedLogsVerify(records[..|records| - 1], hash);
      AppendKeepsAccepted(LogOf(records[..|records| - 1], hash), records[|records| - 1], hash);
    }
  }

  // ----- the log by its fields

  /** The entry at place `i` holds the record, its place, and the hash before it. */
  predicate HoldsRecord(log: seq<Entry>, i: nat, r: Record)
    requires i < |log|
  {
    && log[i].index == i && log[i].timestamp == r.timestamp && log[i].event == r.event && log[i].actor == r.actor
    && log[i].resource == r.resource && log[i].details == r.details
  }

  /** A log built by appending holds the records in the order they came, and nothing of them is lost. */
  lemma {:induction false} LogHoldsRecords(records: seq<Record>, hash: string -> string, i: nat)
    requires i < |records|
    ensures HoldsRecord(LogOf(records, hash), i, records[i])
  {
    if i < |records| - 1 {
      LogHoldsRecords(records[..|records| - 1], hash, i);
    }
  }

  /** The text of an entry: its fields with bars between them. */
  lemma {:induction false} RawByFields(e: Entry)
    ensures Raw(e) == Decimal(e.index) + "|" + e.timestamp + "|" + e.event + "|" + e.actor + "|" + e.resource + "|"
                      + Canonical(e.details) + "|" + e.prev
  {
  }

  lemma {:induction false} GenesisIsZeros()
    ensures GENESIS == seq(64, _ => '0')
  {
    assert forall i :: 0 <= i < 16 ==> ZEROS[i] == '0';
  }

  /** Details with two keys read as two pairs, the lesser key first. */
  lemma {:induction false} CanonicalOfTwo(a: string, x: string, b: string, y: string)
    requires Less(a, b)
    ensures Canonical(map[a := x, b := y]) == a + "=" + x + "&" + b + "=" + y
  {
    var details := map[a := x, b := y];
    LessIrreflexive(a);
    AscendingIsUnique(SortedKeys(details), [a, b]);
    var pairs := [(a, x), (b, y)];
    assert PairsIn(details, [a, b]) == pairs && pairs[1..] == [(b, y)];
    assert JoinPairs(pairs[1..]) == b + "=" + y;
  }

  predicate InPlace(log: seq<Entry>, i: int)
    requires 0 <= i < |log|
  {
    && log[i].index == i && (i == 0 ==> log[i].prev == seq(64, _ => '0')) && (i > 0 ==> log[i].prev == log[i - 1].hash)
  }

  /**
   A log is accepted exactly if every entry carries its place, the hash of the entry before it, and
   the hash of its own fields.
   */
  lemma {:induction false} AcceptedByFields(log: seq<Entry>, hash: string -> string)
    ensures Accepted(log, hash) <==>
            forall i :: 0 <= i < |log| ==> InPlace(log, i) && log[i].hash == hash(Raw(log[i]))
  {
    GenesisIsZeros();
    forall i | 0 <= i < |log|
      ensures Linked(log, i) && Intact(log, i, hash) <==> InPlace(log, i) && log[i].hash == hash(Raw(log[i]))
    {
    }
  }

  // ----- injectivity of the canonical form

  predicate Without(s: string, seps: string) {
    forall c :: c in seps ==> c !in s
  }

  /** The key is free of `=` and `&`, the value of `&`. */
  ghost predicate CleanPair(p: (string, string)) {
    Without(p.0, "=&") && Without(p.1, "&")
  }

  ghost predicate CleanPairs(pairs: seq<(string, string)>) {
    forall i :: 0 <= i < |pairs| ==> CleanPair(pairs[i])
  }

  function PairText(p: (string, string)): string {
    p.0 + "=" + p.1
  }

  lemma {:induction false} PairTextInjective(p: (string, string), q: (string, string))
    requires CleanPair(p) && CleanPair(q) && PairText(p) == PairText(q)
    ensures p == q
  {
    assert '=' in "=&";
    SplitAtSeparator(p.0, p.1, q.0, q.1, '=');
  }

  lemma {:induction false} PairTextHasNoAmpersand(p: (string, string))
    requires CleanPair(p)
    ensures '&' !in PairText(p) && '=' in PairText(p)
  {
    assert '&' in "=&" && '&' in "&";
    assert PairText(p)[|p.0|] == '=';
  }

  lemma {:induction false} JoinUnfolds(pairs: seq<(string, string)>)
    requires pairs != []
    ensures JoinPairs(pairs) == if |pairs| == 1 then PairText(pairs[0]) else PairText(pairs[0]) + "&" + JoinPairs(pairs[1..])
    ensures JoinPairs(pairs) != ""
    ensures |pairs| > 1 ==> '&' in JoinPairs(pairs)
  {
    if |pairs| > 1 {
      assert JoinPairs(pairs)[|PairText(pairs[0])|] == '&';
    }
  }

  lemma {:induction false} JoinInjective(p: seq<(string, string)>, q: seq<(string, string)>)
    requires CleanPairs(p) && CleanPairs(q) && JoinPairs(p) == JoinPairs(q)
    ensures p == q
  {
    if p != [] {
      JoinUnfolds(p);
    }
    if q != [] {
      JoinUnfolds(q);
    }
    if p != [] && q != [] {
      PairTextHasNoAmpersand(p[0]);
      PairTextHasNoAmpersand(q[0]);
      if |p| > 1 && |q| > 1 {
        SplitAtSeparator(PairText(p[0]), JoinPairs(p[1..]), PairText(q[0]), JoinPairs(q[1..]), '&');
        JoinInjective(p[1..], q[1..]);
      }
      PairTextInjective(p[0], q[0]);
      assert p == [p[0]] + p[1..] && q == [q[0]] + q[1..];
    }
  }

  ghost predicate CleanDetails(details: map<string, string>) {
    forall k :: k in details ==> CleanPair((k, details[k]))
  }

  lemma {:induction false} PairsAreClean(details: map<string, string>)
    requires CleanDetails(details)
    ensures CleanPairs(PairsIn(details, SortedKeys(details)))
  {
    var keys := SortedKeys(details);
    forall i | 0 <= i < |keys| ensures CleanPair(PairsIn(details, keys)[i]) {
      assert keys[i] in keys;
    }
  }

  /** The sorted key=value encoding is injective on details with no `=` or `&` in keys and no `&` in values. */
  lemma {:induction false} CanonicalInjective(a: map<string, string>, b: map<string, string>)
    requires CleanDetails(a) && CleanDetails(b) && Canonical(a) == Canonical(b)
    ensures a == b
  {
    var p, q := PairsIn(a, SortedKeys(a)), PairsIn(b, SortedKeys(b));
    PairsAreClean(a);
    PairsAreClean(b);
    JoinInjective(p, q);
    SamePairsSameMap(a, SortedKeys(a), b, SortedKeys(b));
  }

  lemma {:induction false} SamePairsSameMap(a: map<string, string>, s: seq<string>, b: map<string, string>,
                                            t: seq<string>)
    requires (forall k :: k in s <==> k in a) && (forall k :: k in t <==> k in b)
    requires PairsIn(a, s) == PairsIn(b, t)
    ensures a == b
  {
    assert |s| == |t|;
    forall i | 0 <= i < |s| ensures s[i] == t[i] && a[s[i]] == b[t[i]] {
      assert s[i] in s && t[i] in t;
      assert PairsIn(a, s)[i] == (s[i], a[s[i]]) && PairsIn(b, t)[i] == (t[i], b[t[i]]);
    }
    assert s == t;
    assert a.Keys == b.Keys;
    forall k | k in a ensures a[k] == b[k] {
      assert k in s;
      var i :| 0 <= i < |s| && s[i] == k;
    }
  }

  // ----- binding

  ghost predicate CleanEntry(e: Entry) {
    '|' !in e.timestamp && '|' !in e.event && '|' !in e.actor && '|' !in e.resource && CleanDetails(e.details) && NoBars(e.details)
  }

  ghost predicate NoBars(details: map<string, string>) {
    forall k :: k in details ==> '|' !in k && '|' !in details[k]
  }

  lemma {:induction false} JoinHasNoBar(pairs: seq<(string, string)>)
    requires forall i :: 0 <= i < |pairs| ==> '|' !in pairs[i].0 && '|' !in pairs[i].1
    ensures '|' !in JoinPairs(pairs)
  {
    if pairs != [] {
      assert '|' !in PairText(pairs[0]);
      JoinUnfolds(pairs);
      JoinHasNoBar(pairs[1..]);
    }
  }

  lemma {:induction false} CanonicalHasNoBar(details: map<string, string>)
    requires NoBars(details)
    ensures '|' !in Canonical(details)
  {
    var keys := SortedKeys(details);
    forall i | 0 <= i < |keys| ensures '|' !in keys[i] && '|' !in details[keys[i]] {
      assert keys[i] in keys;
    }
    JoinHasNoBar(PairsIn(details, keys));
  }

  lemma {:induction false} DecimalHasNoBar(n: nat)
    ensures '|' !in Decimal(n)
  {
    assert '|' !in DIGITS;
  }

  /** Among entries free of separators, the hashed text determines every field. */
  lemma {:induction false} CleanRawInjective(a: Entry, b: Entry)
    requires CleanEntry(a) && CleanEntry(b) && Raw(a) == Raw(b)
    ensures a == b.(hash := a.hash)
  {
    CanonicalHasNoBar(a.details);
    CanonicalHasNoBar(b.details);
    FieldsRecovered(a.index, a.timestamp, a.event, a.actor, a.resource, Canonical(a.details), a.prev,
                    b.index, b.timestamp, b.event, b.actor, b.resource, Canonical(b.details), b.prev);
    CanonicalInjective(a.details, b.details);
  }

  lemma {:induction false} FieldsRecovered(i: nat, a1: string, a2: string, a3: string, a4: string, a5: string,
                                           a6: string,
                        j: nat, b1: string, b2: string, b3: string, b4: string, b5: string, b6: string)
    requires '|' !in a1 && '|' !in a2 && '|' !in a3 && '|' !in a4 && '|' !in a5
    requires '|' !in b1 && '|' !in b2 && '|' !in b3 && '|' !in b4 && '|' !in b5
    requires RawText(i, a1, a2, a3, a4, a5, a6) == RawText(j, b1, b2, b3, b4, b5, b6)
    ensures i == j && a1 == b1 && a2 == b2 && a3 == b3 && a4 == b4 && a5 == b5 && a6 == b6
  {
    var s5, t5 := a5 + "|" + a6, b5 + "|" + b6;
    var s4, t4 := a4 + "|" + s5, b4 + "|" + t5;
    var s3, t3 := a3 + "|" + s4, b3 + "|" + t4;
    var s2, t2 := a2 + "|" + s3, b2 + "|" + t3;
    var s1, t1 := a1 + "|" + s2, b1 + "|" + t2;
    DecimalHasNoBar(i);
    DecimalHasNoBar(j);
    SplitAtSeparator(Decimal(i), s1, Decimal(j), t1, '|');
    DecimalInjective(i, j);
    SplitAtSeparator(a1, s2, b1, t2, '|');
    SplitAtSeparator(a2, s3, b2, t3, '|');
    SplitAtSeparator(a3, s4, b3, t4, '|');
    SplitAtSeparator(a4, s5, b4, t5, '|');
    SplitAtSeparator(a5, a6, b5, b6, '|');
  }

  ghost predicate CollisionFree(hash: string -> string) {
    forall x, y :: hash(x) == hash(y) ==> x == y
  }

  ghost predicate CleanLog(entries: seq<Entry>) {
    forall i :: 0 <= i < |entries| ==> CleanEntry(entries[i])
  }

  ghost predicate SameTip(a: seq<Entry>, b: seq<Entry>)
    requires |a| == |b|
  {
    a != [] ==> a[|a| - 1].hash == b[|b| - 1].hash
  }

  /** Entries with the same hash are the same entry. */
  lemma {:induction false} HashBindsEntry(a: Entry, b: Entry, hash: string -> string)
    requires CollisionFree(hash) && CleanEntry(a) && CleanEntry(b)
    requires a.hash == hash(Raw(a)) && b.hash == hash(Raw(b)) && a.hash == b.hash
    ensures a == b
  {
    CleanRawInjective(a, b);
  }

  lemma {:induction false} DropLast(a: seq<Entry>, hash: string -> string)
    requires a != [] && Accepted(a, hash) && CleanLog(a)
    ensures Accepted(a[..|a| - 1], hash) && CleanLog(a[..|a| - 1])
    ensures var e := a[|a| - 1];
            CleanEntry(e) && e.hash == hash(Raw(e)) && e.prev == if |a| == 1 then GENESIS else a[|a| - 2].hash
  {
    assert Linked(a, |a| - 1) && Intact(a, |a| - 1, hash);
    PrefixAccepted(a, |a| - 1, hash);
  }

  /** Among logs free of separators, two accepted ones of the same length and tip are the same log. */
  lemma {:induction false} CleanLogsAreBound(a: seq<Entry>, b: seq<Entry>, hash: string -> string)
    requires CollisionFree(hash) && CleanLog(a) && CleanLog(b)
    requires Accepted(a, hash) && Accepted(b, hash) && |a| == |b|
    requires SameTip(a, b)
    ensures a == b
  {
    if a != [] {
      var n := |a| - 1;
      DropLast(a, hash);
      DropLast(b, hash);
      HashBindsEntry(a[n], b[n], hash);
      CleanLogsAreBound(a[..n], b[..n], hash);
      assert a == a[..n] + [a[n]] && b == b[..n] + [b[n]];
    }
  }

  /** So an accepted log free of separators, with the length and tip of an appended one that is too, is that log. */
  lemma {:induction false} CleanAppendedLogIsBound(records: seq<Record>, log: seq<Entry>, hash: string -> string)
    requires CollisionFree(hash) && CleanLog(LogOf(records, hash)) && CleanLog(log)
    requires Accepted(log, hash) && |log| == |records|
    requires SameTip(log, LogOf(records, hash))
    ensures log == LogOf(records, hash)
  {
    AppendedLogsVerify(records, hash);
    CleanLogsAreBound(log, LogOf(records, hash), hash);
  }

  // ----- exactly when details can be mistaken for others

  /** Two or more entries, or one whose key or value contains an equals sign. */
  ghost predicate Ambiguous(details: map<string, string>) {
    |details| >= 2 || exists k :: k in details && ('=' in k || '=' in details[k])
  }

  /** Other details have the same canonical form. */
  ghost predicate HasTwin(details: map<string, string>) {
    exists other :: other != details && Canonical(other) == Canonical(details)
  }

  lemma {:induction false} CanonicalOf(details: map<string, string>, keys: seq<string>)
    requires Ascending(keys) && forall k :: k in keys <==> k in details
    ensures Canonical(details) == JoinPairs(PairsIn(details, keys))
  {
    AscendingIsUnique(SortedKeys(details), keys);
  }

  lemma {:induction false} CanonicalOfOne(k: string, v: string)
    ensures Canonical(map[k := v]) == k + "=" + v
  {
    CanonicalOf(map[k := v], [k]);
    assert PairsIn(map[k := v], [k]) == [(k, v)];
  }

  /** A list of the keys is as long as there are entries. */
  lemma {:induction false} KeysCounted(details: map<string, string>)
    ensures |SortedKeys(details)| == |details|
  {
    AscendingSize(SortedKeys(details), details.Keys);
    assert |details| == |details.Keys|;
  }

  lemma {:induction false} AscendingSize(keys: seq<string>, s: set<string>)
    requires Ascending(keys) && forall k :: k in keys <==> k in s
    ensures |keys| == |s|
    decreases |keys|
  {
    if keys == [] {
      assert s == {};
    } else {
      TailLacksFirst(keys);
      forall k ensures k in keys[1..] <==> k in s - {keys[0]} {
        assert k in keys <==> k == keys[0] || k in keys[1..];
      }
      AscendingSize(keys[1..], s - {keys[0]});
      assert s == (s - {keys[0]}) + {keys[0]};
    }
  }

  /**
   The text of any details is a key, an equals sign and the rest; with two or more entries the
   rest has another one.
   */
  lemma {:induction false} CanonicalSplits(details: map<string, string>) returns (k: string, rest: string)
    requires details != map[]
    ensures k in details && Canonical(details) == k + "=" + rest
    ensures |details| == 1 ==> details == map[k := rest]
    ensures |details| >= 2 ==> '=' in rest
  {
    var keys := SortedKeys(details);
    KeysCounted(details);
    var pairs := PairsIn(details, keys);
    k := keys[0];
    assert k in keys;
    if |details| == 1 {
      rest := details[k];
      assert keys == [k];
      forall j ensures j in details <==> j == k {
        assert j in keys <==> j in details;
      }
    } else {
      rest := details[k] + "&" + JoinPairs(pairs[1..]);
      JoinUnfolds(pairs);
      assert PairText(pairs[0]) + "&" + JoinPairs(pairs[1..]) == k + "=" + rest;
      EqualsInside(pairs[1..]);
    }
  }

  lemma {:induction false} EqualsInside(pairs: seq<(string, string)>)
    requires pairs != []
    ensures '=' in JoinPairs(pairs)
  {
    JoinUnfolds(pairs);
    assert JoinPairs(pairs)[|pairs[0].0|] == '=';
  }

  lemma {:induction false} EmptyCanonical(details: map<string, string>)
    ensures Canonical(details) == "" <==> details == map[]
  {
    if details != map[] {
      var k, rest := CanonicalSplits(details);
    } else {
      assert SortedKeys(details) == [] by {
        KeysCounted(details);
      }
    }
  }

  /** Text with a second equals sign also reads as a single entry split there. */
  lemma {:induction false} AmbiguousHasTwin(details: map<string, string>)
    requires Ambiguous(details)
    ensures HasTwin(details)
  {
    var k, rest := CanonicalSplits(details);
    if |details| >= 2 {
      assert |map[k := rest]| == 1;
      TwinAt(details, k, rest);
    } else if '=' in k {
      var i :| 0 <= i < |k| && k[i] == '=';
      MoveSplit(k[..i], k[i + 1..], rest);
      assert k == k[..i] + "=" + k[i + 1..];
      assert k[..i] != k && k[..i] !in details;
      TwinAt(details, k[..i], k[i + 1..] + "=" + rest);
    } else {
      var i :| 0 <= i < |rest| && rest[i] == '=';
      MoveSplit(k, rest[..i], rest[i + 1..]);
      assert rest == rest[..i] + "=" + rest[i + 1..];
      assert |k + "=" + rest[..i]| > |k|;
      assert k + "=" + rest[..i] !in details;
      TwinAt(details, k + "=" + rest[..i], rest[i + 1..]);
    }
  }

  /** A one-entry reading of the text that is not the details themselves. */
  lemma {:induction false} TwinAt(details: map<string, string>, a: string, b: string)
    requires Canonical(details) == a + "=" + b && (a !in details || |details| != 1)
    ensures HasTwin(details)
  {
    CanonicalOfOne(a, b);
    var other := map[a := b];
    assert a in other && |other| == 1;
    assert other != details && Canonical(other) == Canonical(details);
  }

  lemma {:induction false} MoveSplit(a: string, b: string, c: string)
    ensures a + "=" + (b + "=" + c) == (a + "=" + b) + "=" + c
  {
  }

  /** Text with no equals sign but one reads in one way only. */
  lemma {:induction false} PlainIsUnique(details: map<string, string>, other: map<string, string>)
    requires !Ambiguous(details) && Canonical(other) == Canonical(details)
    ensures other == details
  {
    EmptyCanonical(details);
    EmptyCanonical(other);
    if details != map[] {
      var k, v := CanonicalSplits(details);
      var j, w := CanonicalSplits(other);
      assert |details| != 0;
      OneEqualsSign(k, v, j, w);
    }
  }

  lemma {:induction false} OneEqualsSign(k: string, v: string, j: string, w: string)
    requires '=' !in k && '=' !in v && k + "=" + v == j + "=" + w
    ensures k == j && v == w
  {
    var text := k + "=" + v;
    assert text[|k|] == '=' && text[|j|] == '=';
    assert forall i :: 0 <= i < |k| ==> text[i] == k[i];
    assert forall i :: |k| < i < |text| ==> text[i] == v[i - |k| - 1];
    assert |j| == |k|;
    assert k == text[..|k|] && j == text[..|j|];
    assert v == text[|k| + 1..] && w == text[|j| + 1..];
  }

  /** Details share their canonical form, and so their hash, with others if and only if they are ambiguous. */
  lemma {:induction false} TwinExactlyWhenAmbiguous(details: map<string, string>)
    ensures HasTwin(details) <==> Ambiguous(details)
  {
    if other :| other != details && Canonical(other) == Canonical(details) {
      if !Ambiguous(details) {
        PlainIsUnique(details, other);
      }
    }
    if Ambiguous(details) {
      AmbiguousHasTwin(details);
    }
  }

  /** A concrete pair. */
  lemma {:induction false} SeparatorsCollide()
    ensures map["a" := "1", "b" := "2"] != map["a" := "1&b=2"]
    ensures Canonical(map["a" := "1", "b" := "2"]) == Canonical(map["a" := "1&b=2"])
  {
    var m, n := map["a" := "1", "b" := "2"], map["a" := "1&b=2"];
    assert "b" in m && "b" !in n;
    CanonicalOf(m, ["a", "b"]);
    CanonicalOfOne("a", "1&b=2");
    assert PairsIn(m, ["a", "b"]) == [("a", "1"), ("b", "2")];
    JoinsTo();
  }

  lemma {:induction false} JoinsTo()
    ensures JoinPairs([("a", "1"), ("b", "2")]) == "a" + "=" + "1&b=2"
  {
    assert [("a", "1"), ("b", "2")][1..] == [("b", "2")];
    assert JoinPairs([("b", "2")]) == "b=2";
  }
}

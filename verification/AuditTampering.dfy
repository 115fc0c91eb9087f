/**
 Tamper evidence of the audit chain, with nothing asked of the forged log: exactly which
 entries let a different log pass verification with the same length and the same tip.
 */
module AuditTampering {
  import opened Text
  import opened Audit

  // ----- which entries can be forged

  predicate EndsWithBar(s: string) {
    s != "" && s[|s| - 1] == '|'
  }

  /**
   What a caller can check before appending: a bar in the timestamp, event, actor or resource;
   details with two entries or an equals sign in the only one; or a bar in that entry's key or
   at the end of its value.
   */
  ghost predicate ForgeableRecord(r: Record) {
    || '|' in r.timestamp || '|' in r.event || '|' in r.actor || '|' in r.resource
    || Ambiguous(r.details)
    || exists k :: k in r.details && ('|' in k || EndsWithBar(r.details[k]))
  }

  function RecordOf(e: Entry): Record {
    Record(e.timestamp, e.event, e.actor, e.resource, e.details)
  }

  ghost predicate Forgeable(e: Entry) {
    ForgeableRecord(RecordOf(e))
  }

  /** `f` can stand in for `e`: it differs, and has the same place in the chain, text and hash. */
  ghost predicate StandsIn(f: Entry, e: Entry) {
    f != e && f.index == e.index && f.prev == e.prev && f.hash == e.hash && Raw(f) == Raw(e)
  }

  ghost predicate HasStandIn(e: Entry) {
    exists f :: StandsIn(f, e)
  }

  // ----- forging

  lemma {:induction false} SplitAt(s: string, c: char) returns (a: string, b: string)
    requires c in s
    ensures s == a + [c] + b && |a| < |s|
  {
    var i :| 0 <= i < |s| && s[i] == c;
    a, b := s[..i], s[i + 1..];
  }

  /** A bar in a field moves the border to the next field. */
  lemma {:induction false} BarMoves(a: string, b: string, next: string, rest: string)
    ensures (a + "|" + b) + "|" + (next + "|" + rest) == a + "|" + ((b + "|" + next) + "|" + rest)
  {
  }

  lemma {:induction false} ForgeTimestamp(e: Entry)
    requires '|' in e.timestamp
    ensures HasStandIn(e)
  {
    var a, b := SplitAt(e.timestamp, '|');
    var f := e.(timestamp := a, event := b + "|" + e.event);
    var rest := e.actor + "|" + (e.resource + "|" + (Canonical(e.details) + "|" + e.prev));
    BarMoves(a, b, e.event, rest);
    assert f.timestamp != e.timestamp;
    assert StandsIn(f, e);
  }

  lemma {:induction false} ForgeEvent(e: Entry)
    requires '|' in e.event
    ensures HasStandIn(e)
  {
    var a, b := SplitAt(e.event, '|');
    var f := e.(event := a, actor := b + "|" + e.actor);
    BarMoves(a, b, e.actor, e.resource + "|" + (Canonical(e.details) + "|" + e.prev));
    assert f.event != e.event;
    assert StandsIn(f, e);
  }

  lemma {:induction false} ForgeActor(e: Entry)
    requires '|' in e.actor
    ensures HasStandIn(e)
  {
    var a, b := SplitAt(e.actor, '|');
    var f := e.(actor := a, resource := b + "|" + e.resource);
    BarMoves(a, b, e.resource, Canonical(e.details) + "|" + e.prev);
    assert f.actor != e.actor;
    assert StandsIn(f, e);
  }

  lemma {:induction false} ForgeResource(e: Entry)
    requires '|' in e.resource
    ensures HasStandIn(e)
  {
    var a, b := SplitAt(e.resource, '|');
    var f := e.(actor := e.actor + "|" + a, resource := b);
    BarMoves(e.actor, a, b, Canonical(e.details) + "|" + e.prev);
    assert |f.actor| > |e.actor|;
    assert StandsIn(f, e);
  }

  lemma {:induction false} ForgeDetails(e: Entry)
    requires Ambiguous(e.details)
    ensures HasStandIn(e)
  {
    AmbiguousHasTwin(e.details);
    var other :| other != e.details && Canonical(other) == Canonical(e.details);
    assert StandsIn(e.(details := other), e);
  }

  /** Details whose text ends in a canonical text after a bar give what comes before it to the resource. */
  lemma {:induction false} ForgeBorder(e: Entry, a: string, other: map<string, string>)
    requires Canonical(e.details) == a + "|" + Canonical(other)
    ensures HasStandIn(e)
  {
    var f := e.(resource := e.resource + "|" + a, details := other);
    BarMoves(e.resource, a, Canonical(other), e.prev);
    assert |f.resource| > |e.resource|;
    assert e.resource + "|" + ((a + "|" + Canonical(other)) + "|" + e.prev) == f.resource + "|" + (Canonical(other) + "|" + e.prev);
    assert StandsIn(f, e);
  }

  lemma {:induction false} ForgePair(e: Entry, k: string)
    requires !Ambiguous(e.details) && k in e.details && ('|' in k || EndsWithBar(e.details[k]))
    ensures HasStandIn(e)
  {
    OnlyEntry(e.details, k);
    var v := e.details[k];
    CanonicalOfOne(k, v);
    if '|' in k {
      var a, b := SplitAt(k, '|');
      CanonicalOfOne(b, v);
      assert k + "=" + v == a + "|" + (b + "=" + v);
      ForgeBorder(e, a, map[b := v]);
    } else {
      var a := k + "=" + v[..|v| - 1];
      EmptyCanonical(map[]);
      assert v == v[..|v| - 1] + "|";
      assert k + "=" + v == a + "|" + "";
      ForgeBorder(e, a, map[]);
    }
  }

  lemma {:induction false} OnlyEntry(details: map<string, string>, k: string)
    requires !Ambiguous(details) && k in details
    ensures details == map[k := details[k]]
  {
    var j, rest := CanonicalSplits(details);
    assert |details| == |details.Keys|;
    assert |details.Keys - {k}| == |details.Keys| - 1;
  }

  lemma {:induction false} ForgeableHasStandIn(e: Entry)
    requires Forgeable(e)
    ensures HasStandIn(e)
  {
    if '|' in e.timestamp {
      ForgeTimestamp(e);
    } else if '|' in e.event {
      ForgeEvent(e);
    } else if '|' in e.actor {
      ForgeActor(e);
    } else if '|' in e.resource {
      ForgeResource(e);
    } else if Ambiguous(e.details) {
      ForgeDetails(e);
    } else {
      var k :| k in e.details && ('|' in k || EndsWithBar(e.details[k]));
      ForgePair(e, k);
    }
  }

  /** The logs a verifier that knows the length and the tip cannot tell from `a`. */
  ghost predicate PassesFor(b: seq<Entry>, a: seq<Entry>, hash: string -> string) {
    Accepted(b, hash) && |b| == |a| && SameTip(b, a)
  }

  /** One forgeable entry is enough: another log passes for the accepted one. */
  lemma {:induction false} ForgeLog(a: seq<Entry>, i: nat, hash: string -> string)
    requires Accepted(a, hash) && i < |a| && Forgeable(a[i])
    ensures exists b :: PassesFor(b, a, hash) && b != a
  {
    ForgeableHasStandIn(a[i]);
    var f :| StandsIn(f, a[i]);
    ReplacementPasses(a, i, f, hash);
    assert a[i := f][i] != a[i];
  }

  lemma {:induction false} ReplacementPasses(a: seq<Entry>, i: nat, f: Entry, hash: string -> string)
    requires Accepted(a, hash) && i < |a| && StandsIn(f, a[i])
    ensures PassesFor(a[i := f], a, hash)
  {
    var b := a[i := f];
    forall j | 0 <= j < |b| ensures Linked(b, j) && Intact(b, j, hash) {
      ReplacementHolds(a, i, f, hash, j);
    }
  }

  lemma {:induction false} ReplacementHolds(a: seq<Entry>, i: nat, f: Entry, hash: string -> string, j: nat)
    requires Accepted(a, hash) && i < |a| && StandsIn(f, a[i]) && j < |a|
    ensures Linked(a[i := f], j) && Intact(a[i := f], j, hash)
  {
    assert Linked(a, j) && Intact(a, j, hash);
  }

  // ----- binding

  /** What is left of `x` after some bar is `y`. */
  ghost predicate AfterBar(x: string, y: string) {
    exists z :: x == z + "|" + y
  }

  /** A bar-free field against any other: the same border, or the rest lies deeper. */
  lemma {:induction false} Border(p: string, x: string, q: string, y: string)
    requires '|' !in p && p + "|" + x == q + "|" + y
    ensures (q == p && x == y) || AfterBar(x, y)
  {
    var k := p + "|" + x;
    assert k[|q|] == '|';
    assert forall i :: 0 <= i < |p| ==> k[i] == p[i];
    assert |q| >= |p|;
    assert x == k[|p| + 1..] && y == k[|q| + 1..];
    if |q| == |p| {
      assert p == k[..|p|] && q == k[..|q|];
    } else {
      var z := k[|p| + 1..|q|];
      assert x == z + "|" + y;
    }
  }

  /** Once the rest lies deeper it stays so. */
  lemma {:induction false} Deeper(p: string, x: string, q: string, y: string)
    requires '|' !in p && AfterBar(p + "|" + x, q + "|" + y)
    ensures AfterBar(x, y)
  {
    var z :| p + "|" + x == z + "|" + (q + "|" + y);
    var w := z + "|" + q;
    assert p + "|" + x == w + "|" + y;
    assert w[|z|] == '|';
    Border(p, x, w, y);
  }

  lemma {:induction false} FieldBorder(p: string, x: string, q: string, y: string)
    requires '|' !in p && (p + "|" + x == q + "|" + y || AfterBar(p + "|" + x, q + "|" + y))
    ensures (p + "|" + x == q + "|" + y && q == p && x == y) || AfterBar(x, y)
  {
    if AfterBar(p + "|" + x, q + "|" + y) {
      Deeper(p, x, q, y);
    } else {
      Border(p, x, q, y);
    }
  }

  /** The fields between index and previous hash. */
  ghost function Body(e: Entry): string {
    e.timestamp + "|" + (e.event + "|" + (e.actor + "|" + (e.resource + "|" + Canonical(e.details))))
  }

  lemma {:induction false} RawShape(e: Entry)
    ensures Raw(e) == Decimal(e.index) + "|" + (Body(e) + "|" + e.prev)
  {
  }

  ghost predicate SameFields(a: Entry, b: Entry) {
    a.timestamp == b.timestamp && a.event == b.event && a.actor == b.actor && a.resource == b.resource
    && Canonical(a.details) == Canonical(b.details)
  }

  lemma {:induction false} BodyBorders(a: Entry, b: Entry)
    requires '|' !in a.timestamp && '|' !in a.event && '|' !in a.actor && '|' !in a.resource
    requires Body(a) == Body(b)
    ensures SameFields(a, b) || AfterBar(Canonical(a.details), Canonical(b.details))
  {
    var x1, y1 := a.resource + "|" + Canonical(a.details), b.resource + "|" + Canonical(b.details);
    var x2, y2 := a.actor + "|" + x1, b.actor + "|" + y1;
    var x3, y3 := a.event + "|" + x2, b.event + "|" + y2;
    FieldBorder(a.timestamp, x3, b.timestamp, y3);
    FieldBorder(a.event, x2, b.event, y2);
    FieldBorder(a.actor, x1, b.actor, y1);
    FieldBorder(a.resource, Canonical(a.details), b.resource, Canonical(b.details));
  }

  /** After a bar in unambiguous details no canonical text is left unless the entry can be forged. */
  lemma {:induction false} NothingAfterBar(details: map<string, string>, other: map<string, string>)
    requires !Ambiguous(details) && AfterBar(Canonical(details), Canonical(other))
    ensures exists k :: k in details && ('|' in k || EndsWithBar(details[k]))
  {
    EmptyCanonical(details);
    var k, v := CanonicalSplits(details);
    var z :| Canonical(details) == z + "|" + Canonical(other);
    EmptyCanonical(other);
    var text := k + "=" + v;
    assert text[|z|] == '|';
    assert Canonical(other) == text[|z| + 1..];
    assert forall i :: 0 <= i < |k| ==> text[i] == k[i];
    assert forall i :: |k| < i < |text| ==> text[i] == v[i - |k| - 1];
    if |z| < |k| {
      assert '|' in k;
    } else if other == map[] {
      assert |text| == |z| + 1;
      assert v[|v| - 1] == text[|text| - 1];
      assert EndsWithBar(details[k]);
    } else {
      var j, rest := CanonicalSplits(other);
      EqualsAt(text, |z| + 1, j, rest);
    }
  }

  lemma {:induction false} EqualsAt(text: string, n: nat, j: string, rest: string)
    requires n <= |text| && text[n..] == j + "=" + rest
    ensures n + |j| < |text| && text[n + |j|] == '='
  {
    assert text[n..][|j|] == '=';
  }

  /** The hashed text of an entry that cannot be forged determines every field, against any other entry whatever. */
  lemma {:induction false} RawInjective(a: Entry, b: Entry)
    requires !Forgeable(a) && '|' !in a.prev && '|' !in b.prev && Raw(a) == Raw(b)
    ensures a == b.(hash := a.hash)
  {
    RawShape(a);
    RawShape(b);
    DecimalHasNoBar(a.index);
    DecimalHasNoBar(b.index);
    SplitAtSeparator(Decimal(a.index), Body(a) + "|" + a.prev, Decimal(b.index), Body(b) + "|" + b.prev, '|');
    DecimalInjective(a.index, b.index);
    SplitAtLastSeparator(Body(a), a.prev, Body(b), b.prev, '|');
    BodyBorders(a, b);
    if AfterBar(Canonical(a.details), Canonical(b.details)) {
      NothingAfterBar(a.details, b.details);
    } else {
      PlainIsUnique(a.details, b.details);
    }
  }

  /** Hashes are hexadecimal text, so contain no bar. */
  ghost predicate BarFree(hash: string -> string) {
    forall x :: '|' !in hash(x)
  }

  ghost predicate Unforgeable(a: seq<Entry>) {
    forall i :: 0 <= i < |a| ==> !Forgeable(a[i])
  }

  lemma {:induction false} LastOf(a: seq<Entry>, hash: string -> string)
    requires a != [] && Accepted(a, hash) && BarFree(hash)
    ensures Accepted(a[..|a| - 1], hash)
    ensures var e := a[|a| - 1];
            '|' !in e.prev && e.hash == hash(Raw(e)) && e.prev == if |a| == 1 then GENESIS else a[|a| - 2].hash
  {
    assert Linked(a, |a| - 1) && Intact(a, |a| - 1, hash);
    GenesisHasNoBar();
    if |a| > 1 {
      assert Intact(a, |a| - 2, hash);
      assert '|' !in hash(Raw(a[|a| - 2]));
    }
    PrefixAccepted(a, |a| - 1, hash);
  }

  lemma {:induction false} GenesisHasNoBar()
    ensures '|' !in GENESIS
  {
    assert '|' !in ZEROS;
  }

  lemma {:induction false} SameHashSameEntry(a: Entry, b: Entry, hash: string -> string)
    requires CollisionFree(hash) && !Forgeable(a) && '|' !in a.prev && '|' !in b.prev
    requires a.hash == hash(Raw(a)) && b.hash == hash(Raw(b)) && a.hash == b.hash
    ensures a == b
  {
    RawInjective(a, b);
  }

  /** Logs that pass for one another and end in the same entry do so without it. */
  lemma {:induction false} WithoutLast(a: seq<Entry>, b: seq<Entry>, hash: string -> string)
    requires a != [] && BarFree(hash) && Accepted(a, hash) && PassesFor(b, a, hash) && a[|a| - 1] == b[|a| - 1]
    ensures Accepted(a[..|a| - 1], hash) && PassesFor(b[..|a| - 1], a[..|a| - 1], hash)
  {
    LastOf(a, hash);
    LastOf(b, hash);
  }

  lemma {:induction false} LastIsSame(a: seq<Entry>, b: seq<Entry>, hash: string -> string)
    requires a != [] && CollisionFree(hash) && BarFree(hash) && Accepted(a, hash) && PassesFor(b, a, hash)
    requires !Forgeable(a[|a| - 1])
    ensures a[|a| - 1] == b[|a| - 1]
  {
    LastOf(a, hash);
    LastOf(b, hash);
    SameHashSameEntry(a[|a| - 1], b[|a| - 1], hash);
  }

  lemma {:induction false} UnforgeablePrefix(a: seq<Entry>, n: nat)
    requires Unforgeable(a) && n <= |a|
    ensures Unforgeable(a[..n])
  {
  }

  lemma {:induction false} UnforgeableIsBound(a: seq<Entry>, b: seq<Entry>, hash: string -> string)
    requires CollisionFree(hash) && BarFree(hash) && Accepted(a, hash) && Unforgeable(a) && PassesFor(b, a, hash)
    ensures b == a
    decreases |a|
  {
    if a != [] {
      var n := |a| - 1;
      LastIsSame(a, b, hash);
      WithoutLast(a, b, hash);
      UnforgeablePrefix(a, n);
      UnforgeableIsBound(a[..n], b[..n], hash);
      assert a == a[..n] + [a[n]] && b == b[..n] + [b[n]];
    }
  }

  /** The length and the tip determine the whole log. */
  ghost predicate Bound(a: seq<Entry>, hash: string -> string) {
    forall b :: PassesFor(b, a, hash) ==> b == a
  }

  /**
   Tamper evidence, exactly: with a collision-free hash, an accepted log is the only one that
   passes for it if and only if none of its entries can be forged.  Nothing is asked of the
   other log.
   */
  lemma {:induction false} BoundExactlyWhenUnforgeable(a: seq<Entry>, hash: string -> string)
    requires CollisionFree(hash) && BarFree(hash) && Accepted(a, hash)
    ensures Bound(a, hash) <==> Unforgeable(a)
  {
    if Unforgeable(a) {
      forall b | PassesFor(b, a, hash) ensures b == a {
        UnforgeableIsBound(a, b, hash);
      }
    }
    if i :| 0 <= i < |a| && Forgeable(a[i]) {
      ForgeLog(a, i, hash);
    }
  }

  lemma {:induction false} LogHoldsRecords(records: seq<Record>, hash: string -> string, i: nat)
    requires i < |records|
    ensures RecordOf(LogOf(records, hash)[i]) == records[i]
  {
    if i < |records| - 1 {
      LogHoldsRecords(records[..|records| - 1], hash, i);
    }
  }

  /** For logs built by appending: bound if and only if no record that was appended can be forged. */
  lemma {:induction false} AppendedLogIsBound(records: seq<Record>, hash: string -> string)
    requires CollisionFree(hash) && BarFree(hash)
    ensures Bound(LogOf(records, hash), hash) <==> forall i :: 0 <= i < |records| ==> !ForgeableRecord(records[i])
  {
    var log := LogOf(records, hash);
    AppendedLogsVerify(records, hash);
    BoundExactlyWhenUnforgeable(log, hash);
    forall i | 0 <= i < |records| ensures Forgeable(log[i]) <==> ForgeableRecord(records[i]) {
      LogHoldsRecords(records, hash, i);
    }
  }
}

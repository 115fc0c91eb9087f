/** Strings as Go compares them: lexicographically, a proper prefix being the smaller. */
module Text {
  predicate Less(a: string, b: string) {
    if b == "" then false
    else if a == "" then true
    else if a[0] != b[0] then a[0] < b[0]
    else Less(a[1..], b[1..])
  }

  lemma {:induction false} LessIrreflexive(a: string)
    ensures !Less(a, a)
  {
    if a != "" {
      LessIrreflexive(a[1..]);
    }
  }

  lemma {:induction false} LessTransitive(a: string, b: string, c: string)
    requires Less(a, b) && Less(b, c)
    ensures Less(a, c)
  {
    if a != "" && a[0] == b[0] == c[0] {
      LessTransitive(a[1..], b[1..], c[1..]);
    }
  }

  lemma {:induction false} LessTotal(a: string, b: string)
    ensures Less(a, b) || a == b || Less(b, a)
  {
    if a != "" && b != "" && a[0] == b[0] {
      LessTotal(a[1..], b[1..]);
      assert a == [a[0]] + a[1..] && b == [b[0]] + b[1..];
    }
  }

  // ----- decimal numbers

  const DIGITS := "0123456789"

  /** The decimal form of a number, without leading zeros. */
  function Decimal(n: nat): (s: string)
    ensures |s| > 0 && forall i :: 0 <= i < |s| ==> s[i] in DIGITS
  {
    if n < 10 then [DIGITS[n]] else Decimal(n / 10) + [DIGITS[n % 10]]
  }

  lemma {:induction false} DecimalInjective(m: nat, n: nat)
    requires Decimal(m) == Decimal(n)
    ensures m == n
  {
    var s, t := Decimal(m), Decimal(n);
    assert s[|s| - 1] == DIGITS[m % 10] && t[|t| - 1] == DIGITS[n % 10];
    DigitsDiffer(m % 10, n % 10);
    if m >= 10 && n >= 10 {
      assert s[..|s| - 1] == Decimal(m / 10) && t[..|t| - 1] == Decimal(n / 10);
      DecimalInjective(m / 10, n / 10);
    }
  }

  lemma {:induction false} DigitsDiffer(a: nat, b: nat)
    requires a < 10 && b < 10 && DIGITS[a] == DIGITS[b]
    ensures a == b
  {
  }

  // ----- separators

  /** Text before the first separator and text after it are recovered from the whole. */
  lemma {:induction false} SplitAtSeparator(a: string, x: string, b: string, y: string, sep: char)
    requires sep !in a && sep !in b && a + [sep] + x == b + [sep] + y
    ensures a == b && x == y
  {
    var k := a + [sep] + x;
    assert k[|a|] == sep && k[|b|] == sep;
    assert forall i :: 0 <= i < |a| ==> k[i] == a[i];
    assert forall i :: 0 <= i < |b| ==> k[i] == b[i];
    assert |a| == |b|;
    assert a == k[..|a|] && b == k[..|b|];
    assert x == k[|a| + 1..] && y == k[|b| + 1..];
  }

  /** Text before the last separator and text after it are recovered from the whole. */
  lemma {:induction false} SplitAtLastSeparator(x: string, a: string, y: string, b: string, sep: char)
    requires sep !in a && sep !in b && x + [sep] + a == y + [sep] + b
    ensures x == y && a == b
  {
    var k := x + [sep] + a;
    assert k[|x|] == sep && k[|y|] == sep;
    assert forall i :: |x| < i < |k| ==> k[i] == a[i - |x| - 1];
    assert forall i :: |y| < i < |k| ==> k[i] == b[i - |y| - 1];
    assert |x| == |y|;
    assert x == k[..|x|] && y == k[..|y|];
    assert a == k[|x| + 1..] && b == k[|y| + 1..];
  }

  // ----- sorted lists of strings

  /** Each string strictly before the next. */
  ghost predicate Ascending(s: seq<string>) {
    forall i :: 0 < i < |s| ==> Less(s[i - 1], s[i])
  }

  lemma {:induction false} LessAsymmetric(a: string, b: string)
    ensures !(Less(a, b) && Less(b, a))
  {
    LessIrreflexive(a);
    if Less(a, b) && Less(b, a) {
      LessTransitive(a, b, a);
    }
  }

  lemma {:induction false} AscendingAll(s: seq<string>, i: nat, j: nat)
    requires Ascending(s) && i < j < |s|
    ensures Less(s[i], s[j])
    decreases j
  {
    if i < j - 1 {
      AscendingAll(s, i, j - 1);
      LessTransitive(s[i], s[j - 1], s[j]);
    }
  }

  lemma {:induction false} SameFirst(s: seq<string>, t: seq<string>)
    requires s != [] && t != [] && Ascending(s) && Ascending(t) && s[0] in t && t[0] in s
    ensures s[0] == t[0]
  {
    var i :| 0 <= i < |s| && s[i] == t[0];
    var j :| 0 <= j < |t| && t[j] == s[0];
    LessAsymmetric(s[0], t[0]);
    if i > 0 {
      AscendingAll(s, 0, i);
    }
    if j > 0 {
      AscendingAll(t, 0, j);
    }
  }

  lemma {:induction false} TailLacksFirst(s: seq<string>)
    requires s != [] && Ascending(s)
    ensures s[0] !in s[1..] && Ascending(s[1..])
  {
    forall i | 0 < i < |s| ensures s[i] != s[0] {
      AscendingAll(s, 0, i);
      LessIrreflexive(s[0]);
    }
  }

  /** There is only one ascending list of a set of strings. */
  lemma {:induction false} AscendingIsUnique(s: seq<string>, t: seq<string>)
    requires Ascending(s) && Ascending(t) && forall x :: x in s <==> x in t
    ensures s == t
  {
    assert |t| > 0 ==> t[0] in t;
    assert |s| > 0 ==> s[0] in s;
    if s != [] {
      SameFirst(s, t);
      TailLacksFirst(s);
      TailLacksFirst(t);
      forall x ensures x in s[1..] <==> x in t[1..] {
        assert x in s <==> x == s[0] || x in s[1..];
        assert x in t <==> x == t[0] || x in t[1..];
      }
      AscendingIsUnique(s[1..], t[1..]);
      assert s == [s[0]] + s[1..] && t == [t[0]] + t[1..];
    }
  }
}

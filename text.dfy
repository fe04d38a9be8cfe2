/**
 * Strings as the engine compares, splits and prints them: the code-point
 * lexicographic order that MongoDB applies to string range filters and that
 * Python's `sorted` uses, splitting on a separator character, and
 * zero-padded decimal digits.
 */
module Text {

  // ---------------------------------------------------------------------------
  // Lexicographic order
  // ---------------------------------------------------------------------------

  /** `a` sorts strictly before `b`: first differing character decides, a proper prefix sorts first. */
  predicate Below(a: string, b: string)
  {
    if b == [] then false
    else if a == [] then true
    else if a[0] != b[0] then a[0] < b[0]
    else Below(a[1..], b[1..])
  }

  /** The inclusive bound used by `$gte` / `$lte`. */
  predicate AtMost(a: string, b: string)
  {
    a == b || Below(a, b)
  }

  lemma {:induction false} BelowIrreflexive(a: string)
    ensures !Below(a, a)
  {
    if a != [] {
      BelowIrreflexive(a[1..]);
    }
  }

  lemma {:induction false} BelowTransitive(a: string, b: string, c: string)
    requires Below(a, b) && Below(b, c)
    ensures Below(a, c)
  {
    if a != [] && a[0] == b[0] && b[0] == c[0] {
      BelowTransitive(a[1..], b[1..], c[1..]);
    }
  }

  lemma {:induction false} BelowTotal(a: string, b: string)
    ensures a == b || Below(a, b) || Below(b, a)
  {
    if a != [] && b != [] && a[0] == b[0] {
      BelowTotal(a[1..], b[1..]);
      if a[1..] == b[1..] {
        assert a == [a[0]] + a[1..] && b == [b[0]] + b[1..];
      }
    }
  }

  lemma {:induction false} BelowAsymmetric(a: string, b: string)
    requires Below(a, b)
    ensures !Below(b, a)
  {
    if Below(b, a) {
      BelowTransitive(a, b, a);
      BelowIrreflexive(a);
    }
  }

  /** An inverted pair of inclusive bounds admits no string at all. */
  lemma InvertedBoundsAdmitNothing(lo: string, hi: string, x: string)
    requires Below(hi, lo)
    ensures !(AtMost(lo, x) && AtMost(x, hi))
  {
    if AtMost(lo, x) && AtMost(x, hi) {
      if lo == x && x == hi {
        BelowIrreflexive(hi);
      } else if lo == x {
        BelowAsymmetric(hi, lo);
      } else if x == hi {
        BelowAsymmetric(hi, lo);
      } else {
        BelowTransitive(lo, x, hi);
        BelowAsymmetric(hi, lo);
      }
    }
  }

  /** Comparing two concatenations whose first parts have equal length. */
  lemma {:induction false} BelowConcat(x: string, y: string, x': string, y': string)
    requires |x| == |x'|
    ensures Below(x + y, x' + y') <==> Below(x, x') || (x == x' && Below(y, y'))
  {
    if x == [] {
      assert x + y == y && x' + y' == y';
    } else {
      assert (x + y)[0] == x[0] && (x' + y')[0] == x'[0];
      assert (x + y)[1..] == x[1..] + y && (x' + y')[1..] == x'[1..] + y';
      BelowConcat(x[1..], y, x'[1..], y');
      if x[0] == x'[0] && x[1..] == x'[1..] {
        assert x == x';
      }
      if x == x' {
        assert x[1..] == x'[1..];
      }
    }
  }

  /** A strictly increasing sequence: no duplicates, in lexicographic order. */
  predicate StrictlyIncreasing(s: seq<string>)
  {
    forall i, j :: 0 <= i < j < |s| ==> Below(s[i], s[j])
  }

  // ---------------------------------------------------------------------------
  // Splitting
  // ---------------------------------------------------------------------------

  /** The pieces of `s` between occurrences of `sep` (like Python's `s.split(sep)`). */
  function Fields(s: string, sep: char): (r: seq<string>)
    ensures |r| >= 1
    ensures forall i :: 0 <= i < |r| ==> sep !in r[i]
  {
    if s == [] then [[]]
    else
      var rest := Fields(s[1..], sep);
      if s[0] == sep then [[]] + rest
      else [[s[0]] + rest[0]] + rest[1..]
  }

  lemma {:induction false} FieldsOfPlain(a: string, sep: char)
    requires sep !in a
    ensures Fields(a, sep) == [a]
  {
    if a != [] {
      FieldsOfPlain(a[1..], sep);
      assert [a[0]] + a[1..] == a;
    }
  }

  lemma {:induction false} FieldsOfJoin(a: string, sep: char, b: string)
    requires sep !in a
    ensures Fields(a + [sep] + b, sep) == [a] + Fields(b, sep)
  {
    var s := a + [sep] + b;
    if a == [] {
      assert s[1..] == b;
    } else {
      assert s[1..] == a[1..] + [sep] + b;
      FieldsOfJoin(a[1..], sep, b);
      assert [a[0]] + a[1..] == a;
    }
  }

  // ---------------------------------------------------------------------------
  // Decimal digits
  // ---------------------------------------------------------------------------

  predicate IsDigit(c: char)
  {
    '0' <= c <= '9'
  }

  predicate AllDigits(s: string)
  {
    forall i :: 0 <= i < |s| ==> IsDigit(s[i])
  }

  lemma NoSeparatorInDigits(s: string, sep: char)
    requires AllDigits(s) && !IsDigit(sep)
    ensures sep !in s
  {
    assert forall i :: 0 <= i < |s| ==> s[i] != sep;
  }

  function DigitValue(c: char): (n: nat)
    requires IsDigit(c)
    ensures n < 10
  {
    c as int - '0' as int
  }

  function Digit(n: nat): (c: char)
    requires n < 10
    ensures IsDigit(c) && DigitValue(c) == n
  {
    ('0' as int + n) as char
  }

  /** The decimal value of a string of ASCII digits (Python's `int` on such a string). */
  function Value(s: string): nat
    requires AllDigits(s)
  {
    if s == [] then 0 else Value(s[..|s| - 1]) * 10 + DigitValue(s[|s| - 1])
  }

  function Pow10(n: nat): (r: nat)
    ensures r >= 1
  {
    if n == 0 then 1 else 10 * Pow10(n - 1)
  }

  /** A string of `k` digits denotes a number below `10^k`. */
  lemma {:induction false} ValueBound(s: string)
    requires AllDigits(s)
    ensures Value(s) < Pow10(|s|)
  {
    if s != [] {
      var init := s[..|s| - 1];
      ValueBound(init);
      assert Value(init) + 1 <= Pow10(|init|);
      assert Value(s) == Value(init) * 10 + DigitValue(s[|s| - 1]);
      assert (Value(init) + 1) * 10 <= Pow10(|init|) * 10;
    }
  }

  /** `n` as two zero-padded digits, as `%02d` prints it. */
  function Pad2(n: nat): (r: string)
    requires n < 100
    ensures |r| == 2 && AllDigits(r) && Value(r) == n
  {
    var r := [Digit(n / 10), Digit(n % 10)];
    assert r[..1] == [Digit(n / 10)] && r[..1][..0] == [];
    assert Value(r[..1]) == n / 10;
    assert Value(r) == (n / 10) * 10 + n % 10;
    r
  }

  lemma {:induction false} ValueAppend2(a: string, b: string)
    requires AllDigits(a) && AllDigits(b) && |b| == 2
    ensures AllDigits(a + b) && Value(a + b) == Value(a) * 100 + Value(b)
  {
    var s := a + b;
    var a' := a + [b[0]];
    assert AllDigits(s) && AllDigits(a');
    assert s[..|s| - 1] == a' && s[|s| - 1] == b[1];
    assert a'[..|a'| - 1] == a && a'[|a'| - 1] == b[0];
    assert Value(a') == Value(a) * 10 + DigitValue(b[0]);
    assert b[..1] == [b[0]] && b[..1][..0] == [];
    assert Value(b[..1]) == DigitValue(b[0]);
    assert Value(b) == DigitValue(b[0]) * 10 + DigitValue(b[1]);
    assert Value(s) == Value(a') * 10 + DigitValue(b[1]);
  }

  /** `n` as four zero-padded digits, as `%Y` prints a year. */
  function Pad4(n: nat): (r: string)
    requires n < 10000
    ensures |r| == 4 && AllDigits(r) && Value(r) == n
  {
    ValueAppend2(Pad2(n / 100), Pad2(n % 100));
    Pad2(n / 100) + Pad2(n % 100)
  }

  /** Zero-padded two-digit strings sort as their numbers do. */
  lemma Pad2Order(a: nat, b: nat)
    requires a < 100 && b < 100
    ensures Below(Pad2(a), Pad2(b)) <==> a < b
  {
    var x, y := Pad2(a), Pad2(b);
    assert x == [Digit(a / 10), Digit(a % 10)] && y == [Digit(b / 10), Digit(b % 10)];
    assert x[1..][1..] == [] && y[1..][1..] == [];
    assert !Below(x[1..][1..], y[1..][1..]);
    assert (Digit(a / 10) < Digit(b / 10)) == (a / 10 < b / 10);
    assert (Digit(a % 10) < Digit(b % 10)) == (a % 10 < b % 10);
    assert a < b <==> a / 10 < b / 10 || (a / 10 == b / 10 && a % 10 < b % 10);
  }

  lemma Pad4Order(a: nat, b: nat)
    requires a < 10000 && b < 10000
    ensures Below(Pad4(a), Pad4(b)) <==> a < b
  {
    BelowConcat(Pad2(a / 100), Pad2(a % 100), Pad2(b / 100), Pad2(b % 100));
    Pad2Order(a / 100, b / 100);
    Pad2Order(a % 100, b % 100);
  }
}

/**
 * Decimal text: how JavaScript's `String` and Lua's `%d` print whole numbers,
 * what Redis accepts as an integer argument, and when zero-padding makes text
 * order agree with numeric order.
 */
module Decimal {
  import opened Options

  function Digit(d: nat): char
    requires d < 10
  {
    '0' + d as char
  }

  predicate IsDigit(c: char) {
    '0' <= c <= '9'
  }

  predicate Digits(s: string) {
    forall i | 0 <= i < |s| :: IsDigit(s[i])
  }

  function DigitValue(c: char): (d: nat)
    requires IsDigit(c)
    ensures d < 10 && Digit(d) == c
  {
    (c as int) - ('0' as int)
  }

  function Show(n: nat): (s: string)
    ensures |s| >= 1 && Digits(s)
  {
    if n < 10 then [Digit(n)] else Show(n / 10) + [Digit(n % 10)]
  }

  function ShowInt(n: int): string {
    if n < 0 then "-" + Show(-n) else Show(n)
  }

  function Value(s: string): nat
    requires Digits(s)
  {
    if s == [] then 0 else 10 * Value(s[..|s| - 1]) + DigitValue(s[|s| - 1])
  }

  /** The one spelling of a number: no leading zero. */
  predicate Numeral(s: string) {
    s != [] && Digits(s) && (|s| > 1 ==> s[0] != '0')
  }

  function Pow10(w: nat): (p: nat)
    ensures p >= 1
  {
    if w == 0 then 1 else 10 * Pow10(w - 1)
  }

  lemma {:induction false} ValueOfShow(n: nat)
    ensures Value(Show(n)) == n
  {
    if n >= 10 {
      ValueOfShow(n / 10);
      assert Show(n)[..|Show(n)| - 1] == Show(n / 10);
    }
  }

  lemma {:induction false} ShowIsNumeral(n: nat)
    ensures Numeral(Show(n))
    ensures Show(n)[0] == '0' <==> n == 0
  {
    if n >= 10 {
      ShowIsNumeral(n / 10);
    }
  }

  lemma {:induction false} ShowOfValue(s: string)
    requires Numeral(s)
    ensures Show(Value(s)) == s
    ensures Value(s) == 0 <==> s == "0"
  {
    var n := |s| - 1;
    if n > 0 {
      assert s == s[..n] + [s[n]];
      ShowOfValue(s[..n]);
      assert s[..n][0] == s[0];
    } else {
      assert s[..0] == [];
      assert s == [s[0]];
      assert Digit(DigitValue(s[0])) == s[0];
    }
  }

  lemma {:induction false} ValueBound(s: string)
    requires Digits(s)
    ensures Value(s) < Pow10(|s|)
  {
    if s != [] {
      ValueBound(s[..|s| - 1]);
    }
  }

  /** A number has at most `w` digits exactly when it is below 10^w. */
  lemma {:induction false} ShowLength(n: nat, w: nat)
    requires w >= 1
    ensures |Show(n)| <= w <==> n < Pow10(w)
  {
    if w == 1 {
      assert Pow10(1) == 10 * Pow10(0);
    } else if n >= 10 {
      ShowLength(n / 10, w - 1);
    } else {
      assert Pow10(w) == 10 * Pow10(w - 1);
    }
  }

  // ----- integer arguments -----

  /** The Lua guard `positiveInt`: `^[1-9]%d*$` and at most 18 characters. */
  predicate PositiveInt(text: string) {
    text != [] && '1' <= text[0] <= '9' && Digits(text) && |text| <= 18
  }

  const INT64_MAX: int := 0x7FFF_FFFF_FFFF_FFFF
  const INT64_MIN: int := -0x8000_0000_0000_0000

  /** What Redis reads as a 64-bit integer: one spelling per number, no blanks. */
  function Integer(text: string): Option<int> {
    if Numeral(text) && Value(text) <= INT64_MAX then Some(Value(text))
    else if |text| > 1 && text[0] == '-' && Numeral(text[1..]) && text[1] != '0' && 0 - Value(text[1..]) >= INT64_MIN then
      Some(0 - Value(text[1..]))
    else None
  }

  lemma IntegerReads(n: int)
    requires INT64_MIN <= n <= INT64_MAX
    ensures Integer(ShowInt(n)) == Some(n)
  {
    if n >= 0 {
      ShowIsNumeral(n);
      ValueOfShow(n);
    } else {
      ShowIsNumeral(-n);
      ValueOfShow(-n);
      assert ShowInt(n)[1..] == Show(-n);
      assert !IsDigit(ShowInt(n)[0]);
    }
  }

  lemma EighteenDigits()
    ensures Pow10(18) == 1_000_000_000_000_000_000
  {
    assert Pow10(6) == 1_000_000 by {
      assert Pow10(3) == 1000;
    }
    assert Pow10(12) == 1_000_000_000_000 by {
      assert Pow10(9) == 1_000_000_000;
    }
    assert Pow10(15) == 1_000_000_000_000_000;
  }

  /** A text the guard accepts is an integer Redis accepts, and a positive one. */
  lemma PositiveIntIsInteger(text: string)
    requires PositiveInt(text)
    ensures Integer(text) == Some(Value(text)) && 1 <= Value(text) < Pow10(18)
  {
    ValueBound(text);
    PowGrows(|text|, 18);
    EighteenDigits();
    ShowOfValue(text);
  }

  lemma {:induction false} PowGrows(v: nat, w: nat)
    requires v <= w
    ensures Pow10(v) <= Pow10(w)
  {
    if v < w {
      PowGrows(v, w - 1);
    }
  }

  /** The guard accepts a printed number exactly when it is positive and below 10^18. */
  lemma PositiveIntOfShow(n: nat)
    ensures PositiveInt(Show(n)) <==> 1 <= n < Pow10(18)
  {
    ShowIsNumeral(n);
    ShowLength(n, 18);
    assert Show(n)[0] in Show(n);
  }

  // ----- text order -----

  /** JavaScript's `<` on strings of these characters. */
  predicate Less(s: string, t: string) {
    if t == [] then false
    else if s == [] then true
    else s[0] < t[0] || (s[0] == t[0] && Less(s[1..], t[1..]))
  }

  lemma {:induction false} LessAtDifference(s: string, t: string, i: nat)
    requires i < |s| && i < |t| && s[..i] == t[..i] && s[i] < t[i]
    ensures Less(s, t)
  {
    if i > 0 {
      assert s[0] == s[..i][0] == t[..i][0] == t[0];
      assert s[1..][..i - 1] == s[..i][1..] == t[..i][1..] == t[1..][..i - 1];
      LessAtDifference(s[1..], t[1..], i - 1);
    }
  }

  lemma {:induction false} LessIsStrict(s: string, t: string)
    requires Less(s, t)
    ensures !Less(t, s) && s != t
  {
    if s != [] && s[0] == t[0] {
      LessIsStrict(s[1..], t[1..]);
    }
  }

  /** Digit texts of one length compare like their values. */
  lemma {:induction false} SameLengthDifference(s: string, t: string) returns (i: nat)
    requires |s| == |t| && Digits(s) && Digits(t) && Value(s) < Value(t)
    ensures i < |s| && s[..i] == t[..i] && s[i] < t[i]
  {
    var n := |s| - 1;
    var s', t' := s[..n], t[..n];
    if Value(s') < Value(t') {
      i := SameLengthDifference(s', t');
      assert s[..i] == s'[..i] && t[..i] == t'[..i];
    } else {
      assert Value(s') == Value(t');
      SameLengthSame(s', t');
      i := n;
    }
  }

  lemma {:induction false} SameLengthSame(s: string, t: string)
    requires |s| == |t| && Digits(s) && Digits(t) && Value(s) == Value(t)
    ensures s == t
  {
    if s != [] {
      var n := |s| - 1;
      var s', t' := s[..n], t[..n];
      LastDigit(Value(s'), Value(t'), DigitValue(s[n]), DigitValue(t[n]));
      SameLengthSame(s', t');
      assert s == s' + [s[n]] && t == t' + [t[n]];
    }
  }

  lemma LastDigit(a: nat, b: nat, c: nat, d: nat)
    requires 10 * a + c == 10 * b + d && c < 10 && d < 10
    ensures a == b && c == d
  {
  }

  // ----- zero padding -----

  function Zeros(n: nat): (s: string)
    ensures |s| == n && forall i | 0 <= i < n :: s[i] == '0'
  {
    seq(n, _ => '0')
  }

  /** `padStart(w, '0')`. */
  function Pad(w: nat, s: string): string {
    if |s| >= w then s else Zeros(w - |s|) + s
  }

  lemma {:induction false} PadValue(n: nat, s: string)
    requires Digits(s)
    ensures Digits(Zeros(n) + s) && Value(Zeros(n) + s) == Value(s)
    decreases |s|
  {
    var p := Zeros(n) + s;
    if s == [] {
      assert p == Zeros(n);
      ZerosValue(n);
    } else {
      PadValue(n, s[..|s| - 1]);
      assert p[..|p| - 1] == Zeros(n) + s[..|s| - 1];
      assert p[|p| - 1] == s[|s| - 1];
    }
  }

  lemma {:induction false} ZerosValue(n: nat)
    ensures Digits(Zeros(n)) && Value(Zeros(n)) == 0
  {
    if n > 0 {
      ZerosValue(n - 1);
      assert Zeros(n)[..n - 1] == Zeros(n - 1);
    }
  }

  lemma PaddedValue(w: nat, n: nat)
    ensures Digits(Pad(w, Show(n))) && Value(Pad(w, Show(n))) == n
    ensures w >= 1 && n < Pow10(w) ==> |Pad(w, Show(n))| == w
  {
    ValueOfShow(n);
    if |Show(n)| < w { PadValue(w - |Show(n)|, Show(n)); }
    if w >= 1 { ShowLength(n, w); }
  }

  /** Below 10^w, padding to `w` digits makes text order numeric order. */
  lemma PaddedOrder(w: nat, prefix: string, m: nat, n: nat)
    requires w >= 1 && m < n < Pow10(w)
    ensures Less(prefix + Pad(w, Show(m)), prefix + Pad(w, Show(n)))
  {
    PaddedValue(w, m);
    PaddedValue(w, n);
    var s, t := Pad(w, Show(m)), Pad(w, Show(n));
    var i := SameLengthDifference(s, t);
    var k := |prefix| + i;
    assert (prefix + s)[..k] == prefix + s[..i] && (prefix + t)[..k] == prefix + t[..i];
    LessAtDifference(prefix + s, prefix + t, k);
  }

  lemma {:induction false} LeadingDigits(w: nat)
    requires w >= 1
    ensures Show(Pow10(w))[0] == '1' && Show(Pow10(w) - 1)[0] == '9'
    ensures |Show(Pow10(w))| == w + 1 && |Show(Pow10(w) - 1)| == w
  {
    if w == 1 {
      assert Pow10(1) == 10 * Pow10(0);
      assert Show(10) == Show(1) + [Digit(0)];
    } else {
      LeadingDigits(w - 1);
      assert Pow10(w) / 10 == Pow10(w - 1) && (Pow10(w) - 1) / 10 == Pow10(w - 1) - 1;
    }
  }

  /** At 10^w the padding is spent: the next key sorts before the one it follows. */
  lemma PaddingRunsOut(w: nat, prefix: string)
    requires w >= 1
    ensures Less(prefix + Pad(w, Show(Pow10(w))), prefix + Pad(w, Show(Pow10(w) - 1)))
  {
    LeadingDigits(w);
    var s, t := Show(Pow10(w)), Show(Pow10(w) - 1);
    assert (prefix + s)[..|prefix|] == prefix == (prefix + t)[..|prefix|];
    LessAtDifference(prefix + s, prefix + t, |prefix|);
  }
}

/** Decimal numbers as Go's strconv prints and reads them. */
module Decimal {
  import opened Text

  function Digit(d: nat): char
    requires d < 10
  {
    '0' + d as char
  }

  function Format(n: nat): (s: string)
    ensures s != ""
  {
    if n < 10 then [Digit(n)] else Format(n / 10) + [Digit(n % 10)]
  }

  predicate IsDigit(c: char) {
    '0' <= c <= '9'
  }

  predicate AllDigits(s: string) {
    forall i :: 0 <= i < |s| ==> IsDigit(s[i])
  }

  function Value(s: string): nat
    requires AllDigits(s)
  {
    if s == "" then 0 else Value(s[..|s| - 1]) * 10 + (s[|s| - 1] as int - '0' as int)
  }

  /** strconv.ParseUint in base ten, with a largest value. */
  function ParseUint(s: string, max: nat): (r: Option<nat>)
    ensures r.Some? ==> r.value <= max
  {
    if s != "" && AllDigits(s) && Value(s) <= max then Some(Value(s)) else None
  }

  /** strconv.Atoi: a sign is allowed. */
  function Atoi(s: string, max: nat): (r: Option<int>)
    ensures r.Some? ==> 0 - max - 1 <= r.value <= max
  {
    if s != "" && s[0] == '-' then
      var n := ParseUint(s[1..], max + 1);
      if n.Some? then Some(0 - n.value) else None
    else
      var n := ParseUint(if s != "" && s[0] == '+' then s[1..] else s, max);
      if n.Some? then Some(n.value) else None
  }

  lemma {:induction false} FormatValue(n: nat)
    ensures AllDigits(Format(n)) && Value(Format(n)) == n
  {
    if n >= 10 {
      FormatValue(n / 10);
      assert Format(n)[..|Format(n)| - 1] == Format(n / 10);
    } else {
      assert Format(n)[..0] == "";
    }
  }

  /** A printed number reads back as itself. */
  lemma FormatParses(n: nat, max: nat)
    requires n <= max
    ensures ParseUint(Format(n), max) == Some(n) && Atoi(Format(n), max) == Some(n)
    ensures Trimmed(Format(n))
  {
    FormatValue(n);
    assert IsDigit(Format(n)[0]) && IsDigit(Format(n)[|Format(n)| - 1]);
  }

  function Zeros(k: nat): string {
    seq(k, i => '0')
  }

  lemma {:induction false} ZerosCountNothing(k: nat, s: string)
    requires AllDigits(s)
    ensures AllDigits(Zeros(k) + s) && Value(Zeros(k) + s) == Value(s)
    decreases k + |s|
  {
    var t := Zeros(k) + s;
    if s != "" {
      assert t[..|t| - 1] == Zeros(k) + s[..|s| - 1];
      ZerosCountNothing(k, s[..|s| - 1]);
    } else if k > 0 {
      assert t[..|t| - 1] == Zeros(k - 1) + s;
      ZerosCountNothing(k - 1, s);
    }
  }

  lemma {:induction false} DigitsAreANumeral(s: string) returns (k: nat)
    requires s != "" && AllDigits(s)
    ensures s == Zeros(k) + Format(Value(s))
  {
    var front, last := s[..|s| - 1], s[|s| - 1];
    var d := last as int - '0' as int;
    assert Digit(d) == last && s == front + [last];
    if front == "" {
      k := 0;
      assert Value(s) == d;
    } else {
      var j := DigitsAreANumeral(front);
      if Value(front) == 0 {
        k := j + 1;
        assert Zeros(j) + "0" == Zeros(k);
      } else {
        k := j;
        assert Zeros(j) + Format(Value(front)) + [last] == Zeros(j) + (Format(Value(front)) + [last]);
      }
    }
  }

  ghost predicate IsNumeral(s: string, n: nat) {
    exists k: nat :: s == Zeros(k) + Format(n)
  }

  /** Just the numerals up to the largest value are read, with zeros in front or not, each as its number. */
  lemma ReadsNumerals(s: string, max: nat, n: nat)
    ensures ParseUint(s, max) == Some(n) <==> n <= max && IsNumeral(s, n)
  {
    if ParseUint(s, max) == Some(n) {
      var k := DigitsAreANumeral(s);
      assert s == Zeros(k) + Format(n);
    }
    if n <= max && IsNumeral(s, n) {
      var k: nat :| s == Zeros(k) + Format(n);
      FormatValue(n);
      ZerosCountNothing(k, Format(n));
    }
  }

  lemma NumeralHasNoSign(s: string, n: nat)
    requires IsNumeral(s, n)
    ensures s != "" && IsDigit(s[0])
  {
    FormatValue(n);
  }

  ghost predicate IsSigned(s: string, sign: char, n: nat) {
    s != "" && s[0] == sign && IsNumeral(s[1..], n)
  }

  /** A sign is one character in front of a numeral, and the least value is one further from zero. */
  lemma ReadsSigned(s: string, max: nat, v: int)
    ensures Atoi(s, max) == Some(v)
            <==> || (0 <= v <= max && (IsNumeral(s, v) || IsSigned(s, '+', v)))
                 || (0 - max - 1 <= v <= 0 && IsSigned(s, '-', 0 - v))
  {
    var n: nat := if v < 0 then 0 - v else v;
    if IsNumeral(s, n) {
      NumeralHasNoSign(s, n);
    }
    ReadsNumerals(s, max, n);
    if s != "" {
      ReadsNumerals(s[1..], max, n);
      ReadsNumerals(s[1..], max + 1, n);
    }
    hide ParseUint, IsNumeral;
  }
}

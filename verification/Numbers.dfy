/** The number texts the framework reads and writes, with `real` in place of double: what strtod
    makes of a text, and the texts std::to_string and printf make of a number. */
module Numbers {

  predicate IsDigit(c: char) { '0' <= c <= '9' }

  predicate Digits(s: string) { forall k :: 0 <= k < |s| ==> IsDigit(s[k]) }

  /** The end of the run of digits at `i`. */
  function DigitsEnd(s: string, i: nat): (j: nat)
    requires i <= |s|
    ensures i <= j <= |s| && Digits(s[i..j]) && (j < |s| ==> !IsDigit(s[j]))
    decreases |s| - i
  {
    if i < |s| && IsDigit(s[i]) then
      var j := DigitsEnd(s, i + 1);
      assert s[i..j] == [s[i]] + s[i + 1..j];
      j
    else i
  }

  lemma {:induction false} DigitsEndIs(s: string, i: nat, j: nat)
    requires i <= j <= |s| && Digits(s[i..j]) && (j < |s| ==> !IsDigit(s[j]))
    ensures DigitsEnd(s, i) == j
    decreases j - i
  {
    if i < j {
      assert IsDigit(s[i..j][0]);
      assert s[i + 1..j] == s[i..j][1..];
      DigitsEndIs(s, i + 1, j);
    }
  }

  function DigitsValue(s: string): nat
    requires Digits(s)
  {
    if s == "" then 0 else DigitsValue(s[..|s| - 1]) * 10 + (s[|s| - 1] as int - '0' as int)
  }

  function Pow10(n: nat): (p: nat)
    ensures p >= 1
  {
    if n == 0 then 1 else Pow10(n - 1) * 10
  }

  function Scale(x: real, e: int): real {
    if e >= 0 then x * Pow10(e) as real else x / Pow10(-e) as real
  }

  /** The exponent at `i`, 0 when there is none. */
  function Exponent(s: string, i: nat): int
    requires i <= |s|
  {
    if i < |s| && (s[i] == 'e' || s[i] == 'E') then
      var d := if i + 1 < |s| && (s[i + 1] == '-' || s[i + 1] == '+') then i + 2 else i + 1;
      var e: int := DigitsValue(s[d..DigitsEnd(s, d)]);
      if s[d - 1] == '-' then -e else e
    else 0
  }

  /** The unsigned number at `i`; 0 when there is none. */
  function Unsigned(s: string, i: nat): real
    requires i <= |s|
  {
    var j := DigitsEnd(s, i);
    var k := if j < |s| && s[j] == '.' then DigitsEnd(s, j + 1) else j;
    var frac := if k > j then s[j + 1..k] else "";
    Scale(DigitsValue(s[i..j] + frac) as real / Pow10(|frac|) as real, Exponent(s, k))
  }

  function Strtod(s: string): real {
    if s != "" && s[0] == '-' then -Unsigned(s, 1)
    else if s != "" && s[0] == '+' then Unsigned(s, 1)
    else Unsigned(s, 0)
  }

  /** The conversion of a double to int: towards zero. */
  function Trunc(x: real): int { if x >= 0.0 then x.Floor else -(-x).Floor }

  /** A conversion keeps the sign and what stands before the point. */
  lemma TruncMeans(x: real)
    ensures x >= 0.0 ==> 0.0 <= Trunc(x) as real <= x < Trunc(x) as real + 1.0
    ensures x <= 0.0 ==> Trunc(x) as real - 1.0 < x <= Trunc(x) as real <= 0.0
  {
  }

  lemma TruncWhole(n: int)
    ensures Trunc(n as real) == n
  {
    TruncMeans(n as real);
  }

  // ----- printing

  function NatText(n: nat): (s: string)
    ensures s != "" && Digits(s)
  {
    if n < 10 then [DigitChar(n)] else NatText(n / 10) + [DigitChar(n % 10)]
  }

  function DigitChar(d: nat): (c: char)
    requires d < 10
    ensures IsDigit(c) && c as int - '0' as int == d
  {
    '0' + d as char
  }

  /** std::to_string of an int, and printf's %d. */
  function IntText(n: int): string {
    if n < 0 then "-" + NatText(-n) else NatText(n)
  }

  lemma {:induction false} NatTextValue(n: nat)
    ensures DigitsValue(NatText(n)) == n
  {
    if n >= 10 {
      NatTextValue(n / 10);
      assert NatText(n)[..|NatText(n)| - 1] == NatText(n / 10);
    }
  }

  lemma UnsignedInt(s: string, i: nat)
    requires i < |s| && Digits(s[i..])
    ensures Unsigned(s, i) == DigitsValue(s[i..]) as real
  {
    hide DigitsValue, DigitsEnd;
    assert s[i..|s|] == s[i..] && s[i..] + "" == s[i..];
    DigitsEndIs(s, i, |s|);
  }

  /** Reading an integer back. */
  lemma StrtodInt(n: int)
    ensures Strtod(IntText(n)) == n as real
  {
    hide DigitsValue, Unsigned, NatText;
    var s := IntText(n);
    var i, m := if n < 0 then 1 else 0, if n < 0 then -n else n;
    assert s[i..] == NatText(m) && IsDigit(NatText(m)[0]);
    assert s[0] == if n < 0 then '-' else NatText(m)[0];
    UnsignedInt(s, i);
    NatTextValue(m);
  }

  lemma Shift(v: nat, p: nat, n: nat)
    ensures (v * p + n / 10) * 10 + n % 10 == v * (p * 10) + n
  {
  }

  /** The last `w` digits of `n`. */
  function Padded(n: nat, w: nat): (s: string)
    ensures |s| == w && Digits(s)
  {
    if w == 0 then "" else Padded(n / 10, w - 1) + [DigitChar(n % 10)]
  }

  lemma {:induction false} PaddedValue(a: string, n: nat, w: nat)
    requires Digits(a) && n < Pow10(w)
    ensures Digits(a + Padded(n, w)) && DigitsValue(a + Padded(n, w)) == DigitsValue(a) * Pow10(w) + n
  {
    if w == 0 {
      assert a + "" == a;
    } else {
      PaddedValue(a, n / 10, w - 1);
      var s := a + Padded(n, w);
      assert s[..|s| - 1] == a + Padded(n / 10, w - 1);
      Shift(DigitsValue(a), Pow10(w - 1), n);
    }
  }

  /** The nearest multiple of 10^-5, as a count of them; of two that are as near, the even one. */
  function Rounded(x: real): int {
    var n := (x * 100000.0).Floor;
    var rest := x * 100000.0 - n as real;
    if rest < 0.5 || (rest == 0.5 && n % 2 == 0) then n else n + 1
  }

  /** printf's %.5lf. */
  function FixedText(x: real): string {
    var n := Rounded(x);
    var m := if n < 0 then -n else n;
    (if x < 0.0 then "-" else "") + NatText(m / 100000) + "." + Padded(m % 100000, 5)
  }

  /** Digits, perhaps a point and digits, and then something that does not go on with them. */
  lemma UnsignedParts(s: string, i: nat, a: string, point: bool, b: string, rest: string)
    requires i <= |s| && s[i..] == a + (if point then "." + b else "") + rest
    requires Digits(a) && Digits(b) && (point || b == "")
    requires rest != "" ==> !IsDigit(rest[0]) && rest[0] != '.'
    ensures Digits(a + b)
    ensures Unsigned(s, i) == Scale(DigitsValue(a + b) as real / Pow10(|b|) as real, Exponent(s, |s| - |rest|))
  {
    hide DigitsValue, DigitsEnd, Pow10, Unsigned, Exponent, Scale, Digits;
    var j, k := i + |a|, |s| - |rest|;
    Slices(s, i, a, point, b, rest);
    DigitsEndIs(s, i, j);
    DigitsJoin(a, b);
    if point {
      DigitsEndIs(s, j + 1, k);
    } else {
      assert a + b == a;
    }
    UnsignedAt(s, i, j, k);
  }

  lemma Slices(s: string, i: nat, a: string, point: bool, b: string, rest: string)
    requires i <= |s| && s[i..] == a + (if point then "." + b else "") + rest
    requires point || b == ""
    ensures var j, k := i + |a|, |s| - |rest|;
      && j <= k && s[i..j] == a && k == j + (if point then 1 + |b| else 0)
      && (point ==> s[j] == '.' && s[j + 1..k] == b) && (rest != "" ==> s[k] == rest[0])
  {
    var m := if point then "." + b else "";
    assert forall n :: 0 <= n < |s| - i ==> s[i + n] == (a + m + rest)[n];
    assert s[i..][..|a|] == a && s[i..][|a|..|a + m|] == m;
  }

  lemma UnsignedAt(s: string, i: nat, j: nat, k: nat)
    requires i <= j <= k <= |s| && j == DigitsEnd(s, i)
    requires if j < |s| && s[j] == '.' then j < k && k == DigitsEnd(s, j + 1) else k == j
    ensures var frac := if k > j then s[j + 1..k] else "";
      Digits(s[i..j] + frac) &&
      Unsigned(s, i) == Scale(DigitsValue(s[i..j] + frac) as real / Pow10(|frac|) as real, Exponent(s, k))
  {
    hide DigitsValue, DigitsEnd, Pow10, Exponent, Scale;
  }

  lemma DigitsJoin(a: string, b: string)
    requires Digits(a) && Digits(b)
    ensures Digits(a + b)
  {
  }

  /** Digits with or without a point among them: the digits as one number, divided by ten for each digit
      after the point. */
  lemma StrtodDecimal(neg: bool, a: string, point: bool, b: string)
    requires a != "" && Digits(a) && Digits(b) && (point || b == "")
    ensures Digits(a + b)
    ensures var x := DigitsValue(a + b) as real / Pow10(|b|) as real;
      Strtod((if neg then "-" else "") + a + (if point then "." + b else "")) == if neg then -x else x
  {
    hide DigitsValue, Pow10, Unsigned, Exponent, Scale;
    var s := (if neg then "-" else "") + a + (if point then "." + b else "");
    Signed(neg, a, if point then "." + b else "", s);
    assert s[if neg then 1 else 0..] == a + (if point then "." + b else "") + "";
    UnsignedParts(s, if neg then 1 else 0, a, point, b, "");
    NoExponent(s, DigitsValue(a + b) as real / Pow10(|b|) as real);
  }

  lemma Signed(neg: bool, a: string, rest: string, s: string)
    requires a != "" && Digits(a) && s == (if neg then "-" else "") + a + rest
    ensures s[if neg then 1 else 0..] == a + rest
    ensures Strtod(s) == if neg then -Unsigned(s, 1) else Unsigned(s, 0)
  {
    hide Unsigned;
    assert IsDigit(a[0]);
    assert s[0] == if neg then '-' else a[0];
  }

  /** The same with an exponent: times a power of ten, or divided by it when the exponent is negative. */
  lemma StrtodScientific(neg: bool, a: string, point: bool, b: string, e: char, sign: string, d: string)
    requires a != "" && Digits(a) && Digits(b) && (point || b == "") && d != "" && Digits(d)
    requires (e == 'e' || e == 'E') && (sign == "" || sign == "+" || sign == "-")
    ensures Digits(a + b)
    ensures var x, p := DigitsValue(a + b) as real / Pow10(|b|) as real, Pow10(DigitsValue(d)) as real;
      var y := if sign == "-" then x / p else x * p;
      Strtod((if neg then "-" else "") + a + (if point then "." + b else "") + [e] + sign + d) == if neg then -y else y
  {
    hide DigitsValue, Pow10, Unsigned, Exponent, Scale, Strtod, Digits;
    var s := (if neg then "-" else "") + a + (if point then "." + b else "") + [e] + sign + d;
    var x := ScientificScale(neg, a, point, b, e, sign, d, s);
    ScaleBy(x, sign == "-", DigitsValue(d));
  }

  lemma ScientificScale(neg: bool, a: string, point: bool, b: string, e: char, sign: string, d: string, s: string)
    returns (x: real)
    requires a != "" && Digits(a) && Digits(b) && (point || b == "") && d != "" && Digits(d)
    requires (e == 'e' || e == 'E') && (sign == "" || sign == "+" || sign == "-")
    requires s == (if neg then "-" else "") + a + (if point then "." + b else "") + [e] + sign + d
    ensures Digits(a + b) && x == DigitsValue(a + b) as real / Pow10(|b|) as real
    ensures var y := Scale(x, if sign == "-" then 0 - DigitsValue(d) else DigitsValue(d));
      Strtod(s) == if neg then -y else y
  {
    hide DigitsValue, Pow10, Unsigned, Exponent, Scale, Strtod, Digits;
    var exp := [e] + sign + d;
    Regrouped(if neg then "-" else "", a, if point then "." + b else "", [e], sign, d);
    StrtodExponent(neg, a, point, b, exp, s);
    ExponentIs(s, |s| - |exp|, e, sign, d);
    x := DigitsValue(a + b) as real / Pow10(|b|) as real;
  }

  lemma Regrouped(minus: string, a: string, m: string, e: string, sign: string, d: string)
    ensures minus + a + m + e + sign + d == minus + a + (m + (e + sign + d))
    ensures var s := minus + a + m + e + sign + d; s[|s| - |e + sign + d|..] == e + sign + d
  {
  }

  lemma StrtodExponent(neg: bool, a: string, point: bool, b: string, exp: string, s: string)
    requires a != "" && Digits(a) && Digits(b) && (point || b == "")
    requires exp != "" && !IsDigit(exp[0]) && exp[0] != '.'
    requires s == (if neg then "-" else "") + a + ((if point then "." + b else "") + exp)
    ensures Digits(a + b)
    ensures var y := Scale(DigitsValue(a + b) as real / Pow10(|b|) as real, Exponent(s, |s| - |exp|));
      Strtod(s) == if neg then -y else y
  {
    hide DigitsValue, Pow10, Unsigned, Exponent, Scale, Strtod, Digits;
    var m := if point then "." + b else "";
    Signed(neg, a, m + exp, s);
    assert s[if neg then 1 else 0..] == a + m + exp;
    UnsignedParts(s, if neg then 1 else 0, a, point, b, exp);
  }

  lemma ExponentIs(s: string, k: nat, e: char, sign: string, d: string)
    requires k <= |s| && s[k..] == [e] + sign + d && d != "" && Digits(d)
    requires (e == 'e' || e == 'E') && (sign == "" || sign == "+" || sign == "-")
    ensures Exponent(s, k) == if sign == "-" then 0 - DigitsValue(d) else DigitsValue(d)
  {
    hide DigitsValue, DigitsEnd;
    assert forall n :: 0 <= n < |s| - k ==> s[k + n] == ([e] + sign + d)[n];
    var at := k + 1 + |sign|;
    assert s[at..|s|] == d && IsDigit(d[0]) && s[at] == d[0];
    assert s[k] == e && (sign != "" ==> s[k + 1] == sign[0]);
    DigitsEndIs(s, at, |s|);
  }

  lemma ScaleBy(x: real, minus: bool, n: nat)
    ensures Scale(x, if minus then 0 - n else n) == if minus then x / Pow10(n) as real else x * Pow10(n) as real
  {
    hide Pow10;
    assert Pow10(0) == 1 by { PowZero(); }
  }

  lemma PowZero()
    ensures Pow10(0) == 1
  {
  }

  lemma NoExponent(s: string, x: real)
    ensures Scale(x, Exponent(s, |s|)) == x
  {
  }

  /** Reading a printed number back gives it rounded to five decimals. */
  lemma StrtodFixed(x: real)
    ensures Strtod(FixedText(x)) == Rounded(x) as real / 100000.0
    ensures -0.000005 <= Strtod(FixedText(x)) - x <= 0.000005
  {
    hide DigitsValue, Unsigned, Rounded, NatText, Padded;
    RoundedClose(x);
    var m := if Rounded(x) < 0 then -Rounded(x) else Rounded(x);
    var a, b := NatText(m / 100000), Padded(m % 100000, 5);
    var s := FixedText(x);
    assert s == (if x < 0.0 then "-" else "") + a + ("." + b);
    StrtodDecimal(x < 0.0, a, true, b);
    assert Pow10(5) == 100000 by { assert Pow10(3) == 1000; }
    PaddedValue(a, m % 100000, 5);
    NatTextValue(m / 100000);
    assert DigitsValue(a + b) == m;
  }

  lemma RoundedClose(x: real)
    ensures x < 0.0 ==> Rounded(x) <= 0
    ensures x >= 0.0 ==> Rounded(x) >= 0
    ensures -0.000005 <= Rounded(x) as real / 100000.0 - x <= 0.000005
    ensures x * 100000.0 - (x * 100000.0).Floor as real == 0.5 ==> Rounded(x) % 2 == 0
  {
  }

  /** What the general statements come to for some texts. */
  lemma Samples()
    ensures Strtod("1e3") == 1000.0 && Strtod("-2.50E-1") == -0.25 && Strtod("0.125") == 0.125
    ensures IntText(4560) == "4560" && IntText(-907) == "-907"
  {
    SampleThousand();
    SampleQuarter();
    SampleEighth();
    SampleTexts();
  }

  lemma SampleThousand()
    ensures Strtod("1e3") == 1000.0
  {
    hide Strtod;
    StrtodScientific(false, "1", false, "", 'e', "", "3");
    assert "" + "1" + "" + ['e'] + "" + "3" == "1e3" && "1" + "" == "1";
    assert DigitsValue("1") == 1 && DigitsValue("3") == 3 && Pow10(0) == 1 && Pow10(3) == 1000;
  }

  lemma SampleQuarter()
    ensures Strtod("-2.50E-1") == -0.25
  {
    hide Strtod;
    StrtodScientific(true, "2", true, "50", 'E', "-", "1");
    assert "-" + "2" + ("." + "50") + ['E'] + "-" + "1" == "-2.50E-1" && "2" + "50" == "250";
    assert "250"[..2] == "25" && "25"[..1] == "2" && DigitsValue("25") == 25;
    assert DigitsValue("250") == 250 && DigitsValue("1") == 1 && Pow10(1) == 10 && Pow10(2) == 100;
  }

  lemma SampleEighth()
    ensures Strtod("0.125") == 0.125
  {
    hide Strtod;
    StrtodDecimal(false, "0", true, "125");
    assert "" + "0" + ("." + "125") == "0.125" && "0" + "125" == "0125";
    assert "0125"[..3] == "012" && "012"[..2] == "01" && "01"[..1] == "0";
    assert DigitsValue("0") == 0 && DigitsValue("01") == 1 && DigitsValue("012") == 12;
    assert DigitsValue("0125") == 125 && Pow10(3) == 1000;
  }

  lemma SampleTexts()
    ensures IntText(4560) == "4560" && IntText(-907) == "-907"
  {
    assert NatText(4) == "4" && NatText(45) == "45" && NatText(456) == "456" && NatText(4560) == "4560";
    assert NatText(9) == "9" && NatText(90) == "90" && NatText(907) == "907";
  }
}

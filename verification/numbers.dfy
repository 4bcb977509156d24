/** `parseFloat(s) || 0` over exact reals: the longest prefix of `s` (after
    leading whitespace) that reads as an optionally signed decimal literal
    with an optional fraction and exponent; a string with no such prefix
    gives 0. */
module Numbers {
  import opened Text
  import opened Wrappers

  predicate AllDigits(s: String) {
    forall i :: 0 <= i < |s| ==> IsDigit(s[i])
  }

  /** The value of a decimal digit (0 for any other character, which the
      parser never asks for). */
  function DigitValue(c: char): nat {
    if IsDigit(c) then c as int - '0' as int else 0
  }

  /** Length of the run of digits at the start of `s`. */
  function DigitRun(s: String): (n: nat)
    ensures n <= |s|
  {
    if |s| > 0 && IsDigit(s[0]) then 1 + DigitRun(s[1..]) else 0
  }

  /** The run is all digits, and no digit follows it. */
  lemma {:induction false} DigitRunShape(s: String)
    ensures AllDigits(s[..DigitRun(s)])
    ensures DigitRun(s) == |s| || !IsDigit(s[DigitRun(s)])
  {
    if |s| > 0 && IsDigit(s[0]) {
      DigitRunShape(s[1..]);
      assert s[..DigitRun(s)] == [s[0]] + s[1..][..DigitRun(s[1..])];
    }
  }

  /** The value of a string of decimal digits, most significant first. */
  function NatValue(ds: String): nat {
    if |ds| == 0 then 0 else 10 * NatValue(ds[..|ds| - 1]) + DigitValue(ds[|ds| - 1])
  }

  function Pow10(n: nat): (r: nat)
    ensures r >= 1
  {
    if n == 0 then 1 else 10 * Pow10(n - 1)
  }

  /** `m` times ten to the power `e`. */
  function Scale(m: real, e: int): real {
    if e >= 0 then m * Pow10(e) as real else m / Pow10(-e) as real
  }

  /** The exponent of an `e`/`E` part at the start of `s`, or 0 when `s`
      does not start with a complete one (then it is not consumed). */
  function ExponentOf(s: String): int {
    if |s| >= 2 && (s[0] == 'e' || s[0] == 'E') then
      var t := if s[1] == '+' || s[1] == '-' then s[2..] else s[1..];
      var k := DigitRun(t);
      var v: int := NatValue(t[..k]);
      if k == 0 then 0 else if s[1] == '-' then -v else v
    else 0
  }

  /** An unsigned decimal literal prefix: digits, an optional `.` and digits
      (at least one digit in all), then an optional exponent. */
  function ParseUnsigned(s: String): Option<real> {
    var n := DigitRun(s);
    if n < |s| && s[n] == '.' then
      var after := s[n + 1..];
      var m := DigitRun(after);
      if n == 0 && m == 0 then None
      else Some(Scale(PointValue(s[..n], after[..m]), ExponentOf(after[m..])))
    else if n == 0 then None
    else Some(Scale(NatValue(s[..n]) as real, ExponentOf(s[n..])))
  }

  /** The value of the digits `whole`, a point and the digits `frac`. */
  function PointValue(whole: String, frac: String): real {
    NatValue(whole) as real + NatValue(frac) as real / Pow10(|frac|) as real
  }

  /** `parseFloat(s)`, with `None` for NaN. */
  function ParseFloat(s: String): Option<real> {
    var t := TrimStart(s);
    if |t| > 0 && t[0] == '-' then
      match ParseUnsigned(t[1..])
      case Some(v) => Some(-v)
      case None => None
    else if |t| > 0 && t[0] == '+' then ParseUnsigned(t[1..])
    else ParseUnsigned(t)
  }

  /** `parseFloat(s) || 0`: NaN (and negative zero) become 0. */
  function NumberOrZero(s: String): real {
    ParseFloat(s).GetOr(0.0)
  }

  lemma {:induction false} DigitRunIs(s: String, n: nat)
    requires n <= |s| && AllDigits(s[..n]) && (n == |s| || !IsDigit(s[n]))
    ensures DigitRun(s) == n
  {
    if n > 0 {
      assert IsDigit(s[..n][0]);
      assert s[1..][..n - 1] == s[1..n];
      DigitRunIs(s[1..], n - 1);
    }
  }

  /** A string of whitespace reads as no number at all, so as 0. */
  lemma {:induction false} BlankIsZero(s: String)
    requires forall i :: 0 <= i < |s| ==> IsWhitespace(s[i])
    ensures ParseFloat(s) == None && NumberOrZero(s) == 0.0
  {
    assert TrimStart(s) == "";
  }

  /** A plain decimal `a.b` (digits, a point, digits) reads as its value,
      whatever follows it provided it cannot continue the literal. */
  lemma {:induction false} DecimalValue(a: String, b: String, rest: String)
    requires |a| > 0 && AllDigits(a) && AllDigits(b)
    requires rest == [] || (!IsDigit(rest[0]) && rest[0] != 'e' && rest[0] != 'E')
    ensures NumberOrZero(a + "." + b + rest) == NatValue(a) as real + NatValue(b) as real / Pow10(|b|) as real
  {
    var s := a + "." + b + rest;
    assert ParseUnsigned(s) == Some(Scale(PointValue(a, b), 0)) by {
      DecimalPieces(a, b, rest);
      DigitRunIs(s, |a|);
      DigitRunIs(s[|a| + 1..], |b|);
      assert ExponentOf(rest) == 0;
      PointParse(s, |a|, |b|);
    }
    assert IsDigit(s[0]) by {
      DecimalPieces(a, b, rest);
    }
    UnsignedStart(s);
    ScaleZero(PointValue(a, b));
  }

  /** Digits, a point and digits read as the point value of the two runs,
      scaled by whatever exponent follows. */
  lemma PointParse(s: String, n: nat, m: nat)
    requires 0 < n < |s| && DigitRun(s) == n && s[n] == '.' && DigitRun(s[n + 1..]) == m
    ensures ParseUnsigned(s) == Some(Scale(PointValue(s[..n], s[n + 1..][..m]), ExponentOf(s[n + 1..][m..])))
  {
    var after := s[n + 1..];
    var v := Scale(PointValue(s[..n], after[..m]), ExponentOf(after[m..]));
    assert !(n == 0 && m == 0);
    assert ParseUnsigned(s) == Some(v);
  }

  /** Where the pieces of `a.b` followed by `rest` sit. */
  lemma DecimalPieces(a: String, b: String, rest: String)
    requires |a| > 0 && AllDigits(a) && AllDigits(b)
    requires rest == [] || (!IsDigit(rest[0]) && rest[0] != 'e' && rest[0] != 'E')
    ensures var s := a + "." + b + rest;
      IsDigit(s[0]) && |a| < |s| && s[|a|] == '.' &&
      s[..|a|] == a && AllDigits(s[..|a|]) && !IsDigit(s[|a|]) &&
      s[|a| + 1..][..|b|] == b && s[|a| + 1..][|b|..] == rest &&
      AllDigits(s[|a| + 1..][..|b|]) &&
      (|b| == |s[|a| + 1..]| || !IsDigit(s[|a| + 1..][|b|]))
  {
    var s := a + "." + b + rest;
    assert s[0] == a[0];
    assert s[..|a|] == a;
    var t := s[|a| + 1..];
    assert t == b + rest;
    assert t[..|b|] == b;
    assert t[|b|..] == rest;
  }

  /** Text that starts with a digit has nothing to trim in front and no
      sign: it reads as an unsigned literal. */
  lemma UnsignedStart(s: String)
    requires |s| > 0 && IsDigit(s[0])
    ensures ParseFloat(s) == ParseUnsigned(s)
  {
    assert !IsWhitespace(s[0]);
    assert TrimStart(s) == s;
  }

  /** Scaling by ten to the zero leaves a value alone. */
  lemma ScaleZero(x: real)
    ensures Scale(x, 0) == x
  {
  }

  /** A plain run of digits reads as its value. */
  lemma {:induction false} IntegerValue(a: String)
    requires |a| > 0 && AllDigits(a)
    ensures NumberOrZero(a) == NatValue(a) as real
  {
    assert ParseUnsigned(a) == Some(Scale(NatValue(a) as real, 0)) by {
      assert a[..|a|] == a;
      DigitRunIs(a, |a|);
      assert a[|a|..] == [];
      assert ExponentOf([]) == 0;
    }
    assert IsDigit(a[0]);
    UnsignedStart(a);
    ScaleZero(NatValue(a) as real);
  }

  /** Digits, a comma and digits are not blank and have nothing to trim. */
  lemma CommaTextNotBlank(a: String, b: String)
    requires |a| > 0 && AllDigits(a) && AllDigits(b)
    ensures Trim(a + "," + b) == a + "," + b != ""
  {
    var s := a + "," + b;
    assert !IsWhitespace(s[0]) by { assert s[0] == a[0]; }
    assert !IsWhitespace(s[|s| - 1]) by {
      if |b| > 0 {
        assert s[|s| - 1] == b[|b| - 1];
      }
    }
  }

  /** A comma between two digit strings read as the decimal point. */
  lemma {:induction false} CommaAsPoint(a: String, b: String)
    requires |a| > 0 && AllDigits(a) && AllDigits(b)
    ensures NumberOrZero(ReplaceFirst(a + "," + b, ',', '.')) == NatValue(a) as real + NatValue(b) as real / Pow10(|b|) as real
  {
    var s := a + "," + b;
    assert ',' !in a by {
      forall i | 0 <= i < |a| ensures a[i] != ',' { assert IsDigit(a[i]); }
    }
    assert ',' !in b by {
      forall i | 0 <= i < |b| ensures b[i] != ',' { assert IsDigit(b[i]); }
    }
    var r := ReplaceFirst(s, ',', '.');
    ReplaceFirstAt(s, ',', '.');
    forall i | 0 <= i < |s| ensures r[i] == (a + "." + b)[i] {
      if i < |a| {
        assert s[i] == a[i];
      } else if i > |a| {
        assert s[..i][|a|] == ',';
        assert s[i] == b[i - |a| - 1];
      }
    }
    assert r == a + "." + b;
    DecimalValue(a, b, "");
    assert a + "." + b + "" == a + "." + b;
  }
}

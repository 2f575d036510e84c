/** The numerals that appear in the CSV files: what `std::ostream << double` / `<< int` / `<< bool`
    print, and what `std::stod` reads back.  A numeral is kept at the level of its text (sign, run
    of whole digits, run of fraction digits, optional exponent), so that the codec can be reasoned
    about without floating point: `Value` gives the real number a numeral denotes and `Truncate`
    the `(int)` cast applied to it. */
module Numerals {
  import opened Wrappers

  predicate IsDigitChar(c: char) { '0' <= c <= '9' }

  predicate AllDigits(s: seq<char>) { forall i :: 0 <= i < |s| ==> IsDigitChar(s[i]) }

  function DigitValue(c: char): nat
  {
    if IsDigitChar(c) then c as int - '0' as int else 0
  }

  /** Big-endian value of a run of digit characters. */
  function DigitsValue(s: seq<char>): nat
  {
    if s == [] then 0 else 10 * DigitsValue(s[..|s| - 1]) + DigitValue(s[|s| - 1])
  }

  function DigitChar(d: nat): (c: char)
    requires d < 10
    ensures IsDigitChar(c) && DigitValue(c) == d
  {
    ('0' as int + d) as char
  }

  /** The decimal text `<<` prints for a natural number: its shortest digit string. */
  function NatText(n: nat): (s: seq<char>)
    ensures |s| >= 1 && AllDigits(s) && DigitsValue(s) == n
    ensures |s| > 1 ==> s[0] != '0'
    decreases n
  {
    if n < 10 then [DigitChar(n)]
    else
      var s := NatText(n / 10) + [DigitChar(n % 10)];
      assert s[..|s| - 1] == NatText(n / 10);
      s
  }

  /** Distinct natural numbers print differently. */
  lemma NatTextInjective(m: nat, n: nat)
    requires NatText(m) == NatText(n)
    ensures m == n
  {
  }

  // ---------------------------------------------------------------------------------------------
  // Numerals

  datatype Exponent = NoExponent | Exponent(negative: bool, digits: seq<char>)

  /** A numeral as printed: `-`?, whole digits, `.` and fraction digits when there is a fraction,
      `e`, a sign and exponent digits when there is an exponent (as in `1.5e-05`). */
  datatype Decimal = Decimal(negative: bool, whole: seq<char>, fraction: seq<char>, exponent: Exponent)

  /** The numerals `std::ostream` produces: digit runs, at least one whole digit, and at least one
      exponent digit when an exponent is present. */
  predicate WellFormed(d: Decimal)
  {
    && |d.whole| > 0 && AllDigits(d.whole) && AllDigits(d.fraction)
    && (d.exponent.Exponent? ==> |d.exponent.digits| > 0 && AllDigits(d.exponent.digits))
  }

  function SignText(negative: bool): seq<char> { if negative then "-" else "" }

  function FractionText(fraction: seq<char>): seq<char>
  {
    if fraction == [] then "" else "." + fraction
  }

  function ExponentText(e: Exponent): seq<char>
  {
    match e
    case NoExponent => ""
    case Exponent(negative, ds) => "e" + (if negative then "-" else "+") + ds
  }

  /** The text `<<` writes for a numeral. */
  function Format(d: Decimal): seq<char>
  {
    SignText(d.negative) + d.whole + FractionText(d.fraction) + ExponentText(d.exponent)
  }

  /** A printed numeral never contains the cell or line delimiter, and starts with a digit exactly
      when it is not negative. */
  lemma FormatShape(d: Decimal)
    requires WellFormed(d)
    ensures |Format(d)| > 0 && (IsDigitChar(Format(d)[0]) <==> !d.negative)
    ensures ',' !in Format(d) && '\n' !in Format(d)
  {
    var s := Format(d);
    var e := ExponentText(d.exponent);
    assert forall i :: 0 <= i < |e| ==> e[i] == 'e' || e[i] == '-' || e[i] == '+' || IsDigitChar(e[i]);
    var f := FractionText(d.fraction);
    assert forall i :: 0 <= i < |f| ==> f[i] == '.' || IsDigitChar(f[i]);
    assert s == SignText(d.negative) + d.whole + f + e;
    assert forall i :: 0 <= i < |s| ==> s[i] != ',' && s[i] != '\n';
  }

  // ---------------------------------------------------------------------------------------------
  // std::stod: the longest numeric prefix, after leading white space

  predicate IsSpace(c: char)
  {
    c == ' ' || c == '\t' || c == '\n' || c == '\r' || c as int == 11 || c as int == 12
  }

  predicate IsSign(c: char) { c == '-' || c == '+' }

  function SpaceRun(s: seq<char>): (n: nat)
    ensures n <= |s|
    ensures n < |s| ==> !IsSpace(s[n])
  {
    if s == [] || !IsSpace(s[0]) then 0 else 1 + SpaceRun(s[1..])
  }

  /** The longest run of digits at the front of s, and what follows it. */
  function SplitDigits(s: seq<char>): (r: (seq<char>, seq<char>))
    ensures r.0 + r.1 == s && AllDigits(r.0)
    ensures r.1 == [] || !IsDigitChar(r.1[0])
  {
    if s == [] || !IsDigitChar(s[0]) then ([], s)
    else
      var (ds, rest) := SplitDigits(s[1..]);
      ([s[0]] + ds, rest)
  }

  /** The exponent part `(e|E)(+|-)?digits+` at the front of s and its length; an `e` that is not
      followed by digits is not part of the numeral. */
  function ScanExponent(s: seq<char>): (r: (Exponent, nat))
    ensures r.1 <= |s|
  {
    if |s| > 0 && (s[0] == 'e' || s[0] == 'E') then
      var signed := |s| > 1 && IsSign(s[1]);
      var ds := SplitDigits(if signed then s[2..] else s[1..]).0;
      if ds != [] then (Exponent(signed && s[1] == '-', ds), (if signed then 2 else 1) + |ds|)
      else (NoExponent, 0)
    else (NoExponent, 0)
  }

  /** The unsigned numeral at the front of u (digits, optional `.` and digits, optional exponent)
      and its length; None when u starts with neither a digit nor `.` and a digit. */
  function ScanUnsigned(u: seq<char>): (r: Option<(Decimal, nat)>)
    ensures r.Some? ==> !r.value.0.negative && 0 < r.value.1 <= |u|
  {
    var (whole, v) := SplitDigits(u);
    var dot := |v| > 0 && v[0] == '.';
    var (fraction, x) := if dot then SplitDigits(v[1..]) else ([], v);
    if whole == [] && fraction == [] then None
    else
      var (e, k) := ScanExponent(x);
      Some((Decimal(false, whole, fraction, e), |u| - |x| + k))
  }

  /** `std::stod(s, &processed)`: the numeral at the front of s, after leading white space and an
      optional sign, and the number of characters consumed; None when there is no number (stod
      throws `std::invalid_argument`). Hexadecimal, `inf` and `nan` forms are not modelled. */
  function ScanNumber(s: seq<char>): (r: Option<(Decimal, nat)>)
    ensures r.Some? ==> 0 < r.value.1 <= |s|
  {
    var i := SpaceRun(s);
    var t := s[i..];
    var signed := |t| > 0 && IsSign(t[0]);
    match ScanUnsigned(if signed then t[1..] else t)
    case None => None
    case Some((d, n)) =>
      Some((d.(negative := signed && t[0] == '-'), i + (if signed then 1 else 0) + n))
  }

  /** A run of digits is split off whole when no further digit follows it. */
  lemma {:induction false} SplitDigitsOf(ds: seq<char>, t: seq<char>)
    requires AllDigits(ds)
    requires t == [] || !IsDigitChar(t[0])
    ensures SplitDigits(ds + t) == (ds, t)
  {
    if ds != [] {
      SplitDigitsOf(ds[1..], t);
      assert (ds + t)[1..] == ds[1..] + t;
      assert ds == [ds[0]] + ds[1..];
    } else {
      assert ds + t == t;
    }
  }

  /** Whether u starts an unsigned numeral: a digit, or a `.` followed by a digit. */
  predicate StartsNumeral(u: seq<char>)
  {
    |u| > 0 && (IsDigitChar(u[0]) || (u[0] == '.' && |u| > 1 && IsDigitChar(u[1])))
  }

  /** stod throws exactly when, after the white space and an optional sign, neither a digit nor
      a `.` and a digit follows: an empty text, `EOF`, a letter or a lone sign holds no number. */
  lemma NoNumeral(s: seq<char>)
    ensures var t := s[SpaceRun(s)..];
            var u := if |t| > 0 && IsSign(t[0]) then t[1..] else t;
            ScanNumber(s) == None <==> !StartsNumeral(u)
  {
    var t := s[SpaceRun(s)..];
    var u := if |t| > 0 && IsSign(t[0]) then t[1..] else t;
    var (whole, v) := SplitDigits(u);
    if |u| > 0 && IsDigitChar(u[0]) {
      assert SplitDigits(u).0 == [u[0]] + SplitDigits(u[1..]).0;
    } else {
      assert whole == [] && v == u;
      if |u| > 1 && u[0] == '.' && IsDigitChar(u[1]) {
        assert SplitDigits(u[1..]).0 == [u[1]] + SplitDigits(u[2..]).0;
      }
    }
  }

  /** What stod reads is made of digit runs, with at least one digit before the exponent. */
  lemma ScanNumberDigits(s: seq<char>)
    requires ScanNumber(s).Some?
    ensures var d := ScanNumber(s).value.0;
      && AllDigits(d.whole) && AllDigits(d.fraction) && |d.whole| + |d.fraction| > 0
      && (d.exponent.Exponent? ==> |d.exponent.digits| > 0 && AllDigits(d.exponent.digits))
  {
  }

  lemma ScanExponentOfText(e: Exponent, rest: seq<char>)
    requires e.Exponent? ==> |e.digits| > 0 && AllDigits(e.digits)
    requires rest == [] || rest[0] == ','
    ensures ScanExponent(ExponentText(e) + rest) == (e, |ExponentText(e)|)
  {
    match e
    case NoExponent =>
    case Exponent(negative, ds) =>
      var sign := if negative then '-' else '+';
      var s := ExponentText(e) + rest;
      assert s == ['e', sign] + (ds + rest);
      assert s[2..] == ds + rest;
      SplitDigitsOf(ds, rest);
  }

  /** What may follow the digits of a numeral: no digit and no decimal point. */
  predicate EndsDigits(x: seq<char>)
  {
    x == [] || (!IsDigitChar(x[0]) && x[0] != '.')
  }

  lemma ScanUnsignedWhole(whole: seq<char>, x: seq<char>)
    requires |whole| > 0 && AllDigits(whole) && EndsDigits(x)
    ensures ScanUnsigned(whole + x)
         == Some((Decimal(false, whole, [], ScanExponent(x).0), |whole| + ScanExponent(x).1))
  {
    SplitDigitsOf(whole, x);
  }

  lemma ScanUnsignedFraction(whole: seq<char>, fraction: seq<char>, x: seq<char>)
    requires |whole| > 0 && AllDigits(whole) && |fraction| > 0 && AllDigits(fraction) && EndsDigits(x)
    ensures ScanUnsigned(whole + (['.'] + (fraction + x)))
         == Some((Decimal(false, whole, fraction, ScanExponent(x).0), |whole| + 1 + |fraction| + ScanExponent(x).1))
  {
    var v := ['.'] + (fraction + x);
    SplitDigitsOf(whole, v);
    assert v[1..] == fraction + x;
    SplitDigitsOf(fraction, x);
  }

  lemma ExponentEndsDigits(e: Exponent, rest: seq<char>)
    requires rest == [] || rest[0] == ','
    ensures EndsDigits(ExponentText(e) + rest)
  {
    if e.Exponent? {
      assert (ExponentText(e) + rest)[0] == 'e';
    } else {
      assert ExponentText(e) + rest == rest;
    }
  }

  lemma ScanUnsignedTextWhole(whole: seq<char>, e: Exponent, rest: seq<char>)
    requires |whole| > 0 && AllDigits(whole)
    requires e.Exponent? ==> |e.digits| > 0 && AllDigits(e.digits)
    requires rest == [] || rest[0] == ','
    ensures ScanUnsigned(whole + (ExponentText(e) + rest))
         == Some((Decimal(false, whole, [], e), |whole| + |ExponentText(e)|))
  {
    ExponentEndsDigits(e, rest);
    ScanExponentOfText(e, rest);
    ScanUnsignedWhole(whole, ExponentText(e) + rest);
  }

  lemma ScanUnsignedTextFraction(whole: seq<char>, fraction: seq<char>, e: Exponent, rest: seq<char>)
    requires |whole| > 0 && AllDigits(whole) && |fraction| > 0 && AllDigits(fraction)
    requires e.Exponent? ==> |e.digits| > 0 && AllDigits(e.digits)
    requires rest == [] || rest[0] == ','
    ensures ScanUnsigned(whole + (['.'] + (fraction + (ExponentText(e) + rest))))
         == Some((Decimal(false, whole, fraction, e), |whole| + 1 + |fraction| + |ExponentText(e)|))
  {
    ExponentEndsDigits(e, rest);
    ScanExponentOfText(e, rest);
    ScanUnsignedFraction(whole, fraction, ExponentText(e) + rest);
  }

  /** stod on a numeral without leading white space, with or without a minus sign. */
  lemma ScanNumberOfUnsigned(u: seq<char>, negative: bool, d: Decimal, n: nat)
    requires |u| > 0 && IsDigitChar(u[0])
    requires ScanUnsigned(u) == Some((d, n))
    ensures ScanNumber(SignText(negative) + u) == Some((d.(negative := negative), n + |SignText(negative)|))
  {
    if negative {
      ScanNumberNegative(u, d, n);
    } else {
      ScanNumberPositive(u, d, n);
      assert SignText(negative) + u == u;
    }
  }

  lemma ScanNumberPositive(u: seq<char>, d: Decimal, n: nat)
    requires |u| > 0 && IsDigitChar(u[0])
    requires ScanUnsigned(u) == Some((d, n))
    ensures ScanNumber(u) == Some((d, n))
  {
    assert u[0..] == u;
  }

  lemma ScanNumberNegative(u: seq<char>, d: Decimal, n: nat)
    requires |u| > 0 && IsDigitChar(u[0])
    requires ScanUnsigned(u) == Some((d, n))
    ensures ScanNumber(['-'] + u) == Some((d.(negative := true), n + 1))
  {
    assert (['-'] + u)[0..] == ['-'] + u && (['-'] + u)[1..] == u;
  }

  /** The unsigned text of a printed numeral followed by `rest`, nested the way `ScanUnsigned`
      takes it apart. */
  function UnsignedThen(d: Decimal, rest: seq<char>): seq<char>
  {
    var x := ExponentText(d.exponent) + rest;
    if d.fraction == [] then d.whole + x else d.whole + (['.'] + (d.fraction + x))
  }

  lemma FormatThen(d: Decimal, rest: seq<char>)
    ensures Format(d) + rest == SignText(d.negative) + UnsignedThen(d, rest)
    ensures |UnsignedThen(d, rest)| == |Format(d)| + |rest| - |SignText(d.negative)|
  {
  }

  lemma ScanUnsignedThen(d: Decimal, rest: seq<char>)
    requires WellFormed(d)
    requires rest == [] || rest[0] == ','
    ensures |UnsignedThen(d, rest)| > 0 && IsDigitChar(UnsignedThen(d, rest)[0])
    ensures ScanUnsigned(UnsignedThen(d, rest))
         == Some((d.(negative := false), |UnsignedThen(d, rest)| - |rest|))
  {
    var u := UnsignedThen(d, rest);
    if d.fraction == [] {
      assert u == d.whole + (ExponentText(d.exponent) + rest);
      ScanUnsignedTextWhole(d.whole, d.exponent, rest);
    } else {
      assert u == d.whole + (['.'] + (d.fraction + (ExponentText(d.exponent) + rest)));
      ScanUnsignedTextFraction(d.whole, d.fraction, d.exponent, rest);
    }
  }

  /** Reading back what `<<` wrote: stod consumes exactly the numeral's text when it is followed by
      a cell delimiter or the end of the line, and yields the same numeral. */
  lemma ScanFormat(d: Decimal, rest: seq<char>)
    requires WellFormed(d)
    requires rest == [] || rest[0] == ','
    ensures ScanNumber(Format(d) + rest) == Some((d, |Format(d)|))
  {
    var u := UnsignedThen(d, rest);
    ScanUnsignedThen(d, rest);
    ScanNumberOfUnsigned(u, d.negative, d.(negative := false), |u| - |rest|);
    FormatThen(d, rest);
  }

  // ---------------------------------------------------------------------------------------------
  // Values

  function Pow10(n: nat): (p: nat)
    ensures p >= 1
  {
    if n == 0 then 1 else 10 * Pow10(n - 1)
  }

  function Magnitude(d: Decimal): real
  {
    DigitsValue(d.whole) as real + DigitsValue(d.fraction) as real / Pow10(|d.fraction|) as real
  }

  function Scale(e: Exponent): real
  {
    match e
    case NoExponent => 1.0
    case Exponent(negative, ds) =>
      if negative then 1.0 / Pow10(DigitsValue(ds)) as real else Pow10(DigitsValue(ds)) as real
  }

  /** The real number a numeral denotes (`std::stod` without rounding). It is reached through
      `ValueAt`, a recursion that changes nothing, so that the verifier does not unpack the real
      arithmetic wherever a value is mentioned; `ValueIs` unpacks it. */
  function Value(d: Decimal): real
  {
    ValueAt(d, |d.whole| + 1)
  }

  function ValueAt(d: Decimal, bound: nat): real
    decreases bound
  {
    if bound == 0 then (if d.negative then -1.0 else 1.0) * Magnitude(d) * Scale(d.exponent)
    else ValueAt(d, bound - 1)
  }

  lemma {:induction false} ValueIs(d: Decimal, bound: nat)
    ensures ValueAt(d, bound) == ValueAt(d, 0)
    decreases bound
  {
    if bound > 0 {
      ValueIs(d, bound - 1);
    }
  }

  /** The C++ conversion of a floating value to `int`: truncation toward zero. */
  function TruncateReal(v: real): (i: int)
    ensures v >= 0.0 ==> i as real <= v < i as real + 1.0
    ensures v < 0.0 ==> i as real - 1.0 < v <= i as real
  {
    if v >= 0.0 then v.Floor else -((-v).Floor)
  }

  /** `(int) stod(cell)`, as `ID_To_Part` and the instance-id assignments do. */
  function Truncate(d: Decimal): int
  {
    TruncateReal(Value(d))
  }

  /** What `<<` prints for an `int`; reading it back and truncating gives the integer again. */
  function FromInt(i: int): (d: Decimal)
    ensures WellFormed(d) && d.fraction == [] && d.exponent == NoExponent
    ensures Value(d) == i as real && Truncate(d) == i
  {
    var d := Decimal(i < 0, NatText(if i < 0 then -i else i), [], NoExponent);
    ValueIs(d, |d.whole| + 1);
    d
  }

  /** What `<<` prints for a `bool` (no `boolalpha`): `1` or `0`; converting the parsed number back
      to `bool` recovers the flag. */
  function FromBool(b: bool): (d: Decimal)
    ensures WellFormed(d) && !d.negative
    ensures (Value(d) != 0.0) == b
  {
    FromInt(if b then 1 else 0)
  }
}

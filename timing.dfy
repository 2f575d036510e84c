/** Simulated time and the two ways it is printed. A `double` time in seconds is modelled as a whole
    number of microseconds. `%.3f` (file names) rounds it to milliseconds; `<<` (the time cell of a
    save file) prints it as a numeral with six fraction digits. */
module Timing {
  import opened Numerals

  /** One second, in microseconds. */
  const Second: int := 1000000

  function Abs(t: int): nat
  {
    if t < 0 then -t else t
  }

  /** One more digit at the end multiplies the value by ten and adds the digit. */
  lemma DigitsValueSnoc(s: seq<char>, c: char)
    ensures DigitsValue(s + [c]) == 10 * DigitsValue(s) + DigitValue(c)
  {
    assert (s + [c])[..|s|] == s;
  }

  /** Three digit characters, leading zeros kept. */
  function Digits3(n: nat): (s: seq<char>)
    requires n < 1000
    ensures |s| == 3 && AllDigits(s) && DigitsValue(s) == n
  {
    var h, t, u := n / 100, n / 10 % 10, n % 10;
    var s1 := [DigitChar(h)];
    var s2 := s1 + [DigitChar(t)];
    var s := s2 + [DigitChar(u)];
    assert s1[..0] == [];
    DigitsValueSnoc(s1, DigitChar(t));
    DigitsValueSnoc(s2, DigitChar(u));
    assert n == 100 * h + 10 * t + u;
    s
  }

  /** The value of a run of digits followed by another run. */
  lemma {:induction false} DigitsValueAppend(a: seq<char>, b: seq<char>)
    ensures DigitsValue(a + b) == DigitsValue(a) * Pow10(|b|) + DigitsValue(b)
    decreases |b|
  {
    if b == [] {
      assert a + b == a;
    } else {
      var b' := b[..|b| - 1];
      assert (a + b)[..|a + b| - 1] == a + b' && (a + b)[|a + b| - 1] == b[|b| - 1];
      DigitsValueAppend(a, b');
      ShiftDigit(DigitsValue(a), Pow10(|b'|), DigitsValue(b'), DigitValue(b[|b| - 1]));
    }
  }

  /** Appending one digit multiplies the value so far by ten. */
  lemma ShiftDigit(x: nat, p: nat, y: nat, d: nat)
    ensures 10 * (x * p + y) + d == x * (10 * p) + (10 * y + d)
  {
  }

  /** Six digit characters, leading zeros kept. */
  function Digits6(n: nat): (s: seq<char>)
    requires n < 1000000
    ensures |s| == 6 && AllDigits(s) && DigitsValue(s) == n
  {
    var s := Digits3(n / 1000) + Digits3(n % 1000);
    DigitsValueAppend(Digits3(n / 1000), Digits3(n % 1000));
    assert Pow10(3) == 1000;
    s
  }

  /** The magnitude of `t` rounded to whole milliseconds (halves away from zero). */
  function Millis(t: int): nat
  {
    (Abs(t) + 500) / 1000
  }

  /** `printf("%.3f", t)`: sign, whole seconds, a point and three digits of milliseconds. */
  function FixedThree(t: int): seq<char>
  {
    var ms := Millis(t);
    SignText(t < 0) + NatText(ms / 1000) + "." + Digits3(ms % 1000)
  }

  /** What `<<` prints for the time: sign, whole seconds, a point and six digits. */
  function TimeNumeral(t: int): (d: Decimal)
    ensures WellFormed(d)
  {
    Decimal(t < 0, NatText(Abs(t) / Second), Digits6(Abs(t) % Second), NoExponent)
  }

  /** A time read back from text: the numeral's value in whole microseconds. */
  function MicrosOf(d: Decimal): int
  {
    TruncateReal(Value(d) * 1000000.0)
  }

  // ---------------------------------------------------------------------------------------------
  // Lemmas

  /** Two texts `a . b` with `b` of the same length and no point in `a` split the same way. */
  lemma SplitAtPoint(a: seq<char>, b: seq<char>, c: seq<char>, d: seq<char>)
    requires a + "." + b == c + "." + d && |b| == |d|
    ensures a == c && b == d
  {
    assert |a| == |c|;
    assert a == (a + "." + b)[..|a|];
    assert c == (c + "." + d)[..|c|];
    assert b == (a + "." + b)[|a| + 1..];
    assert d == (c + "." + d)[|c| + 1..];
  }

  /** Two non-negative times print the same under `%.3f` exactly when they round to the same
      millisecond: ticks a millisecond or more apart get different file names, and ticks closer
      than that can share one. */
  lemma FixedThreeNames(t1: int, t2: int)
    requires t1 >= 0 && t2 >= 0
    ensures FixedThree(t1) == FixedThree(t2) <==> Millis(t1) == Millis(t2)
  {
    if FixedThree(t1) == FixedThree(t2) {
      var m1, m2 := Millis(t1), Millis(t2);
      assert SignText(false) == [];
      assert FixedThree(t1) == NatText(m1 / 1000) + "." + Digits3(m1 % 1000);
      assert FixedThree(t2) == NatText(m2 / 1000) + "." + Digits3(m2 % 1000);
      SplitAtPoint(NatText(m1 / 1000), Digits3(m1 % 1000), NatText(m2 / 1000), Digits3(m2 % 1000));
      NatTextInjective(m1 / 1000, m2 / 1000);
    }
  }

  /** A time printed into a save file and read back is the same time. */
  lemma TimeRoundTrip(t: int)
    ensures MicrosOf(TimeNumeral(t)) == t
  {
    var d := TimeNumeral(t);
    var q, r := Abs(t) / Second, Abs(t) % Second;
    ValueIs(d, |d.whole| + 1);
    assert Pow10(6) == 1000000;
    assert Magnitude(d) == q as real + r as real / 1000000.0;
    assert Magnitude(d) * 1000000.0 == Abs(t) as real;
    assert Value(d) * 1000000.0 == t as real;
  }
}

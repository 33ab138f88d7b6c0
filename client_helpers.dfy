/** The client's pure helpers: the race clock's text form and the
    linear-congruential generator behind `seededRandom`. */
module ClientHelpers {
  import opened Values
  import opened Text

  /** Text shown for a missing time. */
  const NoTime: string := "--:--:--"

  /** The three printed fields of a time in milliseconds, computed the way
      the source does with floating-point division, `%` and `Math.floor`:
      whole minutes, the seconds field and the hundredths field. */
  datatype Fields = Fields(minutes: int, seconds: int, hundredths: int)

  function TimeFields(t: int): (f: Fields)
    ensures t >= 0 ==> 0 <= f.seconds < 60 && 0 <= f.hundredths < 100 && f.minutes >= 0
    ensures t >= 0 ==> f.minutes * 60000 + f.seconds * 1000 + f.hundredths * 10 == t - t % 10
    ensures t >= 0 ==> f.seconds == (t / 1000) % 60 && f.minutes == t / 60000
  {
    var f := Fields(t / 60000, TruncRem(t, 60000) / 1000, TruncRem(t, 1000) / 10);
    if t >= 0 then
      FieldsRecombine(t);
      f
    else
      f
  }

  /** The arithmetic behind TimeFields's contract for a natural time. */
  lemma FieldsRecombine(t: int)
    requires t >= 0
    ensures 0 <= (t % 60000) / 1000 < 60 && (t % 60000) / 1000 == (t / 1000) % 60
    ensures (t / 60000) * 60000 + ((t % 60000) / 1000) * 1000 + ((t % 1000) / 10) * 10 == t - t % 10
  {
    var q, r := t / 60000, t % 60000;
    var s, u := r / 1000, r % 1000;
    DivMod(r, 1000, s, u);
    DivMod(t, 1000, q * 60 + s, u);
    DivMod(t / 1000, 60, q, s);
    var h, v := u / 10, u % 10;
    DivMod(t, 10, (q * 60 + s) * 100 + h, v);
  }

  /** Division by a divisor the time fields use is determined by quotient
      and remainder. */
  lemma DivMod(a: int, d: int, q: int, r: int)
    requires d == 10 || d == 60 || d == 1000
    requires 0 <= r < d && a == q * d + r
    ensures a / d == q && a % d == r
  {
    if d == 10 {
      assert a == q * 10 + r;
    } else if d == 60 {
      assert a == q * 60 + r;
    } else {
      assert a == q * 1000 + r;
    }
  }

  /** `formatTime`: `--:--:--` for a missing time, otherwise `MM:SS.hh`
      with every field padded with zeros to at least two characters. */
  function FormatTime(timeMs: Option<int>): (s: string)
    ensures timeMs.None? ==> s == NoTime
    ensures timeMs.Some? && timeMs.value >= 0 ==>
      |s| >= 8 && s[|s| - 6] == ':' && s[|s| - 3] == '.'
      && AllDigits(s[..|s| - 6]) && AllDigits(s[|s| - 5..|s| - 3]) && AllDigits(s[|s| - 2..])
    ensures timeMs.Some? && 0 <= timeMs.value < 100 * 60000 ==> |s| == 8
  {
    match timeMs
    case None => NoTime
    case Some(t) =>
      var f := TimeFields(t);
      var m := PadStart2(IntToString(f.minutes));
      var ss := PadStart2(IntToString(f.seconds));
      var hh := PadStart2(IntToString(f.hundredths));
      if t >= 0 then
        FieldTexts(f.minutes, f.seconds, f.hundredths);
        ClockShape(m, ss, hh);
        m + ":" + ss + "." + hh
      else
        m + ":" + ss + "." + hh
  }

  /** Reads `M...M:SS.hh` back into milliseconds; `None` for any other text. */
  function ParseTime(s: string): (r: Option<int>)
    ensures r.Some? ==> r.value >= 0 && r.value % 10 == 0
  {
    if |s| >= 7 && s[|s| - 6] == ':' && s[|s| - 3] == '.'
       && AllDigits(s[..|s| - 6]) && AllDigits(s[|s| - 5..|s| - 3]) && AllDigits(s[|s| - 2..])
    then
      Some(DigitsValue(s[..|s| - 6]) * 60000 + DigitsValue(s[|s| - 5..|s| - 3]) * 1000
           + DigitsValue(s[|s| - 2..]) * 10)
    else None
  }

  lemma NatToStringShort(n: nat)
    requires n < 100
    ensures |NatToString(n)| <= 2
  {
    if n >= 10 {
      assert NatToString(n) == NatToString(n / 10) + [DigitChar(n % 10)];
    }
  }

  /** The three printed fields are digit strings: the minutes at least two
      characters long (exactly two below 100), the others exactly two. */
  lemma FieldTexts(minutes: nat, seconds: nat, hundredths: nat)
    requires seconds < 100 && hundredths < 100
    ensures var m := PadStart2(IntToString(minutes));
      AllDigits(m) && |m| >= 2 && (minutes < 100 ==> |m| == 2)
    ensures AllDigits(PadStart2(IntToString(seconds))) && |PadStart2(IntToString(seconds))| == 2
    ensures AllDigits(PadStart2(IntToString(hundredths))) && |PadStart2(IntToString(hundredths))| == 2
  {
    TwoDigitField(seconds);
    TwoDigitField(hundredths);
    PadStart2Digits(NatToString(minutes));
    if minutes < 100 {
      NatToStringShort(minutes);
    }
  }

  /** A printed field reads back as its value. */
  lemma FieldValue(n: nat)
    ensures AllDigits(PadStart2(IntToString(n))) && DigitsValue(PadStart2(IntToString(n))) == n
  {
    PadStart2Digits(NatToString(n));
    NatToStringValue(n);
  }

  /** The printed text `M:SS.hh` has its separators six and three
      characters from the end and digits between them. */
  lemma ClockShape(m: string, ss: string, hh: string)
    requires |m| >= 2 && |ss| == 2 && |hh| == 2
    requires AllDigits(m) && AllDigits(ss) && AllDigits(hh)
    ensures var s := m + ":" + ss + "." + hh;
      |s| == |m| + 6 && s[|s| - 6] == ':' && s[|s| - 3] == '.'
      && AllDigits(s[..|s| - 6]) && AllDigits(s[|s| - 5..|s| - 3]) && AllDigits(s[|s| - 2..])
  {
    Separators(m, ss, hh);
    MinutesPart(m, ss, hh);
    SecondsPart(m, ss, hh);
    HundredthsPart(m, ss, hh);
  }

  /** A field below 100 prints as exactly two digits that read back as it. */
  lemma TwoDigitField(n: nat)
    requires n < 100
    ensures |PadStart2(IntToString(n))| == 2
    ensures AllDigits(PadStart2(IntToString(n))) && DigitsValue(PadStart2(IntToString(n))) == n
  {
    NatToStringShort(n);
    PadStart2Digits(NatToString(n));
    NatToStringValue(n);
  }

  /** Text of the printed shape reads back as its three fields. */
  lemma ParseFields(m: string, ss: string, hh: string)
    requires |m| >= 1 && |ss| == 2 && |hh| == 2
    requires AllDigits(m) && AllDigits(ss) && AllDigits(hh)
    ensures ParseTime(m + ":" + ss + "." + hh)
            == Some(DigitsValue(m) * 60000 + DigitsValue(ss) * 1000 + DigitsValue(hh) * 10)
  {
    Separators(m, ss, hh);
    MinutesPart(m, ss, hh);
    SecondsPart(m, ss, hh);
    HundredthsPart(m, ss, hh);
    ParseShaped(m + ":" + ss + "." + hh, m, ss, hh);
  }

  lemma Separators(m: string, ss: string, hh: string)
    requires |ss| == 2 && |hh| == 2
    ensures var s := m + ":" + ss + "." + hh;
      |s| == |m| + 6 && s[|s| - 6] == ':' && s[|s| - 3] == '.'
  {
  }

  lemma MinutesPart(m: string, ss: string, hh: string)
    requires |ss| == 2 && |hh| == 2
    ensures var s := m + ":" + ss + "." + hh; s[..|s| - 6] == m
  {
  }

  lemma SecondsPart(m: string, ss: string, hh: string)
    requires |ss| == 2 && |hh| == 2
    ensures var s := m + ":" + ss + "." + hh; s[|s| - 5..|s| - 3] == ss
  {
  }

  lemma HundredthsPart(m: string, ss: string, hh: string)
    requires |ss| == 2 && |hh| == 2
    ensures var s := m + ":" + ss + "." + hh; s[|s| - 2..] == hh
  {
  }

  lemma ParseShaped(s: string, m: string, ss: string, hh: string)
    requires |s| >= 7 && s[|s| - 6] == ':' && s[|s| - 3] == '.'
    requires s[..|s| - 6] == m && s[|s| - 5..|s| - 3] == ss && s[|s| - 2..] == hh
    requires AllDigits(m) && AllDigits(ss) && AllDigits(hh)
    ensures ParseTime(s) == Some(DigitsValue(m) * 60000 + DigitsValue(ss) * 1000 + DigitsValue(hh) * 10)
  {
  }

  /** Reading the printed time back gives the time truncated to a multiple
      of ten milliseconds: the printed fields lose only the last digit. */
  lemma {:induction false} FormatTimeRoundTrip(t: int)
    requires t >= 0
    ensures ParseTime(FormatTime(Some(t))) == Some(t - t % 10)
  {
    var f := TimeFields(t);
    var m := PadStart2(IntToString(f.minutes));
    var ss := PadStart2(IntToString(f.seconds));
    var hh := PadStart2(IntToString(f.hundredths));
    assert FormatTime(Some(t)) == m + ":" + ss + "." + hh;
    FieldTexts(f.minutes, f.seconds, f.hundredths);
    FieldValue(f.minutes);
    FieldValue(f.seconds);
    FieldValue(f.hundredths);
    ParseFields(m, ss, hh);
  }

  /** Each printed field reads back as the field TimeFields computes: the
      minutes, the seconds of the minute and the hundredths. */
  lemma FormatTimeFields(t: int)
    requires t >= 0
    ensures var s := FormatTime(Some(t));
      var f := TimeFields(t);
      DigitsValue(s[..|s| - 6]) == f.minutes
      && DigitsValue(s[|s| - 5..|s| - 3]) == f.seconds
      && DigitsValue(s[|s| - 2..]) == f.hundredths
  {
    var f := TimeFields(t);
    var m := PadStart2(IntToString(f.minutes));
    var ss := PadStart2(IntToString(f.seconds));
    var hh := PadStart2(IntToString(f.hundredths));
    assert FormatTime(Some(t)) == m + ":" + ss + "." + hh;
    FieldTexts(f.minutes, f.seconds, f.hundredths);
    FieldValue(f.minutes);
    FieldValue(f.seconds);
    FieldValue(f.hundredths);
    MinutesPart(m, ss, hh);
    SecondsPart(m, ss, hh);
    HundredthsPart(m, ss, hh);
  }

  /** A missing time is shown as `--:--:--`, which is not a time; zero is
      shown as `00:00.00`. */
  lemma MissingAndZeroTime()
    ensures FormatTime(None) == "--:--:--" && ParseTime(FormatTime(None)) == None
    ensures FormatTime(Some(0)) == "00:00.00"
  {
    assert TimeFields(0) == Fields(0, 0, 0);
    assert IntToString(0) == "0";
  }

  // ---------------------------------------------------------------------
  // seededRandom

  const Modulus: int := 233280

  /** One step of the generator's state recurrence, with JavaScript's `%`. */
  function LcgStep(state: int): (next: int)
    ensures state >= 0 ==> 0 <= next < Modulus
    ensures -Modulus < next < Modulus
  {
    TruncRem(state * 9301 + 49297, Modulus)
  }

  /** The state after `n` calls, starting from `start`: after a call it
      lies strictly between `-Modulus` and `Modulus`, and from a
      non-negative start it stays in `0..Modulus-1`. */
  function Iterate(start: int, n: nat): (state: int)
    ensures n >= 1 ==> -Modulus < state < Modulus
    ensures start >= 0 ==> state >= 0
  {
    if n == 0 then start else LcgStep(Iterate(start, n - 1))
  }

  /** The closure returned by `seededRandom`: `state` is the variable it
      captures. A missing or zero seed starts from `unseeded`, the value
      `Math.floor(Math.random() * 1000000)` the source draws instead. */
  class SeededRandom {
    var state: int
    ghost const start: int
    ghost var calls: nat

    ghost predicate Valid()
      reads this
    {
      state == Iterate(start, calls)
    }

    constructor (seed: Option<int>, unseeded: int)
      requires 0 <= unseeded < 1000000
      ensures Valid() && calls == 0
      ensures state == IntOr(seed, unseeded) && start == state
    {
      state := IntOr(seed, unseeded);
      start := IntOr(seed, unseeded);
      calls := 0;
    }

    /** One call of the closure: advance the state and return it scaled by
        the modulus. */
    method Next() returns (r: real)
      requires Valid()
      modifies this
      ensures Valid() && calls == old(calls) + 1
      ensures state == LcgStep(old(state)) && r == state as real / Modulus as real
      ensures start >= 0 ==> 0.0 <= r < 1.0
    {
      state := LcgStep(state);
      calls := calls + 1;
      r := state as real / Modulus as real;
    }
  }

  /** Two generators built from the same truthy seed return the same values
      call for call, whatever each would have drawn as an unseeded start. */
  method SameSeedSameStream(seed: int, n: nat, unseededA: int, unseededB: int)
    returns (xs: seq<real>, ys: seq<real>)
    requires seed != 0
    requires 0 <= unseededA < 1000000 && 0 <= unseededB < 1000000
    ensures |xs| == n && xs == ys
  {
    var a := new SeededRandom(Some(seed), unseededA);
    var b := new SeededRandom(Some(seed), unseededB);
    xs, ys := [], [];
    while |xs| < n
      invariant a.Valid() && b.Valid() && a.state == b.state
      invariant |xs| <= n && xs == ys
    {
      var x := a.Next();
      var y := b.Next();
      xs, ys := xs + [x], ys + [y];
    }
  }
}

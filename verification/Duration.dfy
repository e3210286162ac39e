/** Durations as the config files write them (`5s`, `250ms`, `10us`). */
module DurationText {
  import opened Prelude
  import opened Text
  import opened Division

  const NANOS_PER_MICRO: nat := 1_000
  const MICROS_PER_MILLI: nat := 1_000
  const MICROS_PER_SECOND: nat := 1_000_000
  const NANOS_PER_SECOND: nat := 1_000_000_000

  /** A `std::time::Duration`: 64 bits of seconds, and nanoseconds. */
  datatype Duration = Duration(seconds: nat, nanos: nat) {
    predicate Valid() {
      seconds < TWO_TO_THE_64 && nanos < NANOS_PER_SECOND
    }

    /** `as_micros`, which drops what is below a microsecond. */
    function Micros(): nat {
      seconds * MICROS_PER_SECOND + nanos / NANOS_PER_MICRO
    }
  }

  /** The duration of `n` microseconds, when its seconds fit 64 bits. */
  function OfMicros(n: nat): (d: Duration)
    ensures d.Micros() == n && d.nanos < NANOS_PER_SECOND && d.nanos % NANOS_PER_MICRO == 0
  {
    Duration(n / MICROS_PER_SECOND, (n % MICROS_PER_SECOND) * NANOS_PER_MICRO)
  }

  datatype Unit = Seconds | Millis | Micros {
    function InMicros(): nat {
      match this
      case Seconds => MICROS_PER_SECOND
      case Millis => MICROS_PER_MILLI
      case Micros => 1
    }

    function Suffix(): string {
      match this
      case Seconds => "s"
      case Millis => "ms"
      case Micros => "us"
    }
  }

  function StripSuffix(s: string, suffix: string): string
    requires EndsWith(s, suffix)
  {
    s[..|s| - |suffix|]
  }

  function ParseCount(digits: string, unit: Unit): Result<Duration, string> {
    var n := ParseNat(Trim(digits), TWO_TO_THE_64);
    if n.None? then Err("invalid number") else Ok(OfMicros(n.value * unit.InMicros()))
  }

  /** The digits and the unit of a text, if it ends in one; the two-letter
      suffixes are looked for first. */
  function SplitUnit(s: string): Option<(string, Unit)> {
    if EndsWith(s, "us") then Some((StripSuffix(s, "us"), Micros))
    else if EndsWith(s, "ms") then Some((StripSuffix(s, "ms"), Millis))
    else if EndsWith(s, "s") then Some((StripSuffix(s, "s"), Seconds))
    else None
  }

  function Parse(s: string): Result<Duration, string> {
    match SplitUnit(Trim(s))
    case Some((digits, unit)) => ParseCount(digits, unit)
    case None => Err("unknown duration format")
  }

  /** The largest unit that represents `d` exactly, to the microsecond. */
  function UnitOf(d: Duration): Unit {
    if d.Micros() % MICROS_PER_SECOND == 0 then Seconds
    else if d.Micros() % MICROS_PER_MILLI == 0 then Millis
    else Micros
  }

  function CountOf(d: Duration): nat {
    d.Micros() / UnitOf(d).InMicros()
  }

  function Print(d: Duration): string {
    ShowNat(CountOf(d)) + UnitOf(d).Suffix()
  }

  /** The unit printed is exact, and no larger one would be. */
  lemma LargestExactUnit(d: Duration)
    ensures CountOf(d) * UnitOf(d).InMicros() == d.Micros()
    ensures forall unit: Unit :: unit.InMicros() > UnitOf(d).InMicros() ==> d.Micros() % unit.InMicros() != 0
  {
    match UnitOf(d)
    case Seconds => DivMod(d.Micros(), MICROS_PER_SECOND);
    case Millis => DivMod(d.Micros(), MICROS_PER_MILLI);
    case Micros =>
  }

  lemma NotTrimmed(digits: string, unit: Unit)
    requires digits != [] && AllDigits(digits)
    ensures Trim(digits) == digits
    ensures Trim(digits + unit.Suffix()) == digits + unit.Suffix()
  {
    var s := digits + unit.Suffix();
    assert IsDigit(digits[0]) && IsDigit(digits[|digits| - 1]);
    assert s[0] == digits[0] && s[|s| - 1] == 's';
    TrimNothing(s);
    TrimNothing(digits);
  }

  /** A text of digits and a suffix is not taken for one with another. */
  lemma {:induction false} SplitsAtSuffix(digits: string, unit: Unit)
    requires digits != [] && AllDigits(digits)
    ensures SplitUnit(digits + unit.Suffix()) == Some((digits, unit))
  {
    var s := digits + unit.Suffix();
    var last := digits[|digits| - 1];
    assert IsDigit(last) && s[|digits| - 1] == last;
    assert s[..|digits|] == digits && s[|digits|..] == unit.Suffix();
    match unit
    case Seconds => EndsInTwo(s, last, 's');
    case Millis => EndsInTwo(s, 'm', 's');
    case Micros => EndsInTwo(s, 'u', 's');
  }

  lemma EndsInTwo(s: string, x: char, y: char)
    requires |s| >= 2 && s[|s| - 2] == x && s[|s| - 1] == y
    ensures EndsWith(s, "us") <==> x == 'u' && y == 's'
    ensures EndsWith(s, "ms") <==> x == 'm' && y == 's'
    ensures EndsWith(s, "s") <==> y == 's'
  {
    assert s[|s| - 2..] == [x, y] && s[|s| - 1..] == [y];
  }

  /** Reading printed text finds the unit it was printed in, and the number. */
  lemma ParsePrinted(n: nat, unit: Unit)
    ensures Parse(ShowNat(n) + unit.Suffix()) ==
            if n < TWO_TO_THE_64 then Ok(OfMicros(n * unit.InMicros())) else Err("invalid number")
  {
    var digits := ShowNat(n);
    NotTrimmed(digits, unit);
    SplitsAtSuffix(digits, unit);
    ParseShown(n, TWO_TO_THE_64);
  }

  /** Printing a duration and reading it back gives the duration if and only if
      it has nothing below a microsecond, and its count of the unit it is
      printed in fits 64 bits. */
  lemma RoundTripsIff(d: Duration)
    requires d.Valid()
    ensures Parse(Print(d)) == Ok(d) <==> d.nanos % NANOS_PER_MICRO == 0 && CountOf(d) < TWO_TO_THE_64
  {
    ParsePrinted(CountOf(d), UnitOf(d));
    LargestExactUnit(d);
    if d.nanos % NANOS_PER_MICRO == 0 {
      OfItsMicros(d);
    }
  }

  lemma OfItsMicros(d: Duration)
    requires d.Valid() && d.nanos % NANOS_PER_MICRO == 0
    ensures OfMicros(d.Micros()) == d
  {
    DivMod(d.nanos, NANOS_PER_MICRO);
    DivIs(d.Micros(), MICROS_PER_SECOND, d.seconds, d.nanos / NANOS_PER_MICRO);
  }

  /** What was read from text fits, and so is read back from what it prints as. */
  lemma ReadsBack(s: string)
    requires Parse(s).Ok?
    ensures var d := Parse(s).value; d.Valid() && CountOf(d) < TWO_TO_THE_64 && Parse(Print(d)) == Ok(d)
  {
    var d := Parse(s).value;
    var (digits, unit) := SplitUnit(Trim(s)).value;
    var n := ParseNat(Trim(digits), TWO_TO_THE_64).value;
    CountFits(n, unit);
    RoundTripsIff(d);
  }

  lemma {:induction false} CountFits(n: nat, unit: Unit)
    requires n < TWO_TO_THE_64
    ensures var d := OfMicros(n * unit.InMicros()); d.Valid() && CountOf(d) < TWO_TO_THE_64
  {
    var d := OfMicros(n * unit.InMicros());
    LargestExactUnit(d);
    assert UnitOf(d).InMicros() >= unit.InMicros() by {
      match unit
      case Seconds => DivIs(d.Micros(), MICROS_PER_SECOND, n, 0);
      case Millis => DivIs(d.Micros(), MICROS_PER_MILLI, n, 0);
      case Micros =>
    }
  }
}

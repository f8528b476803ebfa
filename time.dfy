/**
 * The relative-time formatter of the editor's status bar (frontend/src/lib/time.ts).
 *
 * The source works on JavaScript numbers. Here milliseconds are integers, the
 * floating-point divisions are exact `real` divisions and `Math.floor` is
 * `.Floor`; the lemmas then show that the whole formatter is integer arithmetic.
 * The current time is a parameter instead of a read of the clock.
 */
module Time {
  import opened Wrappers

  const MillisPerSecond: int := 1000
  const SecondsPerYear: int := 31536000
  const SecondsPerMonth: int := 2592000
  const SecondsPerDay: int := 86400
  const SecondsPerHour: int := 3600
  const SecondsPerMinute: int := 60

  /** The units, in the order the formatter tries them. */
  datatype Unit = Years | Months | Days | Hours | Minutes | Seconds

  function Length(u: Unit): (n: int)
    ensures n >= 1
  {
    match u
    case Years => SecondsPerYear
    case Months => SecondsPerMonth
    case Days => SecondsPerDay
    case Hours => SecondsPerHour
    case Minutes => SecondsPerMinute
    case Seconds => 1
  }

  /** Position of a unit in the order the formatter tries them. */
  function Rank(u: Unit): nat
  {
    match u
    case Years => 0
    case Months => 1
    case Days => 2
    case Hours => 3
    case Minutes => 4
    case Seconds => 5
  }

  function Suffix(u: Unit): string
  {
    match u
    case Years => "a atrás"
    case Months => "m atrás"
    case Days => "d atrás"
    case Hours => "h atrás"
    case Minutes => "min atrás"
    case Seconds => "s atrás"
  }

  /** The letter of each suffix just before " atrás". */
  function UnitLetter(u: Unit): (c: char)
    ensures |Suffix(u)| >= 7 && Suffix(u)[|Suffix(u)| - 7] == c
  {
    match u
    case Years => 'a'
    case Months => 'm'
    case Days => 'd'
    case Hours => 'h'
    case Minutes => 'n'
    case Seconds => 's'
  }

  // ---------------------------------------------------------------------------
  // Decimal rendering of an integer (JavaScript's number-to-string for integers)

  function DigitChar(d: int): (c: char)
    requires 0 <= d < 10
    ensures IsDigit(c) && DigitValue(c) == d
  {
    ('0' as int + d) as char
  }

  predicate IsDigit(c: char)
  {
    '0' <= c <= '9'
  }

  function DigitValue(c: char): int
    requires IsDigit(c)
  {
    c as int - '0' as int
  }

  function NatDigits(n: nat): string
    decreases n
  {
    if n < 10 then [DigitChar(n)] else NatDigits(n / 10) + [DigitChar(n % 10)]
  }

  /** `String(n)` for an integer-valued number: optional minus sign, then digits. */
  function Decimal(n: int): string
  {
    if n < 0 then "-" + NatDigits(-n) else NatDigits(n)
  }

  predicate AllDigits(s: string)
  {
    forall i :: 0 <= i < |s| ==> IsDigit(s[i])
  }

  /** The value of a string of decimal digits, most significant first. */
  function DigitsValue(s: string): nat
    requires AllDigits(s)
    decreases |s|
  {
    if s == [] then 0 else 10 * DigitsValue(s[..|s| - 1]) + DigitValue(s[|s| - 1])
  }

  /** Reads back what `Decimal` writes; the inverse that makes the rendering unambiguous. */
  function ParseDecimal(s: string): Option<int>
  {
    if |s| > 1 && s[0] == '-' && AllDigits(s[1..]) then Some(-(DigitsValue(s[1..]) as int))
    else if |s| > 0 && AllDigits(s) then Some(DigitsValue(s))
    else None
  }

  lemma {:induction false} NatDigitsRoundTrip(n: nat)
    ensures |NatDigits(n)| > 0 && AllDigits(NatDigits(n))
    ensures DigitsValue(NatDigits(n)) == n
    decreases n
  {
    if n >= 10 {
      var q, r := n / 10, n % 10;
      NatDigitsRoundTrip(q);
      var s := NatDigits(n);
      assert s == NatDigits(q) + [DigitChar(r)];
      assert s[..|s| - 1] == NatDigits(q);
      assert DigitsValue(s) == 10 * q + r;
    }
  }

  lemma ParseDigits(d: string)
    requires |d| > 0 && AllDigits(d)
    ensures ParseDecimal(d) == Some(DigitsValue(d))
  {
  }

  lemma ParseNegative(d: string)
    requires |d| > 0 && AllDigits(d)
    ensures ParseDecimal("-" + d) == Some(-(DigitsValue(d) as int))
  {
  }

  /** Rendering an integer and reading it back gives the same integer. */
  lemma DecimalRoundTrip(n: int)
    ensures |Decimal(n)| > 0
    ensures ParseDecimal(Decimal(n)) == Some(n)
  {
    if n < 0 {
      NatDigitsRoundTrip(-n);
      ParseNegative(NatDigits(-n));
    } else {
      NatDigitsRoundTrip(n);
      ParseDigits(NatDigits(n));
    }
  }

  // ---------------------------------------------------------------------------
  // The formatter as written

  /** `Math.floor(x / d)` on exact reals. */
  function FloorQuotient(x: int, d: int): int
    requires d > 0
  {
    (x as real / d as real).Floor
  }

  /** `timeAgo(date)` with `new Date().getTime()` passed in as `nowMs`. */
  function TimeAgo(nowMs: int, dateMs: int): (r: string)
    ensures |r| > 7 && r[|r| - 6..] == " atrás"
  {
    var seconds := FloorQuotient(nowMs - dateMs, MillisPerSecond);
    if seconds as real / SecondsPerYear as real > 1.0 then
      Decimal(FloorQuotient(seconds, SecondsPerYear)) + "a atrás"
    else if seconds as real / SecondsPerMonth as real > 1.0 then
      Decimal(FloorQuotient(seconds, SecondsPerMonth)) + "m atrás"
    else if seconds as real / SecondsPerDay as real > 1.0 then
      Decimal(FloorQuotient(seconds, SecondsPerDay)) + "d atrás"
    else if seconds as real / SecondsPerHour as real > 1.0 then
      Decimal(FloorQuotient(seconds, SecondsPerHour)) + "h atrás"
    else if seconds as real / SecondsPerMinute as real > 1.0 then
      Decimal(FloorQuotient(seconds, SecondsPerMinute)) + "min atrás"
    else
      Decimal(seconds) + "s atrás"
  }

  // ---------------------------------------------------------------------------
  // Integer reading of the formatter

  /** `Math.floor` of an exact quotient by a positive divisor is integer division. */
  lemma FloorQuotientIsDiv(x: int, d: int)
    requires d > 0
    ensures FloorQuotient(x, d) == x / d
  {
    var q, r := x / d, x % d;
    assert x == q * d + r;
    assert x as real / d as real == q as real + r as real / d as real;
    assert 0.0 <= r as real / d as real < 1.0;
  }

  /** For an integer `s`, the test `s / d > 1` of the source is `s > d`. */
  lemma QuotientExceedsOneIff(s: int, d: int)
    requires d > 0
    ensures (s as real / d as real > 1.0) <==> s > d
  {
  }

  /** Elapsed whole seconds: the floor of the millisecond difference over 1000. */
  function ElapsedSeconds(nowMs: int, dateMs: int): (s: int)
    ensures s * MillisPerSecond <= nowMs - dateMs < s * MillisPerSecond + MillisPerSecond
  {
    (nowMs - dateMs) / MillisPerSecond
  }

  /** The units the formatter tries before falling back to seconds. */
  const Ladder: seq<Unit> := [Years, Months, Days, Hours, Minutes]

  /** Reference definition: the first unit of `units` whose length `seconds` strictly exceeds. */
  function FirstExceeded(seconds: int, units: seq<Unit>): Unit
  {
    if units == [] then Seconds
    else if seconds > Length(units[0]) then units[0]
    else FirstExceeded(seconds, units[1..])
  }

  /** The unit choice stated as a property: exceeded, and no earlier unit exceeded. */
  predicate IsChosenUnit(seconds: int, u: Unit)
  {
    && (u != Seconds ==> seconds > Length(u))
    && (forall v: Unit :: Rank(v) < Rank(u) ==> seconds <= Length(v))
  }

  /** The reference choice unfolded along the ladder. */
  lemma FirstExceededLadder(seconds: int)
    ensures FirstExceeded(seconds, Ladder) ==
      if seconds > SecondsPerYear then Years
      else if seconds > SecondsPerMonth then Months
      else if seconds > SecondsPerDay then Days
      else if seconds > SecondsPerHour then Hours
      else if seconds > SecondsPerMinute then Minutes
      else Seconds
  {
    var l1, l2, l3, l4 := Ladder[1..], Ladder[2..], Ladder[3..], Ladder[4..];
    assert l1 == [Months, Days, Hours, Minutes] && l1[1..] == l2;
    assert l2 == [Days, Hours, Minutes] && l2[1..] == l3;
    assert l3 == [Hours, Minutes] && l3[1..] == l4;
    assert l4 == [Minutes] && l4[1..] == [];
    assert FirstExceeded(seconds, l4) == if seconds > SecondsPerMinute then Minutes else Seconds;
    assert FirstExceeded(seconds, l3) == if seconds > SecondsPerHour then Hours else FirstExceeded(seconds, l4);
    assert FirstExceeded(seconds, l2) == if seconds > SecondsPerDay then Days else FirstExceeded(seconds, l3);
    assert FirstExceeded(seconds, l1) == if seconds > SecondsPerMonth then Months else FirstExceeded(seconds, l2);
  }

  /** The formatter chooses the first unit of the ladder whose length is strictly exceeded
      and prints `seconds div length` in front of that unit's suffix. */
  lemma {:induction false} TimeAgoChoosesFirstExceeded(nowMs: int, dateMs: int)
    ensures var s := ElapsedSeconds(nowMs, dateMs);
            var u := FirstExceeded(s, Ladder);
            TimeAgo(nowMs, dateMs) == Decimal(s / Length(u)) + Suffix(u)
  {
    var s := ElapsedSeconds(nowMs, dateMs);
    FloorQuotientIsDiv(nowMs - dateMs, MillisPerSecond);
    assert FloorQuotient(nowMs - dateMs, MillisPerSecond) == s;
    QuotientExceedsOneIff(s, SecondsPerYear);
    QuotientExceedsOneIff(s, SecondsPerMonth);
    QuotientExceedsOneIff(s, SecondsPerDay);
    QuotientExceedsOneIff(s, SecondsPerHour);
    QuotientExceedsOneIff(s, SecondsPerMinute);
    FloorQuotientIsDiv(s, SecondsPerYear);
    FloorQuotientIsDiv(s, SecondsPerMonth);
    FloorQuotientIsDiv(s, SecondsPerDay);
    FloorQuotientIsDiv(s, SecondsPerHour);
    FloorQuotientIsDiv(s, SecondsPerMinute);
    FirstExceededLadder(s);
  }

  /** The reference choice is exactly the unit characterised by `IsChosenUnit`, both ways. */
  lemma ChosenUnitCharacterised(seconds: int, u: Unit)
    ensures FirstExceeded(seconds, Ladder) == u <==> IsChosenUnit(seconds, u)
  {
    FirstExceededLadder(seconds);
    var c := FirstExceeded(seconds, Ladder);
    assert IsChosenUnit(seconds, c) by {
      forall v: Unit | Rank(v) < Rank(c) ensures seconds <= Length(v) {
      }
    }
  }

  /** When a unit other than seconds is chosen, the printed number is at least 1. */
  lemma ChosenQuotientPositive(seconds: int)
    ensures var u := FirstExceeded(seconds, Ladder);
            u != Seconds ==> seconds / Length(u) >= 1
  {
    ChosenUnitCharacterised(seconds, FirstExceeded(seconds, Ladder));
  }

  /** A date in the future gives a negative count of seconds. */
  lemma FutureDateFallsThrough(nowMs: int, dateMs: int)
    requires nowMs < dateMs
    ensures ElapsedSeconds(nowMs, dateMs) < 0
    ensures TimeAgo(nowMs, dateMs) == Decimal(ElapsedSeconds(nowMs, dateMs)) + "s atrás"
  {
    TimeAgoChoosesFirstExceeded(nowMs, dateMs);
  }

  /** The thresholds are strict: exactly a minute is still counted in seconds. */
  lemma SixtySecondsInSeconds(dateMs: int)
    ensures TimeAgo(dateMs + 60000, dateMs) == "60s atrás"
  {
    TimeAgoChoosesFirstExceeded(dateMs + 60000, dateMs);
    assert NatDigits(60) == "60";
  }

  /** Exactly an hour is still counted in minutes. */
  lemma OneHourInMinutes(dateMs: int)
    ensures TimeAgo(dateMs + 3600000, dateMs) == "60min atrás"
  {
    TimeAgoChoosesFirstExceeded(dateMs + 3600000, dateMs);
    assert NatDigits(60) == "60";
  }

  // ---------------------------------------------------------------------------
  // Shape of every result

  predicate EndsWith(s: string, suffix: string)
  {
    |suffix| <= |s| && s[|s| - |suffix|..] == suffix
  }

  /** Splits a result of the formatter back into its number and its unit. */
  function ParseTimeAgo(s: string): Option<(int, Unit)>
  {
    ParseWithUnits(s, [Years, Months, Days, Hours, Minutes, Seconds])
  }

  function ParseWithUnits(s: string, units: seq<Unit>): Option<(int, Unit)>
  {
    if units == [] then None
    else if EndsWith(s, Suffix(units[0])) then
      match ParseDecimal(s[..|s| - |Suffix(units[0])|])
      case Some(n) => Some((n, units[0]))
      case None => None
    else ParseWithUnits(s, units[1..])
  }

  /** A rendered number followed by one suffix never ends with a different suffix. */
  lemma SuffixesDistinct(n: int, u: Unit, v: Unit)
    requires v != u
    ensures !EndsWith(Decimal(n) + Suffix(u), Suffix(v))
  {
    var d := Decimal(n);
    DecimalRoundTrip(n);
    var s := d + Suffix(u);
    // every suffix is one or three letters followed by " atrás", and the letter
    // just before " atrás" differs between any two units
    var k := |s| - 7;
    assert s[k] == Suffix(u)[|Suffix(u)| - 7] == UnitLetter(u);
    if EndsWith(s, Suffix(v)) {
      assert false;
    }
  }

  lemma {:induction false} ParseWithUnitsFinds(n: int, u: Unit, units: seq<Unit>)
    requires u in units
    ensures ParseWithUnits(Decimal(n) + Suffix(u), units) == Some((n, u))
    decreases |units|
  {
    var out := Decimal(n) + Suffix(u);
    if units[0] != u {
      SuffixesDistinct(n, u, units[0]);
      ParseWithUnitsFinds(n, u, units[1..]);
    } else {
      DecimalRoundTrip(n);
      assert out[..|out| - |Suffix(u)|] == Decimal(n);
    }
  }

  /** A number followed by a unit's suffix reads back as that number and that unit. */
  lemma FormatParses(n: int, u: Unit)
    ensures ParseTimeAgo(Decimal(n) + Suffix(u)) == Some((n, u))
  {
    ParseWithUnitsFinds(n, u, [Years, Months, Days, Hours, Minutes, Seconds]);
  }

  /** The formatter's output is a decimal integer followed by exactly one unit suffix,
      and both can be read back from it. */
  lemma TimeAgoParses(nowMs: int, dateMs: int)
    ensures var s := ElapsedSeconds(nowMs, dateMs);
            var u := FirstExceeded(s, Ladder);
            ParseTimeAgo(TimeAgo(nowMs, dateMs)) == Some((s / Length(u), u))
  {
    var s := ElapsedSeconds(nowMs, dateMs);
    var u := FirstExceeded(s, Ladder);
    TimeAgoChoosesFirstExceeded(nowMs, dateMs);
    FormatParses(s / Length(u), u);
  }
}

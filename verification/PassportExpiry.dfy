/**
  The passport expiry as six MRZ bytes (YYMMDD), read from a Unix timestamp, and the timestamp the
  management app builds from a disclosed expiry date.
 */
module PassportExpiry {
  import opened Wrappers
  import opened Numerals
  import opened Calendar

  const MAX_SAFE_INTEGER := 9_007_199_254_740_991
  const SECONDS_PER_DAY := 86_400

  /** JavaScript's `%`: the remainder has the sign of the dividend. */
  function JsRemainder(a: int, b: int): int
    requires b > 0
  {
    if a >= 0 then a % b else -((-a) % b)
  }

  function Encode(s: string): (bytes: seq<int>) {
    seq(|s|, i requires 0 <= i < |s| => s[i] as int)
  }

  function YyMmDd(c: Date): string {
    Pad2(IntDecimal(JsRemainder(c.year, 100))) + Pad2(IntDecimal(c.month + 1)) + Pad2(IntDecimal(c.date))
  }

  function ExpiryMrz(expiryTs: int): Result<seq<int>> {
    var milliseconds := expiryTs * 1000;
    if milliseconds > MAX_SAFE_INTEGER then Err("expiryTs is too large to convert to an MRZ date.")
    else
      match TimeClip(milliseconds)
      case None => Err("expiryTs must be the canonical end-of-day UTC passport expiry.")
      case Some(t) =>
        var date := DateOfDay(t / MS_PER_DAY);
        if UtcEndOfDay(date) != Some(t) then Err("expiryTs must be the canonical end-of-day UTC passport expiry.")
        else Ok(Encode(YyMmDd(date)))
  }

  predicate LastSecondOfDay(ts: int) { ts % SECONDS_PER_DAY == SECONDS_PER_DAY - 1 }

  predicate InTimeRange(ts: int) { -MAX_TIME <= ts * 1000 <= MAX_TIME }

  function YearOf(ts: int): int { YearFromDay(ts / SECONDS_PER_DAY) }

  lemma UtcEndOfDayOf(day: int)
    ensures var c := DateOfDay(day);
            if 0 <= c.year <= 99 then UtcEndOfDay(c).Some? ==> UtcEndOfDay(c).value > day * MS_PER_DAY + END_OF_DAY_MS
            else UtcEndOfDay(c) == TimeClip(day * MS_PER_DAY + END_OF_DAY_MS)
  {
    DayRoundTrip(day);
    var c := DateOfDay(day);
    if 0 <= c.year <= 99 {
      YearsAscend(c.year + 1, c.year + 1900);
      MakeDayInYear(c.year + 1900, c.month, c.date);
    }
  }

  lemma SplitMilliseconds(ts: int)
    ensures ts * 1000 == (ts / SECONDS_PER_DAY) * MS_PER_DAY + (ts % SECONDS_PER_DAY) * 1000
    ensures (ts * 1000) / MS_PER_DAY == ts / SECONDS_PER_DAY
  {
  }

  /**
    Accepted are exactly the last seconds of the UTC days inside the time range, except those of the
    years 0 to 99, which `Date.UTC` reads as 1900 to 1999.
   */
  lemma AcceptedExactly(ts: int)
    ensures ExpiryMrz(ts).Ok? <==> LastSecondOfDay(ts) && InTimeRange(ts) && !(0 <= YearOf(ts) <= 99)
  {
    hide DateOfDay, YearFromDay, MakeDay, YyMmDd, Encode, UtcEndOfDay, DayFromYear;
    var day := ts / SECONDS_PER_DAY;
    SplitMilliseconds(ts);
    UtcEndOfDayOf(day);
  }

  /** The exception is real: the last second of January 1 of the year 50 is refused. */
  lemma YearFiftyRefused()
    ensures var ts := -60_589_209_601; LastSecondOfDay(ts) && InTimeRange(ts) && ExpiryMrz(ts).Err?
  {
    var ts := -60_589_209_601;
    assert ts / SECONDS_PER_DAY == DayFromYear(50) == -701_265;
    NextYear(50);
    YearUnique(-701_265, 50);
    AcceptedExactly(ts);
  }

  lemma SinceEpoch(day: int)
    requires day >= 0
    ensures YearFromDay(day) >= 1970
  {
    var y := YearFromDay(day);
    if y < 1970 { YearsAscend(y + 1, 1970); }
  }

  /** Both callers pass a u64, and no such timestamp is in an excluded year. */
  lemma AcceptedForCallers(ts: int)
    requires ts >= 0
    ensures ExpiryMrz(ts).Ok? <==> LastSecondOfDay(ts) && InTimeRange(ts)
  {
    AcceptedExactly(ts);
    SinceEpoch(ts / SECONDS_PER_DAY);
  }

  /** The number a two-byte ASCII field shows. */
  function Field2(bytes: seq<int>, at: nat): int
    requires at + 2 <= |bytes|
  {
    10 * (bytes[at] - 48) + (bytes[at + 1] - 48)
  }

  predicate AsciiDigit(b: int) { 48 <= b <= 57 }

  lemma TwoDigits(n: nat)
    requires n < 100
    ensures |Pad2(IntDecimal(n))| == 2
    ensures var b := Encode(Pad2(IntDecimal(n))); AsciiDigit(b[0]) && AsciiDigit(b[1]) && Field2(b, 0) == n
  {
    if n >= 10 { assert Decimal(n) == [DigitChar(n / 10)] + [DigitChar(n % 10)]; }
  }

  /** The six bytes are the two-digit year, month and day of the UTC day that the timestamp ends. */
  lemma ShowsTheDate(ts: int)
    requires ts >= 0 && ExpiryMrz(ts).Ok?
    ensures var b, c := ExpiryMrz(ts).value, DateOfDay(ts / SECONDS_PER_DAY);
            && |b| == 6 && (forall i :: 0 <= i < 6 ==> AsciiDigit(b[i]))
            && Field2(b, 0) == c.year % 100 && Field2(b, 2) == c.month + 1 && Field2(b, 4) == c.date
  {
    var day := ts / SECONDS_PER_DAY;
    SinceEpoch(day);
    BytesOfAccepted(ts);
    assert DaysInMonth(DateOfDay(day).month, LeapYear(DateOfDay(day).year)) <= 31;
    hide *;
    ShownDate(DateOfDay(day));
  }

  lemma BytesOfAccepted(ts: int)
    requires ExpiryMrz(ts).Ok?
    ensures ExpiryMrz(ts).value == Encode(YyMmDd(DateOfDay(ts / SECONDS_PER_DAY)))
  {
    hide Encode, YyMmDd, DateOfDay, UtcEndOfDay;
    SplitMilliseconds(ts);
  }

  lemma ShownDate(c: Date)
    requires c.year >= 0 && 0 <= c.month < 12 && 1 <= c.date <= 31
    ensures var b := Encode(YyMmDd(c));
            && |b| == 6 && (forall i :: 0 <= i < 6 ==> AsciiDigit(b[i]))
            && Field2(b, 0) == c.year % 100 && Field2(b, 2) == c.month + 1 && Field2(b, 4) == c.date
  {
    TwoDigits(c.year % 100);
    TwoDigits(c.month + 1);
    TwoDigits(c.date);
    hide Decimal, IntDecimal, Pad2, Encode;
    ThreeFields(Pad2(IntDecimal(c.year % 100)), Pad2(IntDecimal(c.month + 1)), Pad2(IntDecimal(c.date)));
  }

  lemma ThreeFields(yy: string, mm: string, dd: string)
    requires |yy| == |mm| == |dd| == 2
    ensures Encode(yy + mm + dd) == Encode(yy) + Encode(mm) + Encode(dd)
    ensures |Encode(yy)| == |Encode(mm)| == |Encode(dd)| == 2
  {
  }

  /** Within a century the bytes determine the timestamp. */
  lemma BytesIdentifyExpiry(ts: int, us: int)
    requires ts >= 0 && us >= 0 && ExpiryMrz(ts).Ok? && ExpiryMrz(us) == ExpiryMrz(ts)
    requires -100 < YearOf(ts) - YearOf(us) < 100
    ensures ts == us
  {
    ShowsTheDate(ts);
    ShowsTheDate(us);
    var day, other := ts / SECONDS_PER_DAY, us / SECONDS_PER_DAY;
    SameResidue(YearFromDay(day), YearFromDay(other));
    DayRoundTrip(day);
    DayRoundTrip(other);
    AcceptedForCallers(ts);
    AcceptedForCallers(us);
  }

  lemma SameResidue(a: int, b: int)
    requires a % 100 == b % 100 && -100 < a - b < 100
    ensures a == b
  {
  }

  lemma NextDaySecond(ts: int)
    ensures (ts + SECONDS_PER_DAY) / SECONDS_PER_DAY == ts / SECONDS_PER_DAY + 1
    ensures LastSecondOfDay(ts + SECONDS_PER_DAY) == LastSecondOfDay(ts)
  {
  }

  /** The "expiry" mutation moves an accepted expiry by one day: still accepted, with other bytes. */
  lemma MutatedExpiryDiffers(ts: int)
    requires ts >= 0 && ExpiryMrz(ts).Ok? && InTimeRange(ts + SECONDS_PER_DAY)
    ensures ExpiryMrz(ts + SECONDS_PER_DAY).Ok? && ExpiryMrz(ts + SECONDS_PER_DAY).value != ExpiryMrz(ts).value
  {
    hide ExpiryMrz, DateOfDay, Field2, YearFromDay;
    var us := ts + SECONDS_PER_DAY;
    AcceptedForCallers(ts);
    NextDaySecond(ts);
    AcceptedForCallers(us);
    ShowsTheDate(ts);
    ShowsTheDate(us);
    SuccessiveDays(ts / SECONDS_PER_DAY);
  }

  /** `expiryTs` of `localDisclosures` for a disclosed time value; None is the RangeError of `BigInt(NaN)`. */
  function LocalExpiryTs(t: int): Option<int> {
    match UtcEndOfDay(DateOfDay(t / MS_PER_DAY))
    case None => None
    case Some(ms) => Some(ms / 1000)
  }

  /**
    Every disclosed date but the very last day of the time range yields a timestamp, the prover accepts
    it, and it ends the disclosed day, except that a date of the years 0 to 99 lands in 1900 or later.
   */
  lemma LocalExpiryAccepted(t: int)
    requires TimeClip(t).Some?
    ensures LocalExpiryTs(t).Some? <==> t < MAX_TIME
    ensures LocalExpiryTs(t).Some? ==> ExpiryMrz(LocalExpiryTs(t).value).Ok?
    ensures LocalExpiryTs(t).Some? ==>
              var day := LocalExpiryTs(t).value / SECONDS_PER_DAY;
              if 0 <= YearFromDay(t / MS_PER_DAY) <= 99 then YearFromDay(day) >= 1900 else day == t / MS_PER_DAY
  {
    hide DateOfDay, YearFromDay, MakeDay, UtcEndOfDay, DayFromYear, ExpiryMrz;
    var c := DateOfDay(t / MS_PER_DAY);
    UtcEndOfDayOf(t / MS_PER_DAY);
    var day := if 0 <= c.year <= 99 then MakeDay(MakeFullYear(c.year), c.month, c.date) else t / MS_PER_DAY;
    if 0 <= c.year <= 99 {
      CenturyShift(c);
      YearBelow(t / MS_PER_DAY, 1970);
      Landmarks();
    }
    if LocalExpiryTs(t).Some? {
      EndOfDayInSeconds(day);
      AcceptedExactly(LocalExpiryTs(t).value);
    }
  }

  lemma EndOfDayInSeconds(day: int)
    ensures var ts := (day * MS_PER_DAY + END_OF_DAY_MS) / 1000;
            && ts * 1000 == day * MS_PER_DAY + END_OF_DAY_MS
            && ts / SECONDS_PER_DAY == day && LastSecondOfDay(ts)
  {
    var ts := day * SECONDS_PER_DAY + 86_399;
    Thousand(ts);
    DayOfLastSecond(day);
    hide LastSecondOfDay;
    assert day * MS_PER_DAY + END_OF_DAY_MS == ts * 1000;
  }

  lemma Thousand(n: int)
    ensures (n * 1000) / 1000 == n
  {
  }

  lemma DayOfLastSecond(day: int)
    ensures (day * SECONDS_PER_DAY + 86_399) / SECONDS_PER_DAY == day && LastSecondOfDay(day * SECONDS_PER_DAY + 86_399)
  {
  }

  lemma YearBelow(day: int, y: int)
    requires YearFromDay(day) < y
    ensures day < DayFromYear(y)
  {
    YearsAscend(YearFromDay(day) + 1, y);
  }

  lemma CenturyShift(c: Date)
    requires ValidDate(c) && 0 <= c.year <= 99
    ensures var day := MakeDay(MakeFullYear(c.year), c.month, c.date);
            && YearFromDay(day) >= 1900 && -25_567 <= day <= 11_323
            && UtcEndOfDay(c) == Some(day * MS_PER_DAY + END_OF_DAY_MS)
  {
    hide MakeDay, DayFromYear, YearFromDay;
    var y := 1900 + c.year;
    MakeDayNearYear(y, c.month, c.date);
    YearsAscend(1900, y);
    YearsAscend(y, 2000);
    Landmarks();
    var day := MakeDay(y, c.month, c.date);
    if YearFromDay(day) < 1900 { YearBelow(day, 1900); }
  }

  lemma Landmarks()
    ensures DayFromYear(1900) == -25_567 && DayFromYear(1970) == 0 && DayFromYear(2000) == 10_957
  {
  }

  lemma MakeDayNearYear(year: int, month: int, date: int)
    requires 0 <= month < 12 && 1 <= date <= DaysInMonth(month, true)
    ensures DayFromYear(year) <= MakeDay(year, month, date) <= DayFromYear(year) + 366
  {
    hide DayFromYear;
    MakeDayInYear(year, month, date);
  }
}

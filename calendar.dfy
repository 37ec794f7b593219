/**
 * UTC instants at second precision, the proleptic Gregorian calendar that
 * Go's `time` package uses, and the fixed-width layouts the log keys are
 * written in.
 */
module Calendar {
  import opened Common
  import opened Text

  /** Seconds since 0001-01-01T00:00:00Z, which is the zero value of Go's `time.Time`. */
  type Instant = int

  const ZeroTime: Instant := 0
  const SecondsPerHour := 3600
  const SecondsPerDay := 86400
  const DaysPer400Years := 146097

  /** A broken-down UTC time: what `Year()`, `Month()`, ... of a `time.Time` return. */
  datatype Civil = Civil(year: int, month: int, day: int, hour: int, minute: int, second: int)

  predicate IsLeap(y: int) {
    y % 4 == 0 && (y % 100 != 0 || y % 400 == 0)
  }

  function DaysInYear(y: int): int {
    if IsLeap(y) then 366 else 365
  }

  function DaysIn(m: int, y: int): int
    requires 1 <= m <= 12
  {
    if m == 2 then (if IsLeap(y) then 29 else 28)
    else if m == 4 || m == 6 || m == 9 || m == 11 then 30
    else 31
  }

  /** Days from January 1st of year `y` to the first day of month `m`. */
  function DaysBeforeMonth(m: int, y: int): int
    requires 1 <= m <= 12
  {
    [0, 31, 59, 90, 120, 151, 181, 212, 243, 273, 304, 334][m - 1] + (if m > 2 && IsLeap(y) then 1 else 0)
  }

  /** Days from 0001-01-01 to January 1st of year `y` (negative before year 1). */
  function DaysBeforeYear(y: int): int {
    var n := y - 1;
    365 * n + n / 4 - n / 100 + n / 400
  }

  /** A calendar date and time of day as Go's parser accepts them. */
  predicate Valid(c: Civil) {
    && 1 <= c.month <= 12
    && 1 <= c.day <= DaysIn(c.month, c.year)
    && 0 <= c.hour < 24
    && 0 <= c.minute < 60
    && 0 <= c.second < 60
  }

  function DayNumber(c: Civil): int
    requires 1 <= c.month <= 12
  {
    DaysBeforeYear(c.year) + DaysBeforeMonth(c.month, c.year) + c.day - 1
  }

  function TimeOfDay(c: Civil): int {
    c.hour * 3600 + c.minute * 60 + c.second
  }

  /** The instant a UTC calendar reading denotes. */
  function InstantOf(c: Civil): Instant
    requires 1 <= c.month <= 12
  {
    DayNumber(c) * SecondsPerDay + TimeOfDay(c)
  }

  lemma QuotientStep(n: int)
    ensures (n + 1) / 4 == n / 4 + (if (n + 1) % 4 == 0 then 1 else 0)
    ensures (n + 1) / 100 == n / 100 + (if (n + 1) % 100 == 0 then 1 else 0)
    ensures (n + 1) / 400 == n / 400 + (if (n + 1) % 400 == 0 then 1 else 0)
  {
  }

  lemma DivisorChain(y: int)
    ensures y % 400 == 0 ==> y % 100 == 0
    ensures y % 100 == 0 ==> y % 4 == 0
  {
    if y % 400 == 0 {
      var t := 4 * (y / 400) - y / 100;
      assert y % 100 == 100 * t;
    }
    if y % 100 == 0 {
      var t := 25 * (y / 100) - y / 4;
      assert y % 4 == 4 * t;
    }
  }

  lemma YearStep(y: int)
    ensures DaysBeforeYear(y + 1) == DaysBeforeYear(y) + DaysInYear(y)
  {
    QuotientStep(y - 1);
    DivisorChain(y);
    assert DaysBeforeYear(y + 1) - DaysBeforeYear(y) ==
      365 + (if y % 4 == 0 then 1 else 0) - (if y % 100 == 0 then 1 else 0) + (if y % 400 == 0 then 1 else 0);
  }

  lemma EraStart(era: int)
    ensures DaysBeforeYear(1 + 400 * era) == DaysPer400Years * era
  {
    var n := 400 * era;
    assert n / 4 == 100 * era;
    assert n / 100 == 4 * era;
    assert n / 400 == era;
  }

  lemma {:induction false} YearsAscend(a: int, b: int)
    requires a < b
    ensures DaysBeforeYear(a + 1) <= DaysBeforeYear(b)
    decreases b - a
  {
    YearStep(a);
    if a + 1 < b {
      YearStep(a + 1);
      YearsAscend(a + 1, b);
    }
  }

  lemma MonthStep(m: int, y: int)
    requires 1 <= m <= 12
    ensures m < 12 ==> DaysBeforeMonth(m + 1, y) == DaysBeforeMonth(m, y) + DaysIn(m, y)
    ensures m == 12 ==> DaysBeforeMonth(m, y) + DaysIn(m, y) == DaysInYear(y)
  {
  }

  lemma {:induction false} MonthsAscend(a: int, b: int, y: int)
    requires 1 <= a < b <= 12
    ensures DaysBeforeMonth(a, y) + DaysIn(a, y) <= DaysBeforeMonth(b, y)
    decreases b - a
  {
    MonthStep(a, y);
    if a + 1 < b {
      MonthStep(a + 1, y);
      MonthsAscend(a + 1, b, y);
    }
  }

  lemma MonthWithinYear(m: int, y: int)
    requires 1 <= m <= 12
    ensures 0 <= DaysBeforeMonth(m, y)
    ensures DaysBeforeMonth(m, y) + DaysIn(m, y) <= DaysInYear(y)
  {
    MonthStep(12, y);
    if m < 12 {
      MonthsAscend(m, 12, y);
    }
  }

  /** The year whose days contain day number `days`, searching upwards from `y`. */
  function FindYear(days: int, y: int): (r: int)
    requires DaysBeforeYear(y) <= days
    ensures DaysBeforeYear(r) <= days < DaysBeforeYear(r + 1)
    decreases days - DaysBeforeYear(y)
  {
    YearStep(y);
    if days < DaysBeforeYear(y + 1) then y else FindYear(days, y + 1)
  }

  /** The month of year `y` containing day `doy` of that year, searching upwards from `m`. */
  function FindMonth(doy: int, y: int, m: int): (r: int)
    requires 1 <= m <= 12
    requires DaysBeforeMonth(m, y) <= doy < DaysInYear(y)
    ensures 1 <= r <= 12
    ensures DaysBeforeMonth(r, y) <= doy < DaysBeforeMonth(r, y) + DaysIn(r, y)
    decreases 12 - m
  {
    MonthStep(m, y);
    if m == 12 || doy < DaysBeforeMonth(m, y) + DaysIn(m, y) then m else FindMonth(doy, y, m + 1)
  }

  /** The UTC calendar reading of an instant (`t.UTC().Date()` and `t.UTC().Clock()`). */
  function CivilOf(t: Instant): (c: Civil)
    ensures Valid(c) && InstantOf(c) == t
  {
    var days, sod := t / SecondsPerDay, t % SecondsPerDay;
    var era := days / DaysPer400Years;
    EraStart(era);
    var y := FindYear(days, 1 + 400 * era);
    YearStep(y);
    var doy := days - DaysBeforeYear(y);
    var m := FindMonth(doy, y, 1);
    Civil(y, m, doy - DaysBeforeMonth(m, y) + 1, sod / 3600, sod % 3600 / 60, sod % 3600 % 60)
  }

  function Fields(c: Civil): seq<int> {
    [c.year, c.month, c.day, c.hour, c.minute, c.second]
  }

  /** `a` is an earlier calendar reading than `b`, field by field from the year down. */
  predicate CivilBefore(a: Civil, b: Civil) {
    IntsBelow(Fields(a), Fields(b))
  }

  function DateFields(c: Civil): seq<int> {
    [c.year, c.month, c.day]
  }

  function ClockFields(c: Civil): seq<int> {
    [c.hour, c.minute, c.second]
  }

  lemma CivilBeforeUnfold(a: Civil, b: Civil)
    ensures IntsBelow(DateFields(a), DateFields(b)) <==>
      a.year < b.year || (a.year == b.year && (a.month < b.month || (a.month == b.month && a.day < b.day)))
    ensures CivilBefore(a, b) <==>
      IntsBelow(DateFields(a), DateFields(b)) ||
      (DateFields(a) == DateFields(b) &&
        (a.hour < b.hour || (a.hour == b.hour &&
          (a.minute < b.minute || (a.minute == b.minute && a.second < b.second)))))
  {
    assert Fields(a) == DateFields(a) + ClockFields(a);
    assert Fields(b) == DateFields(b) + ClockFields(b);
    IntsBelowConcat(DateFields(a), ClockFields(a), DateFields(b), ClockFields(b));
    IntsBelow3(DateFields(a), DateFields(b));
    IntsBelow3(ClockFields(a), ClockFields(b));
  }

  lemma DayBounds(c: Civil)
    requires Valid(c)
    ensures DaysBeforeYear(c.year) <= DayNumber(c) < DaysBeforeYear(c.year + 1)
    ensures 0 <= TimeOfDay(c) < SecondsPerDay
  {
    MonthWithinYear(c.month, c.year);
    YearStep(c.year);
  }

  /** Earlier calendar readings denote earlier instants. */
  lemma InstantAscends(a: Civil, b: Civil)
    requires Valid(a) && Valid(b) && CivilBefore(a, b)
    ensures InstantOf(a) < InstantOf(b)
  {
    CivilBeforeUnfold(a, b);
    DayBounds(a);
    DayBounds(b);
    if a.year < b.year {
      YearsAscend(a.year, b.year);
      assert DayNumber(a) < DayNumber(b);
    } else if a.year == b.year && a.month < b.month {
      MonthsAscend(a.month, b.month, a.year);
      assert DayNumber(a) < DayNumber(b);
    } else if DateFields(a) == DateFields(b) {
      assert DayNumber(a) == DayNumber(b);
    }
  }

  lemma CivilTrichotomy(a: Civil, b: Civil)
    ensures a == b || CivilBefore(a, b) || CivilBefore(b, a)
  {
    CivilBeforeUnfold(a, b);
    CivilBeforeUnfold(b, a);
  }

  /** The instant order and the field-by-field order of valid calendar readings agree. */
  lemma {:induction false} InstantOrder(a: Civil, b: Civil)
    requires Valid(a) && Valid(b)
    ensures InstantOf(a) < InstantOf(b) <==> CivilBefore(a, b)
  {
    CivilTrichotomy(a, b);
    if CivilBefore(a, b) {
      InstantAscends(a, b);
    } else if CivilBefore(b, a) {
      InstantAscends(b, a);
    }
  }

  /** Reading a valid calendar value back from its instant gives the same value. */
  lemma {:induction false} CivilRoundTrip(c: Civil)
    requires Valid(c)
    ensures CivilOf(InstantOf(c)) == c
  {
    var c' := CivilOf(InstantOf(c));
    CivilTrichotomy(c, c');
    InstantOrder(c, c');
    InstantOrder(c', c);
  }

  // ---- Go's layouts "2006-01-02-15-04-05" and "/2006/01/02/" ----

  /** Go's "2006" element: four digits at least, a leading '-' for years before 0. */
  function YearText(y: int): string {
    if y < 0 then "-" + Pad(-y, 4) else Pad(y, 4)
  }

  function StampParts(c: Civil): seq<string>
    requires Valid(c)
  {
    [YearText(c.year), Pad(c.month, 2), Pad(c.day, 2), Pad(c.hour, 2), Pad(c.minute, 2), Pad(c.second, 2)]
  }

  function DirParts(c: Civil): seq<string>
    requires Valid(c)
  {
    [YearText(c.year), Pad(c.month, 2), Pad(c.day, 2)]
  }

  /** `t.Format("2006-01-02-15-04-05")` for a UTC instant. */
  function Stamp(t: Instant): string {
    Join(StampParts(CivilOf(t)), '-')
  }

  /** `t.Format("/2006/01/02/")` for a UTC instant. */
  function Dir(t: Instant): string {
    "/" + Join(DirParts(CivilOf(t)), '/') + "/"
  }

  /** Instants whose year has exactly four digits: the ones a log key can name. */
  predicate InStampRange(t: Instant) {
    0 <= CivilOf(t).year <= 9999
  }

  const StampWidths: seq<nat> := [4, 2, 2, 2, 2, 2]
  const DateWidths: seq<nat> := [4, 2, 2]

  function NatFields(c: Civil): (r: seq<nat>)
    requires Valid(c) && c.year >= 0
    ensures r == Fields(c)
  {
    [c.year, c.month, c.day, c.hour, c.minute, c.second]
  }

  function NatDate(c: Civil): (r: seq<nat>)
    requires Valid(c) && c.year >= 0
    ensures r == DateFields(c)
  {
    [c.year, c.month, c.day]
  }

  lemma FieldsFit(c: Civil)
    requires Valid(c) && 0 <= c.year <= 9999
    ensures Fits(NatFields(c), StampWidths) && Fits(NatDate(c), DateWidths)
    ensures StampParts(c) == PadAll(NatFields(c), StampWidths)
    ensures DirParts(c) == PadAll(NatDate(c), DateWidths)
    ensures forall i :: 0 <= i < 6 ==> |StampParts(c)[i]| == StampWidths[i]
    ensures forall i :: 0 <= i < 3 ==> |DirParts(c)[i]| == DateWidths[i]
  {
    FieldsBelowWidths(c);
    PartsPadded(c);
    PartLengths(c);
  }

  lemma FieldWidths()
    ensures Pow10(2) == 100 && Pow10(4) == 10000
  {
    assert Pow10(2) == 100;
  }

  lemma FieldsBelowWidths(c: Civil)
    requires Valid(c) && 0 <= c.year <= 9999
    ensures Fits(NatFields(c), StampWidths) && Fits(NatDate(c), DateWidths)
  {
    FieldWidths();
    assert DaysIn(c.month, c.year) <= 31;
  }

  lemma PartsPadded(c: Civil)
    requires Valid(c) && 0 <= c.year <= 9999
    ensures StampParts(c) == PadAll(NatFields(c), StampWidths)
    ensures DirParts(c) == PadAll(NatDate(c), DateWidths)
  {
    var p, q := PadAll(NatFields(c), StampWidths), PadAll(NatDate(c), DateWidths);
    assert p[0] == Pad(c.year, 4) && p[1] == Pad(c.month, 2) && p[2] == Pad(c.day, 2);
    assert p[3] == Pad(c.hour, 2) && p[4] == Pad(c.minute, 2) && p[5] == Pad(c.second, 2);
    assert q[0] == Pad(c.year, 4) && q[1] == Pad(c.month, 2) && q[2] == Pad(c.day, 2);
  }

  lemma PartLengths(c: Civil)
    requires Valid(c) && 0 <= c.year <= 9999
    ensures forall i :: 0 <= i < 6 ==> |StampParts(c)[i]| == StampWidths[i]
    ensures forall i :: 0 <= i < 3 ==> |DirParts(c)[i]| == DateWidths[i]
  {
    FieldWidths();
    assert DaysIn(c.month, c.year) <= 31;
    PadFacts(c.year, 4);
    PadFacts(c.month, 2);
    PadFacts(c.day, 2);
    PadFacts(c.hour, 2);
    PadFacts(c.minute, 2);
    PadFacts(c.second, 2);
  }

  /** Four-digit-year stamps sort lexicographically exactly as their instants do chronologically. */
  lemma StampOrder(t1: Instant, t2: Instant)
    requires InStampRange(t1) && InStampRange(t2)
    ensures Below(Stamp(t1), Stamp(t2)) <==> t1 < t2
  {
    var c1, c2 := CivilOf(t1), CivilOf(t2);
    FieldsFit(c1);
    FieldsFit(c2);
    PaddedJoinBelow(NatFields(c1), NatFields(c2), StampWidths, '-');
    InstantOrder(c1, c2);
  }

  /** Stamps and date directories of four-digit years have fixed lengths. */
  lemma LayoutLengths(t: Instant)
    requires InStampRange(t)
    ensures |Stamp(t)| == 19
    ensures |Dir(t)| == 12
  {
    var c := CivilOf(t);
    FieldsFit(c);
    SplitJoin(StampParts(c), StampWidths, '-');
    SplitFixedLength(Stamp(t), StampWidths, '-');
    SplitJoin(DirParts(c), DateWidths, '/');
    SplitFixedLength(Join(DirParts(c), '/'), DateWidths, '/');
  }

  /**
   * The date directories of two four-digit-year instants: the later one's
   * directory never sorts before the earlier one's, and they are equal
   * exactly when the dates are.
   */
  lemma DirOrder(t1: Instant, t2: Instant)
    requires InStampRange(t1) && InStampRange(t2) && t1 <= t2
    ensures Dir(t1) == Dir(t2) || Below(Dir(t1), Dir(t2))
    ensures Dir(t1) == Dir(t2) <==> DateFields(CivilOf(t1)) == DateFields(CivilOf(t2))
  {
    var c1, c2 := CivilOf(t1), CivilOf(t2);
    FieldsFit(c1);
    FieldsFit(c2);
    var j1, j2 := Join(DirParts(c1), '/'), Join(DirParts(c2), '/');
    PaddedJoinBelow(NatDate(c1), NatDate(c2), DateWidths, '/');
    InstantOrder(c2, c1);
    CivilTrichotomy(c1, c2);
    CivilBeforeUnfold(c1, c2);
    CivilBeforeUnfold(c2, c1);
    LayoutLengths(t1);
    LayoutLengths(t2);
    assert |j1| == |j2|;
    if IntsBelow(NatDate(c1), NatDate(c2)) {
      BelowConcat("/" + j1, "/", "/" + j2, "/");
      BelowConcat("/", j1, "/", j2);
    }
    if Dir(t1) == Dir(t2) {
      assert j1 == Dir(t1)[1..|Dir(t1)| - 1];
      assert j2 == Dir(t2)[1..|Dir(t2)| - 1];
      SplitJoin(DirParts(c1), DateWidths, '/');
      SplitJoin(DirParts(c2), DateWidths, '/');
      PadInjective(c1.year, c2.year, 4);
      PadInjective(c1.month, c2.month, 2);
      PadInjective(c1.day, c2.day, 2);
    }
  }

  // ---- Parsing a stamp back, as time.Parse("2006-01-02-15-04-05", s) does ----

  /**
   * The calendar reading written in a stamp: six zero-padded digit fields of
   * widths 4-2-2-2-2-2 joined by '-', forming a valid date and time.
   */
  function ParseStamp(s: string): (r: Option<Civil>)
    ensures r.Some? ==> Valid(r.value) && 0 <= r.value.year <= 9999
  {
    match ParseFields(s, StampWidths, '-')
    case None => None
    case Some(f) =>
      assert Pow10(4) == 10000;
      var c := Civil(f[0], f[1], f[2], f[3], f[4], f[5]);
      if Valid(c) then Some(c) else None
  }

  /** Parsing the stamp of a four-digit-year instant gives back that instant's reading. */
  lemma ParseStampOfStamp(t: Instant)
    requires InStampRange(t)
    ensures ParseStamp(Stamp(t)) == Some(CivilOf(t))
  {
    var c := CivilOf(t);
    FieldsFit(c);
    ParseFieldsOfJoin(NatFields(c), StampWidths, '-');
  }

  /** Whatever a stamp parses to, it is that reading's stamp. */
  lemma StampOfParseStamp(s: string)
    requires ParseStamp(s).Some?
    ensures InStampRange(InstantOf(ParseStamp(s).value))
    ensures Stamp(InstantOf(ParseStamp(s).value)) == s
  {
    var c := ParseStamp(s).value;
    CivilRoundTrip(c);
    assert forall i :: 0 <= i < |StampWidths| ==> StampWidths[i] >= 1;
    JoinOfParseFields(s, StampWidths, '-');
    FieldsFit(c);
    ParsedStampFields(s);
    assert Stamp(InstantOf(c)) == Join(StampParts(c), '-');
  }

  lemma ParsedStampFields(s: string)
    requires ParseStamp(s).Some?
    ensures NatFields(ParseStamp(s).value) == ParseFields(s, StampWidths, '-').value
  {
    var xs := ParseFields(s, StampWidths, '-').value;
    assert ParseStamp(s).value == Civil(xs[0], xs[1], xs[2], xs[3], xs[4], xs[5]);
  }
}

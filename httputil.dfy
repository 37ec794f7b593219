/**
 * Reading typed query parameters through out-parameters that share one
 * sticky error, with Go's `strconv.ParseInt(s, 10, 64)` and
 * `time.Parse(time.RFC3339, s)` as the parsers (section 5.6 of RFC 3339).
 */
module HttpUtil {
  import opened Common
  import opened Text
  import opened Calendar

  /** `url.Values`: every name present in a parsed query carries at least one value. */
  type Values = m: map<string, seq<string>> | forall k :: k in m ==> |m[k]| >= 1
    witness map[]

  /** A Go `(value, error)` pair in which the value is meaningful even when the error is set. */
  datatype Outcome<T> = Outcome(value: T, err: Option<Error>)

  /** The first value of a parameter, or "" when it is absent. */
  function Lookup(values: Values, name: string): string {
    if name in values then values[name][0] else ""
  }

  // ---- strconv.ParseInt(s, 10, 64) ----

  const MaxUint64: nat := 0xFFFF_FFFF_FFFF_FFFF
  const MaxInt64: int := 0x7FFF_FFFF_FFFF_FFFF
  const MinInt64: int := -0x8000_0000_0000_0000

  predicate IsInt64(n: int) {
    MinInt64 <= n <= MaxInt64
  }

  /** What `strconv.ParseUint` makes of a run of characters. */
  datatype UintScan = SyntaxErr | RangeErr | Value(n: nat)

  /**
   * Go's digit loop, left to right: a non-digit is a syntax error, but an
   * overflow is reported as soon as it happens, before later characters are seen.
   */
  function ScanUint(s: string, acc: nat): (r: UintScan)
    requires acc <= MaxUint64
    ensures r.Value? ==> r.n <= MaxUint64
  {
    if s == [] then Value(acc)
    else if !IsDigit(s[0]) then SyntaxErr
    else
      var n := acc * 10 + (s[0] as int - '0' as int);
      if n > MaxUint64 then RangeErr else ScanUint(s[1..], n)
  }

  /** The digits after an optional leading sign. */
  function Unsigned(s: string): string {
    if s != [] && (s[0] == '+' || s[0] == '-') then s[1..] else s
  }

  predicate Negative(s: string) {
    s != [] && s[0] == '-'
  }

  function SyntaxError(s: string): Error {
    "strconv.ParseInt: parsing \"" + s + "\": invalid syntax"
  }

  function RangeError(s: string): Error {
    "strconv.ParseInt: parsing \"" + s + "\": value out of range"
  }

  /**
   * `strconv.ParseInt(s, 10, 64)`: a syntax error yields 0; a value beyond
   * the 64-bit range yields the nearest bound together with a range error.
   */
  function ParseInt64(s: string): (r: Outcome<int>)
    ensures IsInt64(r.value)
  {
    var u := Unsigned(s);
    if s == [] || u == [] then Outcome(0, Some(SyntaxError(s)))
    else
      match ScanUint(u, 0)
      case SyntaxErr => Outcome(0, Some(SyntaxError(s)))
      case RangeErr => Outcome(if Negative(s) then MinInt64 else MaxInt64, Some(RangeError(s)))
      case Value(n) =>
        if !Negative(s) && n > MaxInt64 then Outcome(MaxInt64, Some(RangeError(s)))
        else if Negative(s) && n > -MinInt64 then Outcome(MinInt64, Some(RangeError(s)))
        else
          var v: int := if Negative(s) then -(n as int) else n;
          Outcome(v, None)
  }

  /** `strconv.FormatInt(n, 10)`. */
  function FormatInt(n: int): string {
    if n < 0 then "-" + Decimal(-n) else Decimal(n)
  }

  lemma {:induction false} DigitsValueCons(c: char, s: string)
    requires IsDigit(c) && AllDigits(s)
    ensures AllDigits([c] + s)
    ensures DigitsValue([c] + s) == (c as int - '0' as int) * Pow10(|s|) + DigitsValue(s)
  {
    var cs := [c] + s;
    var d := c as int - '0' as int;
    if s != [] {
      var init := s[..|s| - 1];
      var last := s[|s| - 1] as int - '0' as int;
      assert cs[..|cs| - 1] == [c] + init;
      DigitsValueCons(c, init);
      var p, v := Pow10(|init|), DigitsValue(init);
      assert Pow10(|s|) == 10 * p;
      assert cs[|cs| - 1] == s[|s| - 1];
      assert DigitsValue(cs) == 10 * (d * p + v) + last;
      assert DigitsValue(s) == 10 * v + last;
      LeadingDigit(d, p, v, last);
    } else {
      assert cs[..|cs| - 1] == [];
    }
  }

  lemma LeadingDigit(d: int, p: int, v: int, last: int)
    ensures 10 * (d * p + v) + last == d * (10 * p) + (10 * v + last)
  {
  }

  /** The digit loop computes the value of the digits when that value fits. */
  lemma ShiftDigit(acc: nat, d: nat, p: nat, rest: nat)
    requires p >= 1
    ensures acc * (10 * p) + (d * p + rest) == (acc * 10 + d) * p + rest
    ensures acc * 10 + d <= (acc * 10 + d) * p
  {
  }

  lemma {:induction false} ScanDigits(s: string, acc: nat)
    requires AllDigits(s)
    requires acc * Pow10(|s|) + DigitsValue(s) <= MaxUint64
    ensures acc <= MaxUint64
    ensures ScanUint(s, acc) == Value(acc * Pow10(|s|) + DigitsValue(s))
  {
    if s != [] {
      var d := s[0] as int - '0' as int;
      DigitsValueCons(s[0], s[1..]);
      assert [s[0]] + s[1..] == s;
      var p := Pow10(|s| - 1);
      assert Pow10(|s|) == 10 * p;
      ShiftDigit(acc, d, p, DigitsValue(s[1..]));
      ScanDigits(s[1..], acc * 10 + d);
    } else {
      assert acc * Pow10(0) == acc;
    }
  }

  /** Every 64-bit integer survives formatting and parsing back. */
  lemma ParseFormatInt(n: int)
    requires IsInt64(n)
    ensures ParseInt64(FormatInt(n)) == Outcome(n, None)
  {
    var m: nat := if n < 0 then -n else n;
    var digits := Decimal(m);
    PadFacts(m, 1);
    assert IsDigit(digits[0]);
    ScanDigits(digits, 0);
    assert 0 * Pow10(|digits|) + DigitsValue(digits) == m;
    var s := FormatInt(n);
    if n < 0 {
      assert s == "-" + digits && Negative(s);
      assert Unsigned(s) == digits;
    } else {
      assert s == digits && !Negative(s);
      assert Unsigned(s) == digits;
    }
  }

  /** What an accepted string looks like: an optional sign and the digits of the magnitude. */
  lemma ParsedDigits(s: string)
    requires ParseInt64(s).err.None?
    ensures AllDigits(Unsigned(s)) && |Unsigned(s)| >= 1
    ensures ParseInt64(s).value < 0 ==> Negative(s)
    ensures DigitsValue(Unsigned(s)) == if Negative(s) then -ParseInt64(s).value else ParseInt64(s).value
  {
    ScanSound(Unsigned(s), 0);
  }

  lemma {:induction false} ScanSound(s: string, acc: nat)
    requires acc <= MaxUint64
    requires ScanUint(s, acc).Value?
    ensures AllDigits(s)
    ensures ScanUint(s, acc).n == acc * Pow10(|s|) + DigitsValue(s)
  {
    if s != [] {
      var d := s[0] as int - '0' as int;
      var n := acc * 10 + d;
      assert ScanUint(s, acc) == ScanUint(s[1..], n);
      ScanSound(s[1..], n);
      DigitsValueCons(s[0], s[1..]);
      assert [s[0]] + s[1..] == s;
      var p := Pow10(|s| - 1);
      assert Pow10(|s|) == 10 * p;
      ShiftDigit(acc, d, p, DigitsValue(s[1..]));
    } else {
      assert acc * Pow10(0) == acc;
    }
  }

  // ---- time.Parse(time.RFC3339, s) ----

  const ClockWidths: seq<nat> := [2, 2, 2]

  /** The text after a fractional second ".ddd…", if any; the fraction itself is below the model's resolution. */
  function SkipFraction(z: string): string {
    if |z| >= 2 && z[0] == '.' && IsDigit(z[1]) then SkipDigits(z[1..]) else z
  }

  function SkipDigits(z: string): (r: string)
    ensures |r| <= |z|
  {
    if z != [] && IsDigit(z[0]) then SkipDigits(z[1..]) else z
  }

  /** The offset east of UTC in seconds written by "Z" or "±hh:mm". */
  function ZoneOffset(z: string): (r: Option<int>)
    ensures r.Some? ==> -86400 < r.value < 86400
  {
    if z == "Z" then Some(0)
    else if |z| == 6 && (z[0] == '+' || z[0] == '-') then
      match ParseFields(z[1..], [2, 2], ':')
      case Some(f) =>
        if f[0] <= 23 && f[1] <= 59 then
          var off: int := (f[0] * 60 + f[1]) * 60;
          Some(if z[0] == '-' then -off else off)
        else None
      case None => None
    else None
  }

  function TimeParseError(s: string): Error {
    "parsing time \"" + s + "\" as \"2006-01-02T15:04:05Z07:00\": cannot parse"
  }

  /**
   * `time.Parse(time.RFC3339, s)` truncated to whole seconds: a date and a
   * time of day at fixed positions, an optional fraction, and "Z" or a
   * numeric offset. A failure yields Go's zero time.
   */
  function ParseRFC3339(s: string): (r: Outcome<Instant>)
    ensures r.err.Some? ==> r.value == ZeroTime
  {
    if |s| < 19 || s[10] != 'T' then Outcome(ZeroTime, Some(TimeParseError(s)))
    else
      var date, clock := ParseFields(s[..10], DateWidths, '-'), ParseFields(s[11..19], ClockWidths, ':');
      if date.None? || clock.None? then Outcome(ZeroTime, Some(TimeParseError(s)))
      else
        var d, k := date.value, clock.value;
        var c := Civil(d[0], d[1], d[2], k[0], k[1], k[2]);
        if !Valid(c) then Outcome(ZeroTime, Some(TimeParseError(s)))
        else
          match ZoneOffset(SkipFraction(s[19..]))
          case Some(off) => Outcome(InstantOf(c) - off, None)
          case None => Outcome(ZeroTime, Some(TimeParseError(s)))
  }

  function NatClock(c: Civil): (r: seq<nat>)
    requires Valid(c)
    ensures r == ClockFields(c)
  {
    [c.hour, c.minute, c.second]
  }

  /** `t.UTC().Format(time.RFC3339)` for a four-digit-year instant. */
  function FormatRFC3339(t: Instant): string
    requires InStampRange(t)
  {
    var c := CivilOf(t);
    Join(PadAll(NatDate(c), DateWidths), '-') + "T" + Join(PadAll(NatClock(c), ClockWidths), ':') + "Z"
  }

  /** A date, a 'T', a time of day and "Z" read back as the instant they denote. */
  lemma ParseUtcParts(date: string, clock: string, c: Civil)
    requires Valid(c)
    requires |date| == 10 && |clock| == 8
    requires ParseFields(date, DateWidths, '-') == Some([c.year, c.month, c.day])
    requires ParseFields(clock, ClockWidths, ':') == Some([c.hour, c.minute, c.second])
    ensures ParseRFC3339(date + "T" + clock + "Z") == Outcome(InstantOf(c), None)
  {
    var s := date + "T" + clock + "Z";
    assert s[..10] == date;
    assert s[10] == 'T';
    assert s[11..19] == clock;
    assert s[19..] == "Z";
  }

  /** Every four-digit-year instant survives formatting and parsing back. */
  lemma ParseFormatRFC3339(t: Instant)
    requires InStampRange(t)
    ensures ParseRFC3339(FormatRFC3339(t)) == Outcome(t, None)
  {
    var c := CivilOf(t);
    FieldsFit(c);
    assert Pow10(2) == 100;
    assert Fits(NatClock(c), ClockWidths);
    var date := Join(PadAll(NatDate(c), DateWidths), '-');
    var clock := Join(PadAll(NatClock(c), ClockWidths), ':');
    ParseFieldsOfJoin(NatDate(c), DateWidths, '-');
    ParseFieldsOfJoin(NatClock(c), ClockWidths, ':');
    SplitFixedLength(date, DateWidths, '-');
    SplitFixedLength(clock, ClockWidths, ':');
    ParseUtcParts(date, clock, c);
  }

  // ---- The out-parameter helpers ----

  /** `queryStringItem`: the first value of `name` when present, the old value otherwise. */
  method QueryStringItem(values: Values, name: string, str: string) returns (str': string)
    ensures name in values ==> str' == values[name][0]
    ensures name !in values ==> str' == str
  {
    str' := str;
    if name in values {
      str' := values[name][0];
    }
  }

  /** What `queryRFC3339Item` leaves in its two out-parameters when they held `time` and `err`. */
  function RFC3339Item(values: Values, name: string, time: Instant, err: Option<Error>): (r: Outcome<Instant>)
    ensures r.err.None? ==> err.None?
    ensures err.Some? ==> r == Outcome(time, err)
  {
    if err.Some? || Lookup(values, name) == "" then Outcome(time, err) else ParseRFC3339(Lookup(values, name))
  }

  /** What `queryInt64Item` leaves in its two out-parameters when they held `n` and `err`. */
  function Int64Item(values: Values, name: string, n: int, err: Option<Error>): (r: Outcome<int>)
    ensures r.err.None? ==> err.None?
    ensures err.Some? ==> r == Outcome(n, err)
  {
    if err.Some? || Lookup(values, name) == "" then Outcome(n, err) else ParseInt64(Lookup(values, name))
  }

  /**
   * `queryRFC3339Item`: a set error, or an absent or empty parameter, leaves
   * both the time and the error as they were; otherwise both take the parse's result.
   */
  method QueryRFC3339Item(values: Values, name: string, time: Instant, err: Option<Error>)
    returns (time': Instant, err': Option<Error>)
    ensures err.Some? || Lookup(values, name) == "" ==> time' == time && err' == err
    ensures err.None? && Lookup(values, name) != "" ==>
      Outcome(time', err') == ParseRFC3339(Lookup(values, name))
    ensures Outcome(time', err') == RFC3339Item(values, name, time, err)
  {
    time', err' := time, err;
    if err.Some? {
      return;
    }
    var value := QueryStringItem(values, name, "");
    if value == "" {
      return;
    }
    var r := ParseRFC3339(value);
    time', err' := r.value, r.err;
  }

  /** `queryInt64Item`: as `QueryRFC3339Item`, with a base-10 64-bit integer. */
  method QueryInt64Item(values: Values, name: string, n: int, err: Option<Error>)
    returns (n': int, err': Option<Error>)
    ensures err.Some? || Lookup(values, name) == "" ==> n' == n && err' == err
    ensures err.None? && Lookup(values, name) != "" ==>
      Outcome(n', err') == ParseInt64(Lookup(values, name))
    ensures Outcome(n', err') == Int64Item(values, name, n, err)
  {
    n', err' := n, err;
    if err.Some? {
      return;
    }
    var value := QueryStringItem(values, name, "");
    if value == "" {
      return;
    }
    var r := ParseInt64(value);
    n', err' := r.value, r.err;
  }
}

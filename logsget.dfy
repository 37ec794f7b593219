/**
 * Retrieval of the log files of a time window (logsget.go): the key
 * parser, the `handleKey` state machine folded over the bucket listing,
 * the start-after offset of the listing, the retrying download of each
 * selected file, the streaming of its archive entries, and the request
 * handler that checks the query and the time range.
 */
module LogsGet {
  import opened Common
  import opened Text
  import opened Calendar
  import opened HttpUtil

  const MaxGetLogRangeInHours := 14
  const LogLookbackTimeInHours := 3
  const MaxDownloadRetries := 20

  /** `getLogsOperation`: whose logs, and the time window asked for. */
  datatype Operation = Operation(token: string, meetingId: int, instanceId: int, beginTime: Instant, endTime: Instant)

  /** `parsedKey`: a listed key with the timestamp its file name carries. */
  datatype ParsedKey = ParsedKey(key: string, timestamp: Instant)

  const FilePrefix := "/Fuze-"
  const FileSuffix := ".zip"

  // ---- parseKey ----

  /**
   * The stamp the regexp `/Fuze-(\d{4}-\d{2}-\d{2}-\d{2}-\d{2}-\d{2})\.zip$`
   * captures: the pattern has a fixed length of 29 and is anchored at the
   * end, so only the last 29 characters can match.
   */
  function MatchKey(key: string): (r: Option<string>)
    ensures r.Some? ==> |key| >= 29 && key == key[..|key| - 29] + FilePrefix + r.value + FileSuffix
  {
    var n := |key|;
    if n < 29 then None
    else
      var stamp := key[n - 23..n - 4];
      if key[n - 29..n - 23] == FilePrefix && key[n - 4..] == FileSuffix && ParseFields(stamp, StampWidths, '-').Some? then
        assert key == key[..n - 29] + key[n - 29..n - 23] + stamp + key[n - 4..];
        Some(stamp)
      else None
  }

  /** `parseKey`: the key with its UTC timestamp, or None when the name does not match or the stamp is no valid date and time. */
  function ParseKey(key: string): (r: Option<ParsedKey>)
    ensures r.Some? ==> r.value.key == key
  {
    match MatchKey(key)
    case None => None
    case Some(stamp) =>
      match ParseStamp(stamp)
      case None => None
      case Some(c) => Some(ParsedKey(key, InstantOf(c)))
  }

  /** The object name of a log file uploaded at `t`, without the ".zip": `prefix/YYYY/MM/DD/Fuze-YYYY-MM-DD-hh-mm-ss`. */
  function KeyBase(prefix: string, t: Instant): string {
    prefix + Dir(t) + "Fuze-" + Stamp(t)
  }

  /** The object name of a log file uploaded at `t` below `prefix`. */
  function LayoutKey(prefix: string, t: Instant): string {
    KeyBase(prefix, t) + FileSuffix
  }

  /** Every name ending in "/Fuze-" and the stamp of a four-digit-year instant parses to that instant. */
  lemma ParseKeyOfStamp(head: string, t: Instant)
    requires InStampRange(t)
    ensures ParseKey(head + FilePrefix + Stamp(t) + FileSuffix) == Some(ParsedKey(head + FilePrefix + Stamp(t) + FileSuffix, t))
  {
    var key := head + FilePrefix + Stamp(t) + FileSuffix;
    var n := |key|;
    LayoutLengths(t);
    ParseStampOfStamp(t);
    assert key[n - 29..n - 23] == FilePrefix;
    assert key[n - 23..n - 4] == Stamp(t);
    assert key[n - 4..] == FileSuffix;
  }

  /** What `parseKey` accepts is exactly such a name. */
  lemma ParseKeySound(key: string)
    requires ParseKey(key).Some?
    ensures InStampRange(ParseKey(key).value.timestamp)
    ensures key == key[..|key| - 29] + FilePrefix + Stamp(ParseKey(key).value.timestamp) + FileSuffix
  {
    var stamp := MatchKey(key).value;
    StampOfParseStamp(stamp);
  }

  /** The keys of the layout are accepted by `parseKey`, with the upload time as timestamp. */
  lemma ParseLayoutKey(prefix: string, t: Instant)
    requires InStampRange(t)
    ensures ParseKey(LayoutKey(prefix, t)) == Some(ParsedKey(LayoutKey(prefix, t), t))
  {
    var d := Dir(t);
    LayoutLengths(t);
    assert d == d[..11] + "/";
    assert LayoutKey(prefix, t) == (prefix + d[..11]) + FilePrefix + Stamp(t) + FileSuffix;
    ParseKeyOfStamp(prefix + d[..11], t);
  }

  lemma StampTailOrder(s: Instant, t: Instant)
    requires InStampRange(s) && InStampRange(t)
    ensures Below("Fuze-" + Stamp(s), "Fuze-" + Stamp(t)) <==> s < t
    ensures "Fuze-" + Stamp(s) == "Fuze-" + Stamp(t) <==> s == t
  {
    StampOrder(s, t);
    StampOrder(t, s);
    BelowConcat("Fuze-", Stamp(s), "Fuze-", Stamp(t));
    BelowIrreflexive("Fuze-");
    BelowIrreflexive(Stamp(s));
    if "Fuze-" + Stamp(s) == "Fuze-" + Stamp(t) {
      assert Stamp(s) == ("Fuze-" + Stamp(s))[5..];
      assert Stamp(t) == ("Fuze-" + Stamp(t))[5..];
    }
  }

  lemma DirTailOrder(s: Instant, t: Instant)
    requires InStampRange(s) && InStampRange(t)
    ensures Below(Dir(s) + "Fuze-" + Stamp(s), Dir(t) + "Fuze-" + Stamp(t)) <==> s < t
    ensures Dir(s) + "Fuze-" + Stamp(s) == Dir(t) + "Fuze-" + Stamp(t) <==> s == t
  {
    var fs, ft := "Fuze-" + Stamp(s), "Fuze-" + Stamp(t);
    assert Dir(s) + "Fuze-" + Stamp(s) == Dir(s) + fs;
    assert Dir(t) + "Fuze-" + Stamp(t) == Dir(t) + ft;
    StampTailOrder(s, t);
    StampTailOrder(t, s);
    LayoutLengths(s);
    LayoutLengths(t);
    BelowConcat(Dir(s), fs, Dir(t), ft);
    BelowIrreflexive(Dir(s));
    BelowAsymmetric(Dir(s), Dir(t));
    BelowAsymmetric(fs, ft);
    if s <= t {
      DirOrder(s, t);
    } else {
      DirOrder(t, s);
    }
    if Dir(s) + fs == Dir(t) + ft {
      assert Dir(s) == (Dir(s) + fs)[..12];
      assert Dir(t) == (Dir(t) + ft)[..12];
      assert fs == (Dir(s) + fs)[12..];
      assert ft == (Dir(t) + ft)[12..];
    }
  }

  lemma Regroup(a: string, b: string, c: string, d: string)
    ensures a + b + c + d == a + (b + c + d)
  {
  }

  /** Key bases under one prefix sort by name exactly as their instants sort by time. */
  lemma KeyBaseOrder(prefix: string, s: Instant, t: Instant)
    requires InStampRange(s) && InStampRange(t)
    ensures Below(KeyBase(prefix, s), KeyBase(prefix, t)) <==> s < t
    ensures KeyBase(prefix, s) == KeyBase(prefix, t) <==> s == t
  {
    DirTailOrder(s, t);
    Regroup(prefix, Dir(s), "Fuze-", Stamp(s));
    Regroup(prefix, Dir(t), "Fuze-", Stamp(t));
    CommonPrefix(prefix, Dir(s) + "Fuze-" + Stamp(s), Dir(t) + "Fuze-" + Stamp(t));
  }

  /** Log files under one prefix are listed in the order of their upload times. */
  lemma LayoutKeyOrder(prefix: string, s: Instant, t: Instant)
    requires InStampRange(s) && InStampRange(t)
    ensures Below(LayoutKey(prefix, s), LayoutKey(prefix, t)) <==> s < t
  {
    KeyBaseOrder(prefix, s, t);
    LayoutLengths(s);
    LayoutLengths(t);
    BelowConcat(KeyBase(prefix, s), FileSuffix, KeyBase(prefix, t), FileSuffix);
    BelowIrreflexive(FileSuffix);
  }

  // ---- handleKey and its state ----

  /** `state` without its operation: the last key at or before the window, and the keys gathered so far (nil is empty). */
  datatype ScanState = ScanState(prior: string, gathered: seq<string>)

  const Start := ScanState("", [])

  /** `handleKey` on a key that parsed. */
  function StepParsed(op: Operation, st: ScanState, pk: ParsedKey): (ScanState, bool) {
    if st.gathered == [] then
      if pk.timestamp > op.beginTime then
        (ScanState(st.prior, (if st.prior != "" then [st.prior] else []) + [pk.key]), !(pk.timestamp > op.endTime))
      else
        (ScanState(pk.key, []), true)
    else
      (ScanState(st.prior, st.gathered + [pk.key]), !(pk.timestamp > op.endTime))
  }

  /** `handleKey`: the new state, and whether the listing should go on. */
  function Step(op: Operation, st: ScanState, key: string): (r: (ScanState, bool))
    ensures ParseKey(key).None? ==> r == (st, true)
    ensures !r.1 ==> ParseKey(key).Some? && ParseKey(key).value.timestamp > op.endTime
    ensures st.gathered != [] ==> r.0.prior == st.prior && (r.0.gathered == st.gathered + [key] || r.0 == st)
  {
    match ParseKey(key)
    case None => (st, true)
    case Some(pk) => StepParsed(op, st, pk)
  }

  /** The rules of one `handleKey` call. */
  lemma StepRules(op: Operation, st: ScanState, key: string)
    ensures ParseKey(key).None? ==> Step(op, st, key) == (st, true)
    ensures ParseKey(key).Some? && st.gathered == [] && ParseKey(key).value.timestamp <= op.beginTime ==>
      Step(op, st, key) == (ScanState(key, []), true)
    ensures ParseKey(key).Some? && st.gathered == [] && ParseKey(key).value.timestamp > op.beginTime ==>
      Step(op, st, key).0.gathered == (if st.prior == "" then [key] else [st.prior, key])
    ensures ParseKey(key).Some? && st.gathered != [] ==>
      Step(op, st, key).0.gathered == st.gathered + [key]
    ensures ParseKey(key).Some? && (st.gathered != [] || ParseKey(key).value.timestamp > op.beginTime) ==>
      (Step(op, st, key).1 <==> ParseKey(key).value.timestamp <= op.endTime)
    ensures st.gathered <= Step(op, st, key).0.gathered
  {
  }

  /** `handleKey` folded over keys in order, stopping after the first key it rejects. */
  function Feed(op: Operation, st: ScanState, keys: seq<string>): (ScanState, bool)
    decreases |keys|
  {
    if keys == [] then (st, true)
    else
      var (st', more) := Step(op, st, keys[0]);
      if more then Feed(op, st', keys[1..]) else (st', false)
  }

  /** Feeding one more key: nothing happens once the fold has stopped. */
  lemma {:induction false} FeedSnoc(op: Operation, st: ScanState, keys: seq<string>, key: string)
    ensures Feed(op, st, keys + [key]) ==
      (var (st', more) := Feed(op, st, keys); if more then Step(op, st', key) else (st', false))
    decreases |keys|
  {
    if keys != [] {
      assert (keys + [key])[1..] == keys[1..] + [key];
      FeedSnoc(op, Step(op, st, keys[0]).0, keys[1..], key);
    } else {
      assert keys + [key] == [key];
    }
  }

  /** Feeding two runs of keys is feeding the second from where the first left off, unless the first stopped. */
  lemma {:induction false} FeedConcat(op: Operation, st: ScanState, a: seq<string>, b: seq<string>)
    ensures Feed(op, st, a + b) ==
      (var (st', more) := Feed(op, st, a); if more then Feed(op, st', b) else (st', false))
    decreases |a|
  {
    if a != [] {
      assert (a + b)[1..] == a[1..] + b;
      FeedConcat(op, Step(op, st, a[0]).0, a[1..], b);
    } else {
      assert a + b == b;
    }
  }

  // ---- The selection, stated on the parsed keys ----

  /** The keys `parseKey` accepts, in listing order. */
  function Parsed(keys: seq<string>): (r: seq<ParsedKey>)
    ensures forall i :: 0 <= i < |r| ==> ParseKey(r[i].key) == Some(r[i])
    ensures |r| <= |keys|
  {
    if keys == [] then []
    else
      match ParseKey(keys[0])
      case None => Parsed(keys[1..])
      case Some(pk) => [pk] + Parsed(keys[1..])
  }

  /** The key strings of parsed keys, in order. */
  function KeysOf(pks: seq<ParsedKey>): seq<string> {
    seq(|pks|, i requires 0 <= i < |pks| => pks[i].key)
  }

  lemma HeadSlice<T>(s: seq<T>, n: nat)
    requires 1 + n <= |s|
    ensures s[..1 + n] == [s[0]] + s[1..][..n]
  {
  }

  lemma KeysOfConcat(a: seq<ParsedKey>, b: seq<ParsedKey>)
    ensures KeysOf(a + b) == KeysOf(a) + KeysOf(b)
  {
  }

  /** Gathering the first key and then `n` more is gathering the first `1 + n` keys. */
  lemma KeysOfHead(g: seq<string>, pks: seq<ParsedKey>, n: nat)
    requires 1 + n <= |pks|
    ensures g + [pks[0].key] + KeysOf(pks[1..][..n]) == g + KeysOf(pks[..1 + n])
  {
    HeadSlice(pks, n);
    KeysOfConcat([pks[0]], pks[1..][..n]);
    assert KeysOf([pks[0]]) == [pks[0].key];
    var k := KeysOf(pks[1..][..n]);
    assert g + ([pks[0].key] + k) == g + [pks[0].key] + k;
  }

  /** `handleKey` folded over parsed keys only. */
  function FeedParsed(op: Operation, st: ScanState, pks: seq<ParsedKey>): (ScanState, bool)
    decreases |pks|
  {
    if pks == [] then (st, true)
    else
      var (st', more) := StepParsed(op, st, pks[0]);
      if more then FeedParsed(op, st', pks[1..]) else (st', false)
  }

  /** Keys that do not parse play no part in the fold. */
  lemma {:induction false} FeedSkipsUnparsed(op: Operation, st: ScanState, keys: seq<string>)
    ensures Feed(op, st, keys) == FeedParsed(op, st, Parsed(keys))
    decreases |keys|
  {
    if keys != [] {
      FeedSkipsUnparsed(op, Step(op, st, keys[0]).0, keys[1..]);
      FeedSkipsUnparsed(op, st, keys[1..]);
    }
  }

  /** The index of the first key stamped after `bound`, or the length when there is none. */
  function FirstAfter(pks: seq<ParsedKey>, bound: Instant): (r: nat)
    ensures r <= |pks|
    ensures forall i :: 0 <= i < r ==> pks[i].timestamp <= bound
    ensures r < |pks| ==> pks[r].timestamp > bound
  {
    if pks == [] then 0
    else if pks[0].timestamp > bound then 0
    else 1 + FirstAfter(pks[1..], bound)
  }

  /** The length of the prefix up to and including the first key stamped after `bound`. */
  function Through(pks: seq<ParsedKey>, bound: Instant): (r: nat)
    ensures r <= |pks|
  {
    var i := FirstAfter(pks, bound);
    if i < |pks| then i + 1 else i
  }

  /** Where the window opens: the first key after the begin time. */
  function Opening(op: Operation, pks: seq<ParsedKey>): nat {
    FirstAfter(pks, op.beginTime)
  }

  /** The listing is cut short: the window opened and a key after the end time was reached. */
  predicate Stops(op: Operation, pks: seq<ParsedKey>) {
    var open := Opening(op, pks);
    open < |pks| && FirstAfter(pks[open..], op.endTime) < |pks| - open
  }

  /**
   * The files a window needs, as the comment above `getLogKeys` describes:
   * nothing when no key is after the begin time; otherwise from the last key
   * at or before the begin time (if any) through the first key after the
   * end time (or the end of the listing).
   */
  function Select(op: Operation, pks: seq<ParsedKey>): (r: seq<ParsedKey>)
    ensures r == [] <==> forall i :: 0 <= i < |pks| ==> pks[i].timestamp <= op.beginTime
    ensures |r| <= |pks|
  {
    var open := Opening(op, pks);
    if open == |pks| then []
    else
      var lo := if open > 0 then open - 1 else 0;
      pks[lo..open + Through(pks[open..], op.endTime)]
  }

  lemma {:induction false} OpenPhase(op: Operation, p: string, g: seq<string>, pks: seq<ParsedKey>)
    requires g != []
    ensures FeedParsed(op, ScanState(p, g), pks) ==
      (ScanState(p, g + KeysOf(pks[..Through(pks, op.endTime)])), FirstAfter(pks, op.endTime) == |pks|)
    decreases |pks|
  {
    if pks == [] {
      assert g + KeysOf([]) == g;
    } else if pks[0].timestamp > op.endTime {
      assert pks[..1] == [pks[0]];
      assert KeysOf(pks[..1]) == [pks[0].key];
    } else {
      var g' := g + [pks[0].key];
      assert StepParsed(op, ScanState(p, g), pks[0]) == (ScanState(p, g'), true);
      assert FeedParsed(op, ScanState(p, g), pks) == FeedParsed(op, ScanState(p, g'), pks[1..]);
      OpenPhase(op, p, g', pks[1..]);
      var n := Through(pks[1..], op.endTime);
      assert FirstAfter(pks, op.endTime) == 1 + FirstAfter(pks[1..], op.endTime);
      assert Through(pks, op.endTime) == 1 + n;
      KeysOfHead(g, pks, n);
    }
  }

  /** Before the window opens, a run of keys at or before the begin time only moves `prior` along. */
  lemma {:induction false} ClosedPhaseShut(op: Operation, p: string, pks: seq<ParsedKey>)
    requires Opening(op, pks) == |pks|
    ensures FeedParsed(op, ScanState(p, []), pks) == (ScanState(if pks == [] then p else pks[|pks| - 1].key, []), true)
    decreases |pks|
  {
    if pks != [] {
      ClosedPhaseShut(op, pks[0].key, pks[1..]);
      if |pks| > 1 {
        assert pks[1..][|pks| - 2] == pks[|pks| - 1];
      }
    }
  }

  /** The gathered keys once the window opened, from the state the opening key met. */
  function OpenedWith(op: Operation, prior: string, rest: seq<ParsedKey>): seq<string> {
    (if prior != "" then [prior] else []) + KeysOf(rest[..Through(rest, op.endTime)])
  }

  /** The opening key emits the remembered prior key (when there is one) and starts the open phase. */
  lemma {:induction false} OpeningKey(op: Operation, p: string, pks: seq<ParsedKey>)
    requires pks != [] && pks[0].timestamp > op.beginTime
    ensures FeedParsed(op, ScanState(p, []), pks) ==
      (ScanState(p, OpenedWith(op, p, pks)), FirstAfter(pks, op.endTime) == |pks|)
  {
    var g := (if p != "" then [p] else []) + [pks[0].key];
    assert KeysOf([pks[0]]) == [pks[0].key];
    if pks[0].timestamp > op.endTime {
      assert pks[..1] == [pks[0]];
    } else {
      assert FeedParsed(op, ScanState(p, []), pks) == FeedParsed(op, ScanState(p, g), pks[1..]);
      OpenPhase(op, p, g, pks[1..]);
      var n := Through(pks[1..], op.endTime);
      assert FirstAfter(pks, op.endTime) == 1 + FirstAfter(pks[1..], op.endTime);
      assert Through(pks, op.endTime) == 1 + n;
      KeysOfHead(if p != "" then [p] else [], pks, n);
    }
  }

  /** The key before the opening becomes the prior that the opening emits. */
  lemma {:induction false} ClosedPhaseOpens(op: Operation, p: string, pks: seq<ParsedKey>)
    requires Opening(op, pks) < |pks|
    ensures var open := Opening(op, pks);
      var r := FeedParsed(op, ScanState(p, []), pks);
      var prior := if open > 0 then pks[open - 1].key else p;
      r == (ScanState(prior, OpenedWith(op, prior, pks[open..])), FirstAfter(pks[open..], op.endTime) == |pks| - open)
    decreases |pks|
  {
    if pks[0].timestamp > op.beginTime {
      assert pks[0..] == pks;
      OpeningKey(op, p, pks);
    } else {
      assert FeedParsed(op, ScanState(p, []), pks) == FeedParsed(op, ScanState(pks[0].key, []), pks[1..]);
      ClosedPhaseOpens(op, pks[0].key, pks[1..]);
      var open' := Opening(op, pks[1..]);
      assert Opening(op, pks) == open' + 1;
      assert pks[1..][open'..] == pks[1 + open'..];
      if open' > 0 {
        assert pks[1..][open' - 1] == pks[open'];
      }
    }
  }

  /** Every key `parseKey` accepts is a non-empty string. */
  lemma ParsedKeysNonEmpty(keys: seq<string>)
    ensures forall i :: 0 <= i < |Parsed(keys)| ==> Parsed(keys)[i].key != ""
  {
    forall i | 0 <= i < |Parsed(keys)|
      ensures Parsed(keys)[i].key != ""
    {
      assert MatchKey(Parsed(keys)[i].key).Some?;
    }
  }

  /**
   * The fold of `handleKey` over a listing from the initial state gathers
   * exactly the declarative selection of its parsed keys, and asks for the
   * listing to stop exactly when a key after the end time followed the opening.
   */
  lemma FeedSelects(op: Operation, keys: seq<string>)
    ensures Feed(op, Start, keys).0.gathered == KeysOf(Select(op, Parsed(keys)))
    ensures Feed(op, Start, keys).1 <==> !Stops(op, Parsed(keys))
  {
    FeedSkipsUnparsed(op, Start, keys);
    ParsedKeysNonEmpty(keys);
    FeedParsedSelects(op, Parsed(keys));
  }

  lemma FeedParsedSelects(op: Operation, pks: seq<ParsedKey>)
    requires forall i :: 0 <= i < |pks| ==> pks[i].key != ""
    ensures FeedParsed(op, Start, pks).0.gathered == KeysOf(Select(op, pks))
    ensures FeedParsed(op, Start, pks).1 <==> !Stops(op, pks)
  {
    var open := Opening(op, pks);
    if open == |pks| {
      ClosedPhaseShut(op, "", pks);
    } else {
      ClosedPhaseOpens(op, "", pks);
      SelectedKeys(op, pks);
    }
  }

  /** The keys of a selection whose window opens: the key before the opening, if any, then the open phase. */
  lemma SelectedKeys(op: Operation, pks: seq<ParsedKey>)
    requires forall i :: 0 <= i < |pks| ==> pks[i].key != ""
    requires Opening(op, pks) < |pks|
    ensures var open := Opening(op, pks);
      KeysOf(Select(op, pks)) == OpenedWith(op, if open > 0 then pks[open - 1].key else "", pks[open..])
  {
    var open := Opening(op, pks);
    var n := Through(pks[open..], op.endTime);
    if open > 0 {
      PriorSlice(pks, open, n);
      assert pks[open - 1].key != "";
    } else {
      assert pks[0..n] == pks[open..][..n];
    }
  }

  /** The keys from the one before the opening are that key followed by the keys from the opening. */
  lemma PriorSlice(pks: seq<ParsedKey>, open: nat, n: nat)
    requires 0 < open && open + n <= |pks|
    ensures KeysOf(pks[open - 1..open + n]) == [pks[open - 1].key] + KeysOf(pks[open..][..n])
  {
    assert pks[open - 1..open + n] == [pks[open - 1]] + pks[open..][..n];
    KeysOfCons(pks[open - 1], pks[open..][..n]);
  }

  lemma KeysOfCons(pk: ParsedKey, pks: seq<ParsedKey>)
    ensures KeysOf([pk] + pks) == [pk.key] + KeysOf(pks)
  {
    KeysOfConcat([pk], pks);
    assert KeysOf([pk]) == [pk.key];
  }

  /** Timestamps never decrease along the listing. */
  predicate Chronological(pks: seq<ParsedKey>) {
    forall i, j :: 0 <= i < j < |pks| ==> pks[i].timestamp <= pks[j].timestamp
  }

  /**
   * What the selection brackets. When the begin time is not after the end
   * time, every element but the last is at or before the end time, and the
   * last is after it when the listing was cut short. The first element is
   * the last key before the opening when there is one.
   */
  lemma SelectBounds(op: Operation, pks: seq<ParsedKey>)
    ensures var sel := Select(op, pks);
      op.beginTime <= op.endTime ==> forall i :: 0 <= i < |sel| - 1 ==> sel[i].timestamp <= op.endTime
    ensures var sel := Select(op, pks);
      Stops(op, pks) ==> sel != [] && sel[|sel| - 1].timestamp > op.endTime
    ensures var sel, open := Select(op, pks), Opening(op, pks);
      sel != [] && open > 0 ==> sel[0] == pks[open - 1] && sel[0].timestamp <= op.beginTime
    ensures var sel, open := Select(op, pks), Opening(op, pks);
      sel == [] <==> open == |pks|
    ensures forall i :: 0 <= i < Opening(op, pks) ==> pks[i].timestamp <= op.beginTime
  {
    if Opening(op, pks) < |pks| {
      if op.beginTime <= op.endTime {
        SelectBeforeEnd(op, pks);
      }
      if Stops(op, pks) {
        SelectLast(op, pks);
      }
    }
  }

  lemma SelectBeforeEnd(op: Operation, pks: seq<ParsedKey>)
    requires Opening(op, pks) < |pks| && op.beginTime <= op.endTime
    ensures var sel := Select(op, pks);
      forall i :: 0 <= i < |sel| - 1 ==> sel[i].timestamp <= op.endTime
  {
    var open := Opening(op, pks);
    var rest := pks[open..];
    var lo := if open > 0 then open - 1 else 0;
    var sel := Select(op, pks);
    assert sel == pks[lo..open + Through(rest, op.endTime)];
    forall i | 0 <= i < |sel| - 1
      ensures sel[i].timestamp <= op.endTime
    {
      if lo + i >= open {
        assert sel[i] == rest[lo + i - open];
      }
    }
  }

  lemma SelectLast(op: Operation, pks: seq<ParsedKey>)
    requires Opening(op, pks) < |pks| && Stops(op, pks)
    ensures var sel := Select(op, pks);
      sel != [] && sel[|sel| - 1].timestamp > op.endTime
  {
    var open := Opening(op, pks);
    var rest := pks[open..];
    var lo := if open > 0 then open - 1 else 0;
    var sel := Select(op, pks);
    assert sel == pks[lo..open + Through(rest, op.endTime)];
    assert sel[|sel| - 1] == rest[FirstAfter(rest, op.endTime)];
  }

  /** On a chronological listing, the selection holds every key stamped inside the window. */
  lemma SelectCovers(op: Operation, pks: seq<ParsedKey>)
    requires Chronological(pks)
    ensures forall i :: 0 <= i < |pks| && op.beginTime < pks[i].timestamp <= op.endTime ==> pks[i] in Select(op, pks)
  {
    var open := Opening(op, pks);
    forall i | 0 <= i < |pks| && op.beginTime < pks[i].timestamp <= op.endTime
      ensures pks[i] in Select(op, pks)
    {
      var rest := pks[open..];
      var close := FirstAfter(rest, op.endTime);
      var lo := if open > 0 then open - 1 else 0;
      assert open <= i;
      assert i - open < close;
      assert Select(op, pks) == pks[lo..open + Through(rest, op.endTime)];
      assert Select(op, pks)[i - lo] == pks[i];
    }
  }

  /** On a chronological listing, every selected key but the first is after the begin time. */
  lemma SelectAfterBegin(op: Operation, pks: seq<ParsedKey>)
    requires Chronological(pks)
    ensures var sel := Select(op, pks);
      forall i :: 1 <= i < |sel| ==> sel[i].timestamp > op.beginTime
  {
    var open := Opening(op, pks);
    if open < |pks| {
      var lo := if open > 0 then open - 1 else 0;
      var sel := Select(op, pks);
      assert sel == pks[lo..open + Through(pks[open..], op.endTime)];
      forall i | 1 <= i < |sel|
        ensures sel[i].timestamp > op.beginTime
      {
        assert sel[i] == pks[lo + i];
        assert open <= lo + i;
        assert pks[open].timestamp <= pks[lo + i].timestamp;
      }
    }
  }

  /**
   * On a chronological listing, a first selected key at or before the begin
   * time is the latest such key of the listing.
   */
  lemma SelectPriorIsLatest(op: Operation, pks: seq<ParsedKey>)
    requires Chronological(pks)
    requires Select(op, pks) != [] && Select(op, pks)[0].timestamp <= op.beginTime
    ensures forall i :: 0 <= i < |pks| && pks[i].timestamp <= op.beginTime ==>
      pks[i].timestamp <= Select(op, pks)[0].timestamp
  {
    var open := Opening(op, pks);
    var lo := if open > 0 then open - 1 else 0;
    assert Select(op, pks) == pks[lo..open + Through(pks[open..], op.endTime)];
    assert Select(op, pks)[0] == pks[lo];
    forall i | 0 <= i < |pks| && pks[i].timestamp <= op.beginTime
      ensures pks[i].timestamp <= pks[lo].timestamp
    {
      assert i < open;
    }
  }

  // ---- The scan object that handleKey updates ----

  /** `state`: the operation it serves, and the two fields `handleKey` updates through its pointer. */
  class KeyScan {
    const op: Operation
    var prior: string
    var gathered: seq<string>

    function State(): ScanState
      reads this
    {
      ScanState(prior, gathered)
    }

    constructor(op: Operation)
      ensures this.op == op && State() == Start
    {
      this.op := op;
      prior := "";
      gathered := [];
    }

    /** `handleKey(key, &state)`. */
    method HandleKey(key: string) returns (more: bool)
      modifies this
      ensures (State(), more) == Step(op, old(State()), key)
    {
      var pk := ParseKey(key);
      if pk.None? {
        return true;
      }
      if gathered == [] {
        if pk.value.timestamp > op.beginTime {
          if prior != "" {
            gathered := gathered + [prior];
          }
          gathered := gathered + [key];
          assert gathered == (if prior != "" then [prior] else []) + [key];
        } else {
          prior := key;
          return true;
        }
      } else {
        gathered := gathered + [key];
      }
      more := !(pk.value.timestamp > op.endTime);
    }
  }

  // ---- getLogKeys: where the listing starts, and the listing itself ----

  /** Three hours before the begin time, where the listing starts. */
  function ScanTime(op: Operation): Instant {
    op.beginTime - LogLookbackTimeInHours * SecondsPerHour
  }

  /** The start-after offset: the token, the scan time's date directory and its file name without ".zip". */
  function StartAfter(op: Operation): (r: string)
    ensures |op.token| < |r| && r[..|op.token|] == op.token && r[|op.token|] == '/'
  {
    op.token + Dir(ScanTime(op)) + "Fuze-" + Stamp(ScanTime(op))
  }

  /**
   * A log file under the token is listed (sorts strictly after the offset)
   * exactly when it was uploaded no earlier than the scan time.
   */
  lemma StartAfterOrder(op: Operation, t: Instant)
    requires InStampRange(ScanTime(op)) && InStampRange(t)
    ensures Below(StartAfter(op), LayoutKey(op.token, t)) <==> ScanTime(op) <= t
  {
    var s := ScanTime(op);
    KeyBaseOrder(op.token, s, t);
    LayoutLengths(s);
    LayoutLengths(t);
    assert StartAfter(op) == KeyBase(op.token, s) + [];
    BelowConcat(KeyBase(op.token, s), [], KeyBase(op.token, t), FileSuffix);
  }

  /**
   * One listing of the bucket below a prefix after an offset, as the
   * paginator delivers it: the pages it fetched, and the error of the
   * request after the last of them, if that request failed.
   */
  datatype Listing = Listing(pages: seq<seq<string>>, failure: Option<Error>)

  /** `ListObjectsV2Pages(bucket, prefix, startAfter)`, as an oracle. */
  type Lister = (string, string, string) -> Listing

  function Flatten(pages: seq<seq<string>>): seq<string> {
    if pages == [] then [] else pages[0] + Flatten(pages[1..])
  }

  lemma {:induction false} FlattenSnoc(pages: seq<seq<string>>, page: seq<string>)
    ensures Flatten(pages + [page]) == Flatten(pages) + page
  {
    if pages == [] {
      assert pages + [page] == [page];
    } else {
      assert (pages + [page])[1..] == pages[1..] + [page];
      FlattenSnoc(pages[1..], page);
    }
  }

  /**
   * What `getLogKeys` returns for a listing: the listing error when the
   * callback never stopped it and a page request failed, the gathered keys otherwise.
   */
  function LogKeys(op: Operation, listing: Listing): Result<seq<string>> {
    var (st, more) := Feed(op, Start, Flatten(listing.pages));
    if more && listing.failure.Some? then Err(listing.failure.value) else Ok(st.gathered)
  }

  /** The keys `getLogKeys` returns are the selection of the listed log files, or it returns the listing's error. */
  lemma LogKeysSelects(op: Operation, listing: Listing)
    ensures var pks := Parsed(Flatten(listing.pages));
      LogKeys(op, listing).Err? <==> listing.failure.Some? && !Stops(op, pks)
    ensures var pks := Parsed(Flatten(listing.pages));
      LogKeys(op, listing).Ok? ==> LogKeys(op, listing).value == KeysOf(Select(op, pks))
  {
    FeedSelects(op, Flatten(listing.pages));
  }

  /**
   * The callback `awsList` hands each page to: `handleKey` on every key of
   * the page in order, stopping at the first one it rejects.
   */
  method ListPage(scan: KeyScan, page: seq<string>) returns (more: bool)
    modifies scan
    ensures (scan.State(), more) == Feed(scan.op, old(scan.State()), page)
  {
    ghost var st0 := scan.State();
    var j := 0;
    more := true;
    while j < |page| && more
      invariant 0 <= j <= |page|
      invariant (scan.State(), more) == Feed(scan.op, st0, page[..j])
    {
      KeyStep(scan.op, st0, page, j, scan.State());
      more := scan.HandleKey(page[j]);
      j := j + 1;
    }
    PageEnd(scan.op, st0, page, j, scan.State(), more);
  }

  /** When the keys so far leave the listing going on, the next key is handled from where they left the state. */
  lemma KeyStep(op: Operation, st0: ScanState, page: seq<string>, j: nat, st: ScanState)
    requires j < |page| && Feed(op, st0, page[..j]) == (st, true)
    ensures Feed(op, st0, page[..j + 1]) == Step(op, st, page[j])
  {
    FeedSnoc(op, st0, page[..j], page[j]);
    assert page[..j + 1] == page[..j] + [page[j]];
  }

  /** Once every key of the page is handled, or one stops the listing, the fold over the page is settled. */
  lemma PageEnd(op: Operation, st0: ScanState, page: seq<string>, j: nat, st: ScanState, more: bool)
    requires j <= |page| && (j == |page| || !more)
    requires Feed(op, st0, page[..j]) == (st, more)
    ensures Feed(op, st0, page) == (st, more)
  {
    FeedConcat(op, st0, page[..j], page[j..]);
    assert page[..j] + page[j..] == page;
    if more {
      assert page[j..] == [];
    }
  }

  /** `getLogKeys`, with `awsList`'s loop over the pages and the keys of each page. */
  method GetLogKeys(bucket: string, op: Operation, list: Lister) returns (r: Result<seq<string>>)
    ensures r == LogKeys(op, list(bucket, op.token, StartAfter(op)))
  {
    var scan := new KeyScan(op);
    var listing := list(bucket, op.token, StartAfter(op));
    var pages := listing.pages;
    var i := 0;
    var more := true;
    assert pages[..0] == [];
    while i < |pages| && more
      invariant 0 <= i <= |pages|
      invariant (scan.State(), more) == Feed(op, Start, Flatten(pages[..i]))
      invariant scan.op == op
    {
      PageStep(op, pages, i, scan.State());
      more := ListPage(scan, pages[i]);
      i := i + 1;
    }
    ListingEnd(op, pages, i, scan.State(), more);
    if more && listing.failure.Some? {
      return Err(listing.failure.value);
    }
    return Ok(scan.gathered);
  }

  /** When the pages so far leave the listing going on, the next page is fed from where they left the state. */
  lemma PageStep(op: Operation, pages: seq<seq<string>>, i: nat, st: ScanState)
    requires i < |pages| && Feed(op, Start, Flatten(pages[..i])) == (st, true)
    ensures Feed(op, Start, Flatten(pages[..i + 1])) == Feed(op, st, pages[i])
  {
    FlattenPrefix(pages, i);
    FeedConcat(op, Start, Flatten(pages[..i]), pages[i]);
  }

  lemma FlattenPrefix(pages: seq<seq<string>>, i: nat)
    requires i < |pages|
    ensures Flatten(pages[..i + 1]) == Flatten(pages[..i]) + pages[i]
  {
    FlattenSnoc(pages[..i], pages[i]);
    assert pages[..i + 1] == pages[..i] + [pages[i]];
  }

  /** Once every page is fed, or a key stops the listing, the fold over all the pages is settled. */
  lemma ListingEnd(op: Operation, pages: seq<seq<string>>, i: nat, st: ScanState, more: bool)
    requires i <= |pages| && (i == |pages| || !more)
    requires Feed(op, Start, Flatten(pages[..i])) == (st, more)
    ensures Feed(op, Start, Flatten(pages)) == (st, more)
  {
    FeedConcat(op, Start, Flatten(pages[..i]), Flatten(pages[i..]));
    FlattenSplit(pages, i);
    if more {
      assert pages[i..] == [];
    }
  }

  lemma {:induction false} FlattenSplit(pages: seq<seq<string>>, i: nat)
    requires i <= |pages|
    ensures Flatten(pages) == Flatten(pages[..i]) + Flatten(pages[i..])
  {
    if i > 0 {
      FlattenSplit(pages[1..], i - 1);
      assert pages[1..][..i - 1] == pages[..i][1..];
      assert pages[1..][i - 1..] == pages[i..];
    } else {
      assert pages[..0] == [];
      assert pages[0..] == pages;
    }
  }

  // ---- retryDownload ----

  /** `awsDownload(bucket, key)` on its n-th call for that key within one `retryDownload`, as an oracle. */
  type Downloader = (string, string, nat) -> Result<bytes>

  /**
   * `retryDownload` from attempt `attempt` with `count` failures counted so
   * far in the whole retrieval: the first successful download, or the
   * error of the attempt that brought the shared count to 20.
   */
  function Retry(download: Downloader, bucket: string, key: string, attempt: nat, count: nat): (r: (Result<bytes>, nat))
    requires count < MaxDownloadRetries
    ensures count <= r.1 <= MaxDownloadRetries
    ensures r.0.Ok? <==> r.1 < MaxDownloadRetries
    decreases MaxDownloadRetries - count
  {
    match download(bucket, key, attempt)
    case Ok(body) => (Ok(body), count)
    case Err(e) =>
      if count + 1 == MaxDownloadRetries then (Err(e), count + 1)
      else Retry(download, bucket, key, attempt + 1, count + 1)
  }

  /**
   * A download succeeds with the first attempt that succeeds, after one
   * counted failure per earlier attempt; it fails only when every attempt
   * the remaining budget allows has failed.
   */
  lemma {:induction false} RetryOutcome(download: Downloader, bucket: string, key: string, attempt: nat, count: nat)
    requires count < MaxDownloadRetries
    ensures var (r, count') := Retry(download, bucket, key, attempt, count);
      r.Ok? ==>
        (r == download(bucket, key, attempt + (count' - count)) &&
         forall j :: attempt <= j < attempt + (count' - count) ==> download(bucket, key, j).Err?)
    ensures var (r, count') := Retry(download, bucket, key, attempt, count);
      r.Err? ==>
        (r == download(bucket, key, attempt + (MaxDownloadRetries - count) - 1) &&
         forall j :: attempt <= j < attempt + (MaxDownloadRetries - count) ==> download(bucket, key, j).Err?)
    decreases MaxDownloadRetries - count
  {
    if download(bucket, key, attempt).Err? && count + 1 < MaxDownloadRetries {
      RetryOutcome(download, bucket, key, attempt + 1, count + 1);
    }
  }

  /** `retryDownload(bucket, key, &errorCount)`. */
  method RetryDownload(bucket: string, key: string, download: Downloader, errorCount: nat)
    returns (r: Result<bytes>, errorCount': nat)
    requires errorCount < MaxDownloadRetries
    ensures (r, errorCount') == Retry(download, bucket, key, 0, errorCount)
  {
    var attempt := 0;
    errorCount' := errorCount;
    while true
      invariant errorCount' < MaxDownloadRetries
      invariant attempt == errorCount' - errorCount
      invariant Retry(download, bucket, key, 0, errorCount) == Retry(download, bucket, key, attempt, errorCount')
      decreases MaxDownloadRetries - errorCount'
    {
      r := download(bucket, key, attempt);
      if r.Ok? {
        return;
      }
      errorCount' := errorCount' + 1;
      if errorCount' == MaxDownloadRetries {
        return;
      }
      attempt := attempt + 1;
    }
  }

  // ---- getSingleLog and getLogs: streaming the archives' entries ----

  /**
   * One entry of an archive (`zr.File[i]`): the error of opening it, if
   * any; the bytes reading it yields; and the error that ends the reading
   * instead of end-of-file, if any.
   */
  datatype Entry = Entry(openErr: Option<Error>, data: bytes, readErr: Option<Error>)

  /** `zip.NewReader` over the downloaded bytes, as an oracle: the archive's entries in directory order. */
  type Unzipper = bytes -> Result<seq<Entry>>

  /**
   * The writer the logs are streamed to. A writer with a capacity takes
   * that many bytes in all and fails the write that would exceed it, as a
   * connection that the client closes does.
   */
  class Sink {
    var written: bytes
    const capacity: Option<nat>

    constructor(capacity: Option<nat>)
      ensures this.capacity == capacity && written == []
    {
      this.capacity := capacity;
      written := [];
    }

    /** `w.Write(p)`: a short write reports an error. */
    method Write(p: bytes) returns (err: Option<Error>)
      modifies this
      ensures (written, err) == Put(old(written), capacity, p)
    {
      var (w, e) := Put(written, capacity, p);
      written, err := w, e;
    }
  }

  /** What a write of `p` leaves behind when `w` has been written so far. */
  function Put(w: bytes, capacity: Option<nat>, p: bytes): (r: (bytes, Option<Error>))
    ensures |w| <= |r.0| <= |w| + |p| && r.0 == w + p[..|r.0| - |w|]
    ensures r.1.None? <==> capacity.None? || |w| + |p| <= capacity.value
    ensures r.1.None? ==> r.0 == w + p
    ensures capacity.Some? && |w| <= capacity.value ==> |r.0| <= capacity.value
  {
    if capacity.None? || |w| + |p| <= capacity.value then
      assert p[..|p|] == p;
      (w + p, None)
    else
      var room := if capacity.value > |w| then capacity.value - |w| else 0;
      (w + p[..room], Some("short write"))
  }

  /** `io.Copy(w, fr)` for an entry that opened. */
  function CopyEntry(w: bytes, capacity: Option<nat>, e: Entry): (r: (bytes, Option<Error>))
    ensures w <= r.0 && r.0 <= w + e.data
    ensures r.1.None? <==> e.readErr.None? && (capacity.None? || |w| + |e.data| <= capacity.value)
    ensures capacity.None? || |w| + |e.data| <= capacity.value ==> r == (w + e.data, e.readErr)
  {
    var (w', err) := Put(w, capacity, e.data);
    if err.Some? then (w', err) else (w', e.readErr)
  }

  /** The loop over `zr.File` in `getSingleLog`: open and copy each entry in order, stopping at the first failure. */
  function CopyEntries(w: bytes, capacity: Option<nat>, key: string, entries: seq<Entry>): (r: (bytes, Option<Error>))
    ensures w <= r.0
    ensures capacity.None? || |w| <= capacity.value ==>
      (r.1.None? <==> Intact(entries) && (capacity.None? || |w| + |Contents(entries)| <= capacity.value))
    ensures r.1.None? ==> r.0 == w + Contents(entries)
    ensures r.1.Some? ==> r.1.value in {"could not read zipentry: " + key, "could not copy zipentry: " + key}
    decreases |entries|
  {
    if entries == [] then (w, None)
    else if entries[0].openErr.Some? then (w, Some("could not read zipentry: " + key))
    else
      var (w', err) := CopyEntry(w, capacity, entries[0]);
      if err.Some? then (w', Some("could not copy zipentry: " + key))
      else
        IntactCons(entries);
        assert w' + Contents(entries[1..]) == w + Contents(entries);
        CopyEntries(w', capacity, key, entries[1..])
  }

  /** The result of streaming logs: what the writer holds, the error returned, and the shared failure count. */
  datatype Streamed = Streamed(written: bytes, err: Option<Error>, errorCount: nat)

  /** `getSingleLog`: download with retries, read the archive, and copy its entries. */
  function SingleLog(download: Downloader, unzip: Unzipper, capacity: Option<nat>, w: bytes,
                     bucket: string, key: string, count: nat): (r: Streamed)
    requires count < MaxDownloadRetries
    ensures r.err.None? ==> r.errorCount < MaxDownloadRetries
    ensures count <= r.errorCount <= MaxDownloadRetries
    ensures w <= r.written
  {
    var (body, count') := Retry(download, bucket, key, 0, count);
    match body
    case Err(e) => Streamed(w, Some(e), count')
    case Ok(b) =>
      match unzip(b)
      case Err(_) => Streamed(w, Some("could not read zip: " + key), count')
      case Ok(entries) =>
        var (w', err) := CopyEntries(w, capacity, key, entries);
        Streamed(w', err, count')
  }

  /**
   * How `getSingleLog` fails: with the download's error after the retries,
   * with "could not read zip" for an archive that cannot be read, or with
   * the copying loop's error. It succeeds exactly when the download and
   * the archive are read, every entry opens and reads cleanly, and the
   * writer, within its capacity, takes all of their bytes.
   */
  lemma SingleLogErrors(download: Downloader, unzip: Unzipper, capacity: Option<nat>, w: bytes,
                        bucket: string, key: string, count: nat)
    requires count < MaxDownloadRetries
    ensures var body := Retry(download, bucket, key, 0, count).0;
      var c := Retry(download, bucket, key, 0, count).1;
      var o := SingleLog(download, unzip, capacity, w, bucket, key, count);
      (body.Err? ==> o == Streamed(w, Some(body.error), c)) &&
      (body.Ok? && unzip(body.value).Err? ==> o == Streamed(w, Some("could not read zip: " + key), c)) &&
      (body.Ok? && unzip(body.value).Ok? ==>
        (o.written, o.err) == CopyEntries(w, capacity, key, unzip(body.value).value) && o.errorCount == c)
    ensures var body := Retry(download, bucket, key, 0, count).0;
      capacity.None? || |w| <= capacity.value ==>
      (SingleLog(download, unzip, capacity, w, bucket, key, count).err.None? <==>
         body.Ok? && unzip(body.value).Ok? && Intact(unzip(body.value).value) &&
         (capacity.None? || |w| + |Contents(unzip(body.value).value)| <= capacity.value))
  {
  }

  /** `getLogs`: every key in order with one shared failure count, stopping at the first error. */
  function Logs(download: Downloader, unzip: Unzipper, capacity: Option<nat>, w: bytes,
                bucket: string, keys: seq<string>, count: nat): (r: Streamed)
    requires count < MaxDownloadRetries
    ensures r.err.None? ==> r.errorCount < MaxDownloadRetries
    ensures count <= r.errorCount <= MaxDownloadRetries
    ensures w <= r.written
    decreases |keys|
  {
    if keys == [] then Streamed(w, None, count)
    else
      var o := SingleLog(download, unzip, capacity, w, bucket, keys[0], count);
      if o.err.Some? then o
      else Logs(download, unzip, capacity, o.written, bucket, keys[1..], o.errorCount)
  }

  /**
   * Keys are handled strictly in order: streaming a run of keys is
   * streaming its first part and, unless that failed, the rest from where
   * the first part left the writer and the failure count.
   */
  lemma {:induction false} LogsConcat(download: Downloader, unzip: Unzipper, capacity: Option<nat>, w: bytes,
                                      bucket: string, k1: seq<string>, k2: seq<string>, count: nat)
    requires count < MaxDownloadRetries
    ensures var o := Logs(download, unzip, capacity, w, bucket, k1, count);
      Logs(download, unzip, capacity, w, bucket, k1 + k2, count) ==
        if o.err.Some? then o else Logs(download, unzip, capacity, o.written, bucket, k2, o.errorCount)
    decreases |k1|
  {
    if k1 == [] {
      assert k1 + k2 == k2;
    } else {
      assert (k1 + k2)[1..] == k1[1..] + k2;
      var o := SingleLog(download, unzip, capacity, w, bucket, k1[0], count);
      if o.err.None? {
        LogsConcat(download, unzip, capacity, o.written, bucket, k1[1..], k2, o.errorCount);
      }
    }
  }

  /** The bytes of the entries, in order. */
  function Contents(entries: seq<Entry>): bytes {
    if entries == [] then [] else entries[0].data + Contents(entries[1..])
  }

  /** Every entry opens and reads without error. */
  predicate Intact(entries: seq<Entry>) {
    forall i :: 0 <= i < |entries| ==> entries[i].openErr.None? && entries[i].readErr.None?
  }

  /** An archive is intact exactly when its first entry and the rest are. */
  lemma IntactCons(entries: seq<Entry>)
    requires entries != []
    ensures Intact(entries) <==> entries[0].openErr.None? && entries[0].readErr.None? && Intact(entries[1..])
    ensures |Contents(entries)| == |entries[0].data| + |Contents(entries[1..])|
  {
    if entries[0].openErr.None? && entries[0].readErr.None? && Intact(entries[1..]) {
      forall i | 0 <= i < |entries|
        ensures entries[i].openErr.None? && entries[i].readErr.None?
      {
        if i > 0 {
          assert entries[i] == entries[1..][i - 1];
        }
      }
    }
    if Intact(entries) {
      forall i | 0 <= i < |entries[1..]|
        ensures entries[1..][i].openErr.None? && entries[1..][i].readErr.None?
      {
        assert entries[1..][i] == entries[i + 1];
      }
    }
  }

  /** An archive whose entries all open and read cleanly reaches a writer without a limit as their bytes in directory order. */
  lemma {:induction false} CopyIntact(w: bytes, key: string, entries: seq<Entry>)
    requires Intact(entries)
    ensures CopyEntries(w, None, key, entries) == (w + Contents(entries), None)
    decreases |entries|
  {
    if entries != [] {
      assert Put(w, None, entries[0].data) == (w + entries[0].data, None);
      assert CopyEntry(w, None, entries[0]) == (w + entries[0].data, None);
      assert CopyEntries(w, None, key, entries) == CopyEntries(w + entries[0].data, None, key, entries[1..]);
      assert Intact(entries[1..]) by {
        forall i | 0 <= i < |entries[1..]| ensures entries[1..][i] == entries[i + 1] { }
      }
      CopyIntact(w + entries[0].data, key, entries[1..]);
      assert w + entries[0].data + Contents(entries[1..]) == w + Contents(entries);
    } else {
      assert w + Contents(entries) == w + [] == w;
    }
  }

  /** Every key's first download succeeds and yields an archive whose entries all open and read cleanly. */
  predicate Clean(download: Downloader, unzip: Unzipper, bucket: string, keys: seq<string>) {
    forall i :: 0 <= i < |keys| ==> CleanKey(download, unzip, bucket, keys[i])
  }

  /** The first download of the key succeeds and yields an archive whose entries all open and read cleanly. */
  predicate CleanKey(download: Downloader, unzip: Unzipper, bucket: string, key: string) {
    download(bucket, key, 0).Ok? && unzip(download(bucket, key, 0).value).Ok? &&
    Intact(unzip(download(bucket, key, 0).value).value)
  }

  /** The bytes of every archive's entries, key after key. */
  function AllContents(download: Downloader, unzip: Unzipper, bucket: string, keys: seq<string>): bytes
    requires Clean(download, unzip, bucket, keys)
    decreases |keys|
  {
    if keys == [] then []
    else KeyContents(download, unzip, bucket, keys[0]) + AllContents(download, unzip, bucket, keys[1..])
  }

  /** The bytes of the entries of the archive a clean key downloads to, in directory order. */
  function KeyContents(download: Downloader, unzip: Unzipper, bucket: string, key: string): bytes
    requires CleanKey(download, unzip, bucket, key)
  {
    Contents(unzip(download(bucket, key, 0).value).value)
  }

  /**
   * When nothing fails, a writer without a limit receives the entries of
   * every archive in key order and directory order, no error is reported,
   * and no failure is counted.
   */
  lemma {:induction false} LogsClean(download: Downloader, unzip: Unzipper, w: bytes, bucket: string, keys: seq<string>, count: nat)
    requires count < MaxDownloadRetries
    requires Clean(download, unzip, bucket, keys)
    ensures Logs(download, unzip, None, w, bucket, keys, count) ==
      Streamed(w + AllContents(download, unzip, bucket, keys), None, count)
    decreases |keys|
  {
    if keys == [] {
      assert w + [] == w;
    } else {
      var first := LogsCleanStep(download, unzip, w, bucket, keys, count);
      LogsClean(download, unzip, w + first, bucket, keys[1..], count);
    }
  }

  /** A clean run of keys streams its first archive and goes on with the rest, which is clean too. */
  lemma LogsCleanStep(download: Downloader, unzip: Unzipper, w: bytes, bucket: string, keys: seq<string>, count: nat)
    returns (first: bytes)
    requires count < MaxDownloadRetries
    requires keys != [] && Clean(download, unzip, bucket, keys)
    ensures Clean(download, unzip, bucket, keys[1..])
    ensures Logs(download, unzip, None, w, bucket, keys, count) ==
      Logs(download, unzip, None, w + first, bucket, keys[1..], count)
    ensures w + first + AllContents(download, unzip, bucket, keys[1..]) == w + AllContents(download, unzip, bucket, keys)
  {
    assert CleanKey(download, unzip, bucket, keys[0]);
    first := KeyContents(download, unzip, bucket, keys[0]);
    var rest := AllContents(download, unzip, bucket, keys[1..]);
    assert w + first + rest == w + (first + rest);
    SingleLogClean(download, unzip, w, bucket, keys[0], count);
    assert Clean(download, unzip, bucket, keys[1..]) by {
      forall i | 0 <= i < |keys[1..]| ensures keys[1..][i] == keys[i + 1] { }
    }
  }

  /** A key whose first download succeeds with an intact archive streams its entries and counts no failure. */
  lemma SingleLogClean(download: Downloader, unzip: Unzipper, w: bytes, bucket: string, key: string, count: nat)
    requires count < MaxDownloadRetries
    requires CleanKey(download, unzip, bucket, key)
    ensures SingleLog(download, unzip, None, w, bucket, key, count) ==
      Streamed(w + KeyContents(download, unzip, bucket, key), None, count)
  {
    var entries := unzip(download(bucket, key, 0).value).value;
    assert Retry(download, bucket, key, 0, count) == (download(bucket, key, 0), count);
    CopyIntact(w, key, entries);
  }

  /** The loop over `zr.File` in `getSingleLog`: open each entry and copy it to the writer, in directory order. */
  method CopyArchive(w: Sink, key: string, entries: seq<Entry>) returns (err: Option<Error>)
    modifies w
    ensures (w.written, err) == CopyEntries(old(w.written), w.capacity, key, entries)
  {
    var i := 0;
    while i < |entries|
      invariant 0 <= i <= |entries|
      invariant CopyEntries(old(w.written), w.capacity, key, entries) == CopyEntries(w.written, w.capacity, key, entries[i..])
    {
      var f := entries[i];
      assert entries[i..][1..] == entries[i + 1..];
      if f.openErr.Some? {
        return Some("could not read zipentry: " + key);
      }
      var copyErr := w.Write(f.data);
      if copyErr.None? {
        copyErr := f.readErr;
      }
      if copyErr.Some? {
        return Some("could not copy zipentry: " + key);
      }
      i := i + 1;
    }
    return None;
  }

  /** `getSingleLog(w, bucket, key, &errorCount)`. */
  method GetSingleLog(w: Sink, bucket: string, key: string, download: Downloader, unzip: Unzipper, errorCount: nat)
    returns (err: Option<Error>, errorCount': nat)
    requires errorCount < MaxDownloadRetries
    modifies w
    ensures Streamed(w.written, err, errorCount') ==
      SingleLog(download, unzip, w.capacity, old(w.written), bucket, key, errorCount)
  {
    var body;
    body, errorCount' := RetryDownload(bucket, key, download, errorCount);
    if body.Err? {
      return Some(body.error), errorCount';
    }
    var zr := unzip(body.value);
    if zr.Err? {
      return Some("could not read zip: " + key), errorCount';
    }
    err := CopyArchive(w, key, zr.value);
  }

  /** `getLogs(w, bucket, keys)`. */
  method GetLogs(w: Sink, bucket: string, keys: seq<string>, download: Downloader, unzip: Unzipper)
    returns (err: Option<Error>)
    modifies w
    ensures (w.written, err) == (var o := Logs(download, unzip, w.capacity, old(w.written), bucket, keys, 0); (o.written, o.err))
  {
    var errorCount: nat := 0;
    var i := 0;
    while i < |keys|
      invariant 0 <= i <= |keys|
      invariant errorCount < MaxDownloadRetries
      invariant Logs(download, unzip, w.capacity, old(w.written), bucket, keys, 0) ==
        Logs(download, unzip, w.capacity, w.written, bucket, keys[i..], errorCount)
    {
      assert keys[i..][1..] == keys[i + 1..];
      err, errorCount := GetSingleLog(w, bucket, keys[i], download, unzip, errorCount);
      if err.Some? {
        return;
      }
      i := i + 1;
    }
    return None;
  }

  // ---- logsGet: the request handler ----

  /** `int(d.Hours())` for a duration of `d` seconds: the whole hours, truncated toward zero. */
  function WholeHours(d: int): (r: int)
    ensures d >= 0 ==> 0 <= r && r * SecondsPerHour <= d < (r + 1) * SecondsPerHour
    ensures d < 0 ==> r <= 0 && (r - 1) * SecondsPerHour < d <= r * SecondsPerHour
  {
    if d >= 0 then d / SecondsPerHour else -((-d) / SecondsPerHour)
  }

  /** The range test of `logsGet`: the end time is set, and the window spans at most 14 whole hours. */
  predicate RangeAccepted(beginTime: Instant, endTime: Instant) {
    !(endTime == ZeroTime || WholeHours(endTime - beginTime) > MaxGetLogRangeInHours)
  }

  /**
   * Truncation means a window is accepted up to one second short of 15
   * hours; a window whose end is before its begin is never too long.
   */
  lemma RangeCheck(beginTime: Instant, endTime: Instant)
    ensures RangeAccepted(beginTime, endTime) <==>
      endTime != ZeroTime && endTime - beginTime < (MaxGetLogRangeInHours + 1) * SecondsPerHour
  {
    var d := endTime - beginTime;
    if d >= 0 {
      assert WholeHours(d) > MaxGetLogRangeInHours <==> d >= (MaxGetLogRangeInHours + 1) * SecondsPerHour;
    } else {
      assert WholeHours(d) <= 0;
    }
  }

  /**
   * The operation the query describes, and the first error met reading it:
   * `meeting_id`, `instance_id`, `begin_time` and `end_time` in that order,
   * each read only while no error is set and only when present and non-empty.
   */
  function QueryOperation(q: Values): (r: Outcome<Operation>)
  {
    var m := Int64Item(q, "meeting_id", 0, None);
    var i := Int64Item(q, "instance_id", 0, m.err);
    var b := RFC3339Item(q, "begin_time", ZeroTime, i.err);
    var e := RFC3339Item(q, "end_time", ZeroTime, b.err);
    Outcome(Operation(Lookup(q, "token"), m.value, i.value, b.value, e.value), e.err)
  }

  /** A parameter that is absent or empty, or that parses. */
  predicate Readable(q: Values, name: string, isTime: bool) {
    Lookup(q, name) == "" ||
    (if isTime then ParseRFC3339(Lookup(q, name)).err.None? else ParseInt64(Lookup(q, name)).err.None?)
  }

  /** The query is refused as malformed exactly when one of its four typed parameters is present and does not parse. */
  lemma QueryErrors(q: Values)
    ensures QueryOperation(q).err.None? <==>
      Readable(q, "meeting_id", false) && Readable(q, "instance_id", false) &&
      Readable(q, "begin_time", true) && Readable(q, "end_time", true)
  {
  }

  /**
   * Only the first failure is recorded: the error is that of the first
   * parameter that does not parse, and the parameters after it keep their
   * zero values.
   */
  lemma QueryFirstError(q: Values)
    ensures !Readable(q, "meeting_id", false) ==>
      QueryOperation(q) == Outcome(Operation(Lookup(q, "token"), ParseInt64(Lookup(q, "meeting_id")).value, 0, ZeroTime, ZeroTime),
                                   ParseInt64(Lookup(q, "meeting_id")).err)
    ensures Readable(q, "meeting_id", false) && !Readable(q, "instance_id", false) ==>
      QueryOperation(q).err == ParseInt64(Lookup(q, "instance_id")).err &&
      QueryOperation(q).value.beginTime == ZeroTime && QueryOperation(q).value.endTime == ZeroTime
    ensures Readable(q, "meeting_id", false) && Readable(q, "instance_id", false) && !Readable(q, "begin_time", true) ==>
      QueryOperation(q).err == ParseRFC3339(Lookup(q, "begin_time")).err && QueryOperation(q).value.endTime == ZeroTime
  {
  }

  /** A query that gives each of the five parameters one value. */
  function QueryOfTexts(token: string, meetingId: string, instanceId: string, beginTime: string, endTime: string): (q: Values)
    ensures Lookup(q, "token") == token && Lookup(q, "meeting_id") == meetingId && Lookup(q, "instance_id") == instanceId
    ensures Lookup(q, "begin_time") == beginTime && Lookup(q, "end_time") == endTime
  {
    map["token" := [token], "meeting_id" := [meetingId], "instance_id" := [instanceId],
        "begin_time" := [beginTime], "end_time" := [endTime]]
  }

  /** The query a client builds from an operation. */
  function QueryOf(op: Operation): Values
    requires InStampRange(op.beginTime) && InStampRange(op.endTime)
  {
    QueryOfTexts(op.token, FormatInt(op.meetingId), FormatInt(op.instanceId), FormatRFC3339(op.beginTime), FormatRFC3339(op.endTime))
  }

  /** A parameter written from a value reads back as that value. */
  lemma IntItemRoundTrip(q: Values, name: string, n: int)
    requires IsInt64(n) && Lookup(q, name) == FormatInt(n)
    ensures Int64Item(q, name, 0, None) == Outcome(n, None)
  {
    ParseFormatInt(n);
    assert ParseInt64("").err.Some?;
  }

  lemma TimeItemRoundTrip(q: Values, name: string, t: Instant)
    requires InStampRange(t) && Lookup(q, name) == FormatRFC3339(t)
    ensures RFC3339Item(q, name, ZeroTime, None) == Outcome(t, None)
  {
    ParseFormatRFC3339(t);
    assert ParseRFC3339("").err.Some?;
  }

  /** Reading a query that was written from an operation gives back that operation. */
  lemma QueryRoundTrip(op: Operation)
    requires IsInt64(op.meetingId) && IsInt64(op.instanceId)
    requires InStampRange(op.beginTime) && InStampRange(op.endTime)
    ensures QueryOperation(QueryOf(op)) == Outcome(op, None)
  {
    var q := QueryOf(op);
    IntItemRoundTrip(q, "meeting_id", op.meetingId);
    IntItemRoundTrip(q, "instance_id", op.instanceId);
    TimeItemRoundTrip(q, "begin_time", op.beginTime);
    TimeItemRoundTrip(q, "end_time", op.endTime);
  }

  /** `meetingInstanceInfo`: when a meeting instance started and ended. */
  datatype MeetingInstance = MeetingInstance(startedAt: Instant, endedAt: Instant)

  /** `dbGetMeetingInstanceInfo(ctx, id)`, as an oracle: an error, no such instance, or its times. */
  type MeetingLookup = int -> Result<Option<MeetingInstance>>

  /**
   * The operation whose logs are fetched: the query's own, or, when a
   * meeting or an instance id is given, the query's with the window of the
   * instance looked up by its instance id. The result is an error when the
   * lookup fails, and None when there is no such instance.
   */
  function Effective(op: Operation, lookup: MeetingLookup): (r: Result<Option<Operation>>)
    ensures op.meetingId == 0 && op.instanceId == 0 ==> r == Ok(Some(op))
    ensures r.Ok? && r.value.Some? ==>
      r.value.value.(beginTime := op.beginTime, endTime := op.endTime) == op
  {
    if op.meetingId == 0 && op.instanceId == 0 then Ok(Some(op))
    else
      match lookup(op.instanceId)
      case Err(e) => Err(e)
      case Ok(None) => Ok(None)
      case Ok(Some(mi)) => Ok(Some(op.(beginTime := mi.startedAt, endTime := mi.endedAt)))
  }

  /** The handler `logsGet` returns: a 400, a 500, or the streaming of these keys. */
  datatype Response = BadRequest | InternalServerError | StreamLogs(keys: seq<string>)

  /** The last step of `logsGet`: refuse a window that is too long or has no end, else list its keys. */
  function Fetch(op: Operation, list: Lister): Response {
    if !RangeAccepted(op.beginTime, op.endTime) then BadRequest
    else
      match LogKeys(op, list(UploadBucket, op.token, StartAfter(op)))
      case Err(_) => InternalServerError
      case Ok(keys) => StreamLogs(keys)
  }

  /** `logsGet`: the response to a query, given the meeting database and the bucket listing. */
  function Answer(q: Values, lookup: MeetingLookup, list: Lister): Response {
    var parsed := QueryOperation(q);
    if parsed.err.Some? || parsed.value.token == "" then BadRequest
    else
      match Effective(parsed.value, lookup)
      case Err(_) => InternalServerError
      case Ok(None) => BadRequest
      case Ok(Some(op)) => Fetch(op, list)
  }

  /**
   * A request is answered with a stream only when its query is well formed,
   * names a token, and yields a window that ends and spans less than 15
   * hours; the stream is then the selection of the window's log files.
   */
  lemma AnswerStreams(q: Values, lookup: MeetingLookup, list: Lister)
    requires Answer(q, lookup, list).StreamLogs?
    ensures QueryOperation(q).err.None? && QueryOperation(q).value.token != ""
    ensures Effective(QueryOperation(q).value, lookup).Ok? && Effective(QueryOperation(q).value, lookup).value.Some?
    ensures var op := Effective(QueryOperation(q).value, lookup).value.value;
      op.endTime != ZeroTime && op.endTime - op.beginTime < (MaxGetLogRangeInHours + 1) * SecondsPerHour &&
      Answer(q, lookup, list).keys == KeysOf(Select(op, Parsed(Flatten(list(UploadBucket, op.token, StartAfter(op)).pages))))
  {
    var op := Effective(QueryOperation(q).value, lookup).value.value;
    RangeCheck(op.beginTime, op.endTime);
    LogKeysSelects(op, list(UploadBucket, op.token, StartAfter(op)));
  }

  /** Without a meeting or instance id, a window of 15 hours or more, or with no end, is refused as a bad request. */
  lemma AnswerRefusesLongWindow(q: Values, lookup: MeetingLookup, list: Lister)
    requires QueryOperation(q).err.None? && QueryOperation(q).value.meetingId == 0 && QueryOperation(q).value.instanceId == 0
    requires var op := QueryOperation(q).value;
      op.endTime == ZeroTime || op.endTime - op.beginTime >= (MaxGetLogRangeInHours + 1) * SecondsPerHour
    ensures Answer(q, lookup, list) == BadRequest
  {
    var op := QueryOperation(q).value;
    RangeCheck(op.beginTime, op.endTime);
  }

  /** The reading of the query at the head of `logsGet`. */
  method ReadGetLogsQuery(q: Values) returns (op: Operation, err: Option<Error>)
    ensures Outcome(op, err) == QueryOperation(q)
  {
    err := None;
    var token := QueryStringItem(q, "token", "");
    var meetingId, instanceId, beginTime, endTime := 0, 0, ZeroTime, ZeroTime;
    meetingId, err := QueryInt64Item(q, "meeting_id", meetingId, err);
    instanceId, err := QueryInt64Item(q, "instance_id", instanceId, err);
    beginTime, err := QueryRFC3339Item(q, "begin_time", beginTime, err);
    endTime, err := QueryRFC3339Item(q, "end_time", endTime, err);
    op := Operation(token, meetingId, instanceId, beginTime, endTime);
  }

  /** The range check and listing at the tail of `logsGet`. */
  method FetchKeys(op: Operation, list: Lister) returns (resp: Response)
    ensures resp == Fetch(op, list)
  {
    if op.endTime == ZeroTime || WholeHours(op.endTime - op.beginTime) > MaxGetLogRangeInHours {
      return BadRequest;
    }
    var keys := GetLogKeys(UploadBucket, op, list);
    if keys.Err? {
      return InternalServerError;
    }
    return StreamLogs(keys.value);
  }

  /** `logsGet` itself: read the query, check it, look up the meeting instance, and list the keys. */
  method LogsGetHandler(q: Values, lookup: MeetingLookup, list: Lister) returns (resp: Response)
    ensures resp == Answer(q, lookup, list)
  {
    var op, err := ReadGetLogsQuery(q);
    if err.Some? {
      return BadRequest;
    }
    if op.token == "" {
      return BadRequest;
    }
    if op.meetingId != 0 || op.instanceId != 0 {
      var mi := lookup(op.instanceId);
      if mi.Err? {
        return InternalServerError;
      }
      if mi.value.None? {
        return BadRequest;
      }
      op := op.(beginTime := mi.value.value.startedAt, endTime := mi.value.value.endedAt);
    }
    resp := FetchKeys(op, list);
  }

  /**
   * The handler returned for a stream: stream the logs and report in the
   * `X-Streaming-Error` trailer whether that failed.
   */
  method ServeLogs(w: Sink, keys: seq<string>, download: Downloader, unzip: Unzipper) returns (trailer: string)
    modifies w
    ensures var o := Logs(download, unzip, w.capacity, old(w.written), UploadBucket, keys, 0);
      w.written == o.written && trailer == (if o.err.Some? then "true" else "false")
  {
    var err := GetLogs(w, UploadBucket, keys, download, unzip);
    trailer := if err.Some? then "true" else "false";
  }
}

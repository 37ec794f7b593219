/**
 * Handing out signed upload URLs (loguploadurl.go): the token checks, the
 * three object-name patterns and the rule that picks one, the rewrites of
 * the file name and the device id, and the date taken from a meeting instance.
 */
module LogUploadUrl {
  import opened Common
  import opened Text
  import opened Calendar
  import opened HttpUtil

  // ---- isWardenToken and checkToken ----

  /** `isWardenToken`: only the length of the token is looked at. */
  predicate IsWardenToken(token: string) {
    41 < |token| < 100
  }

  /** `unicode.ToUpper` on the ASCII letters, the only characters whose upper case is in "BEARER". */
  function UpperAscii(s: string): (r: string)
    ensures |r| == |s|
  {
    seq(|s|, i requires 0 <= i < |s| => if 'a' <= s[i] <= 'z' then (s[i] as int - 32) as char else s[i])
  }

  /** The first value of an `authorization` header that carries a scheme spelled "bearer" in any case. */
  predicate BearerHeader(header: Values) {
    "authorization" in header && |header["authorization"][0]| > 6 &&
    UpperAscii(header["authorization"][0][..6]) == "BEARER"
  }

  /**
   * `checkToken`: a warden token must equal what follows the seventh
   * character of a bearer `authorization` header, or else the first
   * `fz-token` header; without either header it is refused.
   */
  function CheckToken(token: string, header: Values): (r: bool)
    ensures r <==> (IsWardenToken(token) &&
      if BearerHeader(header) then token == header["authorization"][0][7..]
      else "fz-token" in header && token == header["fz-token"][0])
  {
    if !IsWardenToken(token) then false
    else if BearerHeader(header) then token == header["authorization"][0][7..]
    else if "fz-token" in header then token == header["fz-token"][0]
    else false
  }

  /**
   * A header written as section 2.1 of RFC 6750 describes it, with the
   * scheme in any case and any character after it, admits exactly the
   * warden token it carries; an `fz-token` header alongside it is ignored.
   */
  lemma BearerAccepted(token: string, scheme: string, gap: char, other: Values)
    requires |scheme| == 6 && UpperAscii(scheme) == "BEARER"
    ensures CheckToken(token, other["authorization" := [scheme + [gap] + token]]) == IsWardenToken(token)
  {
    var v := scheme + [gap] + token;
    assert v[..6] == scheme;
    assert v[7..] == token;
  }

  /** An `fz-token` header alone admits exactly the warden token it names. */
  lemma FzTokenAccepted(token: string, candidate: string)
    ensures CheckToken(token, map["fz-token" := [candidate]]) <==> IsWardenToken(token) && token == candidate
  {
    assert "authorization" !in map["fz-token" := [candidate]];
  }

  // ---- The request and its three patterns ----

  /** `uploadURLRequest`: the query parameters the handler reads, and the date fields it may overwrite. */
  datatype UploadUrlRequest = UploadUrlRequest(
    token: string, fileName: string, contentType: string, deviceId: string,
    year: string, month: string, day: string, client: string,
    downloadToken: string, meetingInstance: string)

  /** `normalPattern`: deviceId/year/month/day/file. */
  function NormalPattern(u: UploadUrlRequest): string {
    Join([u.deviceId, u.year, u.month, u.day, u.fileName], '/')
  }

  /** `downloadPattern`: download/downloadToken/year/month/day/file. */
  function DownloadPattern(u: UploadUrlRequest): string {
    Join(["download", u.downloadToken, u.year, u.month, u.day, u.fileName], '/')
  }

  /** `unauthenticatedPattern`: unauthenticated/client/year/month/day/file. */
  function UnauthenticatedPattern(u: UploadUrlRequest): string {
    Join(["unauthenticated", u.client, u.year, u.month, u.day, u.fileName], '/')
  }

  /** The value `patternFunc` holds. */
  datatype Pattern = Normal | Download | Unauthenticated

  function KeyOf(p: Pattern, u: UploadUrlRequest): string {
    match p
    case Normal => NormalPattern(u)
    case Download => DownloadPattern(u)
    case Unauthenticated => UnauthenticatedPattern(u)
  }

  /** No field that goes into an object name holds a slash. */
  predicate Plain(u: UploadUrlRequest) {
    Free(u.deviceId, '/') && Free(u.year, '/') && Free(u.month, '/') && Free(u.day, '/') &&
    Free(u.fileName, '/') && Free(u.downloadToken, '/') && Free(u.client, '/')
  }

  /** Splitting an object name at its slashes gives back the fields it was made of, for each pattern. */
  lemma KeyFields(u: UploadUrlRequest)
    requires Plain(u)
    ensures Split(NormalPattern(u), '/') == [u.deviceId, u.year, u.month, u.day, u.fileName]
    ensures Split(DownloadPattern(u), '/') == ["download", u.downloadToken, u.year, u.month, u.day, u.fileName]
    ensures Split(UnauthenticatedPattern(u), '/') == ["unauthenticated", u.client, u.year, u.month, u.day, u.fileName]
  {
    var n := [u.deviceId, u.year, u.month, u.day, u.fileName];
    var d := ["download", u.downloadToken, u.year, u.month, u.day, u.fileName];
    var a := ["unauthenticated", u.client, u.year, u.month, u.day, u.fileName];
    assert forall i :: 0 <= i < |n| ==> Free(n[i], '/');
    assert forall i :: 0 <= i < |d| ==> Free(d[i], '/');
    assert forall i :: 0 <= i < |a| ==> Free(a[i], '/');
    SplitOfJoin(n, '/');
    SplitOfJoin(d, '/');
    SplitOfJoin(a, '/');
  }

  // ---- readMeetingDate ----

  /** `fmt.Sprintf("%04d", y)`: at least four characters, a minus sign counted among them. */
  function Year04(y: int): string {
    if y < 0 then "-" + Pad(-y, 3) else Pad(y, 4)
  }

  /** `dbMeetingInstanceStartedAt(ctx, id)`, as an oracle: an error, a null or missing start, or the start. */
  type StartLookup = int -> Result<Option<Instant>>

  /**
   * `readMeetingDate`: the request with the start date of its meeting
   * instance, or the lookup's error. A meeting instance that is no integer,
   * or that has no start time, leaves the date as it was.
   */
  function MeetingDate(u: UploadUrlRequest, startedAt: StartLookup): (r: Result<UploadUrlRequest>)
    ensures r.Ok? ==> r.value == u.(year := r.value.year, month := r.value.month, day := r.value.day)
    ensures r.Err? <==> ParseInt64(u.meetingInstance).err.None? && startedAt(ParseInt64(u.meetingInstance).value).Err?
    ensures ParseInt64(u.meetingInstance).err.Some? ==> r == Ok(u)
    ensures ParseInt64(u.meetingInstance).err.None? && startedAt(ParseInt64(u.meetingInstance).value) == Ok(None) ==> r == Ok(u)
    ensures ParseInt64(u.meetingInstance).err.None? && startedAt(ParseInt64(u.meetingInstance).value).Ok? &&
            startedAt(ParseInt64(u.meetingInstance).value).value.Some? ==>
      var c := CivilOf(startedAt(ParseInt64(u.meetingInstance).value).value.value);
      r == Ok(u.(year := Year04(c.year), month := Pad(c.month, 2), day := Pad(c.day, 2)))
  {
    var id := ParseInt64(u.meetingInstance);
    if id.err.Some? then Ok(u)
    else
      match startedAt(id.value)
      case Err(e) => Err(e)
      case Ok(None) => Ok(u)
      case Ok(Some(t)) =>
        var c := CivilOf(t);
        Ok(u.(year := Year04(c.year), month := Pad(c.month, 2), day := Pad(c.day, 2)))
  }

  /**
   * The date `readMeetingDate` writes is the start's date: for a year from
   * 0 to 9999 the year has four digits, month and day have two, and each
   * reads back as the start's field; nothing else in the request changes.
   */
  lemma MeetingDateFields(u: UploadUrlRequest, startedAt: StartLookup)
    requires ParseInt64(u.meetingInstance).err.None?
    requires var start := startedAt(ParseInt64(u.meetingInstance).value); start.Ok? && start.value.Some?
    ensures MeetingDate(u, startedAt).Ok?
    ensures var u' := MeetingDate(u, startedAt).value;
      var c := CivilOf(startedAt(ParseInt64(u.meetingInstance).value).value.value);
      |u'.month| == 2 && |u'.day| == 2 && AllDigits(u'.month) && AllDigits(u'.day) &&
      DigitsValue(u'.month) == c.month && DigitsValue(u'.day) == c.day &&
      (0 <= c.year <= 9999 ==> |u'.year| == 4 && AllDigits(u'.year) && DigitsValue(u'.year) == c.year)
  {
    var c := CivilOf(startedAt(ParseInt64(u.meetingInstance).value).value.value);
    var u' := MeetingDate(u, startedAt).value;
    assert u'.year == Year04(c.year) && u'.month == Pad(c.month, 2) && u'.day == Pad(c.day, 2);
    FieldWidths();
    assert c.month < 100 && c.day < 100 by {
      assert DaysIn(c.month, c.year) <= 31;
    }
    PadFacts(c.month, 2);
    PadFacts(c.day, 2);
    if 0 <= c.year {
      PadFacts(c.year, 4);
    }
  }

  /** `readMeetingDate(ctx, &uur)`: the request after the call, and the error it returns. */
  method ReadMeetingDate(u: UploadUrlRequest, startedAt: StartLookup) returns (u': UploadUrlRequest, err: Option<Error>)
    ensures MeetingDate(u, startedAt) == if err.Some? then Err(err.value) else Ok(u')
  {
    u' := u;
    var id := ParseInt64(u.meetingInstance);
    if id.err.Some? {
      return u', None;
    }
    var pStartedAt := startedAt(id.value);
    if pStartedAt.Err? {
      return u', Some(pStartedAt.error);
    }
    if pStartedAt.value.None? {
      return u', None;
    }
    var c := CivilOf(pStartedAt.value.value);
    u' := u'.(year := Year04(c.year));
    u' := u'.(month := Pad(c.month, 2));
    u' := u'.(day := Pad(c.day, 2));
    return u', None;
  }

  // ---- The file-name rewrite ----

  /** `strings.TrimSuffix`. */
  function TrimSuffix(s: string, suffix: string): (r: string)
    ensures HasSuffix(s, suffix) ==> r + suffix == s
    ensures !HasSuffix(s, suffix) ==> r == s
  {
    if HasSuffix(s, suffix) then s[..|s| - |suffix|] else s
  }

  /** The name the `wininstaller` client's file is stored under. */
  function InstallerName(fileName: string): (r: string)
    ensures HasSuffix(r, ".wininstaller.zip") || HasSuffix(r, ".winstaller.zip")
  {
    if HasSuffix(fileName, ".wininstaller.zip") then fileName
    else
      var r := TrimSuffix(fileName, ".zip") + ".winstaller.zip";
      assert r[|r| - 15..] == ".winstaller.zip";
      r
  }

  /**
   * A name ending in ".wininstaller.zip" is kept; any other name loses one
   * trailing ".zip" and gains ".winstaller.zip". The suffix added is not
   * the one tested, so a rewritten name is rewritten again when it comes back.
   */
  lemma InstallerNameRules(fileName: string)
    ensures HasSuffix(fileName, ".wininstaller.zip") ==> InstallerName(fileName) == fileName
    ensures !HasSuffix(fileName, ".wininstaller.zip") ==>
      HasSuffix(InstallerName(fileName), ".winstaller.zip") &&
      (HasSuffix(fileName, ".zip") ==> InstallerName(fileName)[..|fileName| - 4] == fileName[..|fileName| - 4] &&
                                       |InstallerName(fileName)| == |fileName| + 11) &&
      (!HasSuffix(fileName, ".zip") ==> InstallerName(fileName) == fileName + ".winstaller.zip")
    ensures !HasSuffix(fileName, ".wininstaller.zip") ==>
      InstallerName(InstallerName(fileName)) != InstallerName(fileName)
  {
    var r := InstallerName(fileName);
    if !HasSuffix(fileName, ".wininstaller.zip") {
      assert r[|r| - 15..] == ".winstaller.zip";
      assert r[|r| - 14] == 'w';
      assert !HasSuffix(r, ".wininstaller.zip") by {
        var w := ".wininstaller.zip";
        assert |r| < |w| || r[|r| - |w|..][3] == r[|r| - 14];
      }
      assert HasSuffix(r, ".zip") by {
        assert r[|r| - 4..] == ".winstaller.zip"[11..];
      }
      var r2 := InstallerName(r);
      assert |r2| == |r| + 11;
    }
  }

  /**
   * The rename as evidently intended: a name that already ends in either
   * installer suffix is kept, so that a stored name is stored unchanged.
   */
  function IntendedInstallerName(fileName: string): (r: string)
    ensures HasSuffix(r, ".wininstaller.zip") || HasSuffix(r, ".winstaller.zip")
    ensures HasSuffix(fileName, ".wininstaller.zip") || HasSuffix(fileName, ".winstaller.zip") ==> r == fileName
  {
    if HasSuffix(fileName, ".wininstaller.zip") || HasSuffix(fileName, ".winstaller.zip") then fileName
    else
      var r := TrimSuffix(fileName, ".zip") + ".winstaller.zip";
      assert r[|r| - 15..] == ".winstaller.zip";
      r
  }

  /**
   * The intended rename is idempotent, and it names a file as the code's
   * rename does exactly when the name does not already end in ".winstaller.zip".
   */
  lemma IntendedInstallerNameRules(fileName: string)
    ensures IntendedInstallerName(IntendedInstallerName(fileName)) == IntendedInstallerName(fileName)
    ensures HasSuffix(IntendedInstallerName(fileName), ".wininstaller.zip") ||
            HasSuffix(IntendedInstallerName(fileName), ".winstaller.zip")
    ensures IntendedInstallerName(fileName) == InstallerName(fileName) <==> !HasSuffix(fileName, ".winstaller.zip")
    ensures HasSuffix(fileName, ".winstaller.zip") ==> IntendedInstallerName(fileName) == fileName
  {
    var r := IntendedInstallerName(fileName);
    if !(HasSuffix(fileName, ".wininstaller.zip") || HasSuffix(fileName, ".winstaller.zip")) {
      assert r[|r| - 15..] == ".winstaller.zip";
    }
    if HasSuffix(fileName, ".winstaller.zip") {
      assert fileName[|fileName| - 14] == ".winstaller.zip"[1];
      assert !HasSuffix(fileName, ".wininstaller.zip") by {
        var w := ".wininstaller.zip";
        assert |fileName| < |w| || fileName[|fileName| - |w|..][3] == fileName[|fileName| - 14];
      }
      assert HasSuffix(fileName, ".zip") by {
        assert fileName[|fileName| - 4..] == ".winstaller.zip"[11..];
      }
      assert |InstallerName(fileName)| == |fileName| + 11;
    }
  }

  // ---- logUploadURLHandlerGet ----

  /** `checkDeviceId` and `checkDownloadToken`, as oracles: whether the id is accepted, or the error. */
  type Check = string -> Result<bool>

  /** `awsMakeSignedUrl(bucket, key)`, as an oracle. */
  type Signer = (string, string) -> Result<string>

  /** What the handler writes: a 500, a 403, or the JSON with the signed URL, code 200 and the content type. */
  datatype UploadResponse = InternalServerError | Forbidden | SignedRequest(url: string, contentType: string)

  /** The request as the ten `queryStringItem` calls fill it in. */
  function RequestOf(q: Values): UploadUrlRequest {
    UploadUrlRequest(Lookup(q, "token"), Lookup(q, "file_name"), Lookup(q, "content_type"), Lookup(q, "device_id"),
      Lookup(q, "year"), Lookup(q, "month"), Lookup(q, "day"), Lookup(q, "client"),
      Lookup(q, "download_token"), Lookup(q, "meeting_instance"))
  }

  /** The outcome of the authentication rule: the pattern chosen, whether access is granted, and the check's error. */
  datatype Auth = Auth(pattern: Pattern, ok: bool, err: Option<Error>)

  /**
   * The authentication rule, in priority order: a token is checked against
   * the headers, else a device id against the devices, else a download token
   * against the downloads; with none of them the upload is unauthenticated and allowed.
   */
  function Authenticate(u: UploadUrlRequest, header: Values, checkDevice: Check, checkDownload: Check): (r: Auth)
    ensures r.pattern == (if u.token != "" || u.deviceId != "" then Normal
                          else if u.downloadToken != "" then Download else Unauthenticated)
    ensures r.err.Some? ==> u.token == "" && (u.deviceId != "" || u.downloadToken != "")
    ensures u.token != "" ==> r == Auth(Normal, CheckToken(u.token, header), None)
    ensures u.token == "" && u.deviceId != "" ==>
      (checkDevice(u.deviceId).Err? ==> r == Auth(Normal, false, Some(checkDevice(u.deviceId).error))) &&
      (checkDevice(u.deviceId).Ok? ==> r == Auth(Normal, checkDevice(u.deviceId).value, None))
    ensures u.token == "" && u.deviceId == "" && u.downloadToken != "" ==>
      (checkDownload(u.downloadToken).Err? ==> r == Auth(Download, false, Some(checkDownload(u.downloadToken).error))) &&
      (checkDownload(u.downloadToken).Ok? ==> r == Auth(Download, checkDownload(u.downloadToken).value, None))
    ensures r.pattern == Unauthenticated ==> r.ok && r.err.None?
  {
    if |u.token| > 0 then Auth(Normal, CheckToken(u.token, header), None)
    else if |u.deviceId| > 0 then
      match checkDevice(u.deviceId)
      case Err(e) => Auth(Normal, false, Some(e))
      case Ok(ok) => Auth(Normal, ok, None)
    else if |u.downloadToken| > 0 then
      match checkDownload(u.downloadToken)
      case Err(e) => Auth(Download, false, Some(e))
      case Ok(ok) => Auth(Download, ok, None)
    else Auth(Unauthenticated, true, None)
  }

  /** The request after the rewrites that follow a granted access, or the meeting lookup's error. */
  function Rewritten(u: UploadUrlRequest, startedAt: StartLookup): (r: Result<UploadUrlRequest>)
    ensures r.Ok? ==>
      (r.value.token == u.token && r.value.client == u.client &&
       r.value.downloadToken == u.downloadToken && r.value.contentType == u.contentType)
    ensures r.Ok? ==> r.value.fileName == if u.client == "wininstaller" then InstallerName(u.fileName) else u.fileName
    ensures r.Ok? ==> r.value.meetingInstance == u.meetingInstance
    ensures r.Ok? ==> r.value.deviceId == if u.token != "" && u.deviceId == "ngbrowser" then u.token else u.deviceId
    ensures r.Err? ==> |u.meetingInstance| > 0 && (|u.token| > 0 || |u.deviceId| > 0)
    ensures |u.meetingInstance| > 0 && (|u.token| > 0 || |u.deviceId| > 0) ==>
      (r.Err? <==> MeetingDate(u, startedAt).Err?) &&
      (r.Ok? ==> r.value.year == MeetingDate(u, startedAt).value.year &&
                 r.value.month == MeetingDate(u, startedAt).value.month &&
                 r.value.day == MeetingDate(u, startedAt).value.day)
    ensures !(|u.meetingInstance| > 0 && (|u.token| > 0 || |u.deviceId| > 0)) ==>
      r.Ok? && r.value.year == u.year && r.value.month == u.month && r.value.day == u.day
  {
    var u1 := if u.client == "wininstaller" then u.(fileName := InstallerName(u.fileName)) else u;
    var dated := if |u1.meetingInstance| > 0 && (|u1.token| > 0 || |u1.deviceId| > 0) then MeetingDate(u1, startedAt) else Ok(u1);
    match dated
    case Err(e) => Err(e)
    case Ok(u2) => Ok(if |u2.token| > 0 && u2.deviceId == "ngbrowser" then u2.(deviceId := u2.token) else u2)
  }

  /** `logUploadURLHandlerGet`: the response to a query with these headers, given the databases and the signer. */
  function UploadAnswer(q: Values, header: Values, checkDevice: Check, checkDownload: Check,
                        startedAt: StartLookup, sign: Signer): (r: UploadResponse)
    ensures r.SignedRequest? ==> r.contentType == Lookup(q, "content_type")
    ensures r == Forbidden ==> Lookup(q, "token") != "" || Lookup(q, "device_id") != "" || Lookup(q, "download_token") != ""
  {
    RequestAnswer(RequestOf(q), header, checkDevice, checkDownload, startedAt, sign)
  }

  /** The response to the filled-in request: the checks' verdict, then the rewrites, then the signature. */
  function RequestAnswer(u: UploadUrlRequest, header: Values, checkDevice: Check, checkDownload: Check,
                         startedAt: StartLookup, sign: Signer): (r: UploadResponse)
    ensures var auth := Authenticate(u, header, checkDevice, checkDownload);
      r.SignedRequest? ==> auth.ok && auth.err.None? && Rewritten(u, startedAt).Ok? && r.contentType == u.contentType
    ensures var auth := Authenticate(u, header, checkDevice, checkDownload);
      r == Forbidden <==> auth.err.None? && !auth.ok
  {
    var auth := Authenticate(u, header, checkDevice, checkDownload);
    if auth.err.Some? then InternalServerError
    else if !auth.ok then Forbidden
    else
      match Rewritten(u, startedAt)
      case Err(_) => InternalServerError
      case Ok(u') =>
        match sign(UploadBucket, KeyOf(auth.pattern, u'))
        case Err(_) => InternalServerError
        case Ok(url) => SignedRequest(url, u.contentType)
  }

  /**
   * A check that fails is a server error before a refusal is a 403, and a
   * check that refuses cleanly is exactly the 403; a
   * request with a token is never a server error of the checks, and one
   * whose token fails `checkToken` is forbidden.
   */
  lemma UploadRefusals(q: Values, header: Values, checkDevice: Check, checkDownload: Check, startedAt: StartLookup, sign: Signer)
    ensures var u := RequestOf(q);
      Authenticate(u, header, checkDevice, checkDownload).err.Some? ==>
        UploadAnswer(q, header, checkDevice, checkDownload, startedAt, sign) == InternalServerError
    ensures var u := RequestOf(q);
      u.token != "" && !CheckToken(u.token, header) ==>
        UploadAnswer(q, header, checkDevice, checkDownload, startedAt, sign) == Forbidden
    ensures var u := RequestOf(q);
      u.token == "" && u.deviceId == "" && u.downloadToken == "" ==>
        UploadAnswer(q, header, checkDevice, checkDownload, startedAt, sign) != Forbidden
    ensures var a := Authenticate(RequestOf(q), header, checkDevice, checkDownload);
      a.err.None? && !a.ok ==> UploadAnswer(q, header, checkDevice, checkDownload, startedAt, sign) == Forbidden
    ensures var a := Authenticate(RequestOf(q), header, checkDevice, checkDownload);
      UploadAnswer(q, header, checkDevice, checkDownload, startedAt, sign) == Forbidden <==> a.err.None? && !a.ok
  {
    var u := RequestOf(q);
    var a := Authenticate(u, header, checkDevice, checkDownload);
    if a.err.None? && !a.ok {
      assert RequestAnswer(u, header, checkDevice, checkDownload, startedAt, sign) == Forbidden;
    }
  }

  /**
   * A signed URL is for the object named by the chosen pattern, filled
   * with the rewritten request; a web browser's upload with a token is
   * stored under the token in place of the device id "ngbrowser".
   */
  lemma UploadSigned(q: Values, header: Values, checkDevice: Check, checkDownload: Check, startedAt: StartLookup, sign: Signer)
    requires UploadAnswer(q, header, checkDevice, checkDownload, startedAt, sign).SignedRequest?
    ensures var u := RequestOf(q);
      var auth := Authenticate(u, header, checkDevice, checkDownload);
      auth.ok && auth.err.None? && Rewritten(u, startedAt).Ok? &&
      var u' := Rewritten(u, startedAt).value;
      UploadAnswer(q, header, checkDevice, checkDownload, startedAt, sign) ==
        SignedRequest(sign(UploadBucket, KeyOf(auth.pattern, u')).value, Lookup(q, "content_type")) &&
      u'.token == u.token && u'.client == u.client && u'.downloadToken == u.downloadToken &&
      (u.token != "" && u.deviceId == "ngbrowser" ==> u'.deviceId == u.token) &&
      (u.deviceId != "ngbrowser" ==> u'.deviceId == u.deviceId)
  {
  }

  /** The authentication rule as the handler runs it, reassigning `patternFunc`, `ok` and `err`. */
  method Authorize(uur: UploadUrlRequest, header: Values, checkDevice: Check, checkDownload: Check)
    returns (pattern: Pattern, ok: bool, err: Option<Error>)
    ensures Auth(pattern, ok, err) == Authenticate(uur, header, checkDevice, checkDownload)
  {
    err := None;
    ok := true;
    pattern := Unauthenticated;
    if |uur.token| > 0 {
      pattern := Normal;
      ok := CheckToken(uur.token, header);
    } else if |uur.deviceId| > 0 {
      pattern := Normal;
      var r := checkDevice(uur.deviceId);
      ok, err := r.Ok? && r.value, if r.Err? then Some(r.error) else None;
    } else if |uur.downloadToken| > 0 {
      pattern := Download;
      var r := checkDownload(uur.downloadToken);
      ok, err := r.Ok? && r.value, if r.Err? then Some(r.error) else None;
    }
  }

  /** The special handling of parameters: the installer's file name, the meeting's date, and the browser's device id. */
  method Rewrite(uur: UploadUrlRequest, startedAt: StartLookup) returns (uur': UploadUrlRequest, err: Option<Error>)
    ensures Rewritten(uur, startedAt) == if err.Some? then Err(err.value) else Ok(uur')
  {
    uur' := uur;
    err := None;
    if uur'.client == "wininstaller" {
      if !HasSuffix(uur'.fileName, ".wininstaller.zip") {
        var basename := TrimSuffix(uur'.fileName, ".zip");
        uur' := uur'.(fileName := basename + ".winstaller.zip");
      }
    }
    if |uur'.meetingInstance| > 0 {
      if |uur'.token| > 0 || |uur'.deviceId| > 0 {
        uur', err := ReadMeetingDate(uur', startedAt);
        if err.Some? {
          return;
        }
      }
    }
    if |uur'.token| > 0 && uur'.deviceId == "ngbrowser" {
      uur' := uur'.(deviceId := uur'.token);
    }
  }

  /** `logUploadURLHandlerGet`: fill the request, pick the pattern and check, rewrite, and sign. */
  method LogUploadUrlHandlerGet(q: Values, header: Values, checkDevice: Check, checkDownload: Check,
                                startedAt: StartLookup, sign: Signer) returns (resp: UploadResponse)
    ensures resp == UploadAnswer(q, header, checkDevice, checkDownload, startedAt, sign)
  {
    resp := Respond(RequestOf(q), header, checkDevice, checkDownload, startedAt, sign);
  }

  /** The handler's work once the request is filled in from the query. */
  method Respond(uur: UploadUrlRequest, header: Values, checkDevice: Check, checkDownload: Check,
                 startedAt: StartLookup, sign: Signer) returns (resp: UploadResponse)
    ensures resp == RequestAnswer(uur, header, checkDevice, checkDownload, startedAt, sign)
  {
    var pattern, ok, err := Authorize(uur, header, checkDevice, checkDownload);
    if err.Some? {
      return InternalServerError;
    }
    if !ok {
      return Forbidden;
    }
    var contentType := uur.contentType;
    var rewritten;
    rewritten, err := Rewrite(uur, startedAt);
    if err.Some? {
      return InternalServerError;
    }
    assert Rewritten(uur, startedAt) == Ok(rewritten);
    var s3key := KeyOf(pattern, rewritten);
    var signedUrl := sign(UploadBucket, s3key);
    if signedUrl.Err? {
      return InternalServerError;
    }
    return SignedRequest(signedUrl.value, contentType);
  }
}

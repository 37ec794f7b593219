/**
 * Receiving a log upload (logspost.go): the device-token gate of
 * `logsV1Post`, the content-type dispatch of `logsPost`, and the header
 * stored with the body. Its `randomKey` and `queueLog` are the same code
 * as `randomKey` and `putLog` in putlog.go and are taken from `PutLog`.
 */
module LogsPost {
  import opened Common
  import opened Text
  import opened HttpUtil
  import opened PutLog

  /** What `req.FormFile("request")` finds: no such file, another error, or the file's bytes. */
  datatype FormFile = MissingFile | FormFailure(err: Error) | FormFileOf(data: bytes)

  /**
   * The parts of a request the handlers read: its header map, its query,
   * its body, and the outcome of asking its multipart form for the file.
   */
  datatype Request = Request(header: Values, query: Values, body: bytes, formFile: FormFile)

  /** The handler returned: an error status, or the JSON `{"url": …, "code": …}`. */
  datatype PostResponse = Forbidden | BadRequest | InternalServerError | Json(url: string, code: int)

  /** `checkDeviceId(ctx, token)`, as an oracle: whether the device is known, or the error. */
  type DeviceCheck = string -> Result<bool>

  /** A multipart type is neither JSON nor plain text: the three cases of the switch never overlap. */
  lemma TypesDisjoint(contentType: string)
    ensures HasPrefix(contentType, "multipart/") ==>
      !HasPrefix(contentType, "application/json") && !HasPrefix(contentType, "text/plain")
  {
    if HasPrefix(contentType, "multipart/") {
      assert contentType[0] == "multipart/"[0];
    }
  }

  /** Where the log's bytes come from, or the response that refuses the request. */
  datatype Source = Body(data: bytes) | Refused(response: PostResponse)

  /**
   * The switch on the content type: JSON and plain text send the log as
   * the body, a multipart form sends it as the file "request", and any
   * other type is a bad request.
   */
  function SourceOf(contentType: string, req: Request): (r: Source)
    ensures r == Refused(BadRequest) <==>
      (!HasPrefix(contentType, "application/json") && !HasPrefix(contentType, "text/plain") && !HasPrefix(contentType, "multipart/")) ||
      (HasPrefix(contentType, "multipart/") && req.formFile.MissingFile?)
    ensures r == Refused(InternalServerError) <==> HasPrefix(contentType, "multipart/") && req.formFile.FormFailure?
    ensures r.Body? && HasPrefix(contentType, "multipart/") ==> r.data == req.formFile.data
    ensures r.Body? && !HasPrefix(contentType, "multipart/") ==> r.data == req.body
  {
    TypesDisjoint(contentType);
    if HasPrefix(contentType, "application/json") || HasPrefix(contentType, "text/plain") then Body(req.body)
    else if HasPrefix(contentType, "multipart/") then
      match req.formFile
      case MissingFile => Refused(BadRequest)
      case FormFailure(_) => Refused(InternalServerError)
      case FormFileOf(data) => Body(data)
    else Refused(BadRequest)
  }

  /** `storedLogHeader` for a request: the caller's token, the `tz` query value, and the `Content-Encoding` header. */
  function StoredHeader(token: string, req: Request): Header {
    Header(token, Lookup(req.query, "tz"), Lookup(req.header, "Content-Encoding"))
  }

  /** `logsPost(token, req)`: the response, and the upload `queueLog` made, if any. */
  function Post(token: string, req: Request, marshal: Marshal, src: RandomSource, upload: Uploader): (r: (PostResponse, Option<Upload>))
    ensures r.0 != Forbidden
    ensures r.0.Json? ==> r.0.code == 200 && r.1.Some? && upload(r.1.value) == Ok(r.0.url)
    ensures r.1.Some? ==> r.1.value.bucket == UploadBucket && (r.0.Json? || r.0 == InternalServerError)
  {
    match SourceOf(Lookup(req.header, "Content-Type"), req)
    case Refused(resp) => (resp, None)
    case Body(data) =>
      var (url, u) := PutLog.PutLog(marshal, src, upload, StoredHeader(token, req), data);
      match url
      case Err(_) => (InternalServerError, u)
      case Ok(location) => (Json(location, 200), u)
  }

  /** `logsV1Post(req)`: the device token must be present and name a known device. */
  function V1Post(req: Request, check: DeviceCheck, marshal: Marshal, src: RandomSource, upload: Uploader): (r: (PostResponse, Option<Upload>))
    ensures Lookup(req.header, "FZ-Devicetoken") == "" ==> r == (Forbidden, None)
    ensures r.1.Some? || r.0.Json? ==> check(Lookup(req.header, "FZ-Devicetoken")) == Ok(true)
  {
    var token := Lookup(req.header, "FZ-Devicetoken");
    if token == "" then (Forbidden, None)
    else
      match check(token)
      case Err(_) => (InternalServerError, None)
      case Ok(known) => if !known then (Forbidden, None) else Post(token, req, marshal, src, upload)
  }

  /** `logsV2Post(req)`: the session check is stubbed out, with the token "x" always accepted. */
  function V2Post(req: Request, marshal: Marshal, src: RandomSource, upload: Uploader): (r: (PostResponse, Option<Upload>))
    ensures r.0 != Forbidden
  {
    Post("x", req, marshal, src, upload)
  }

  /**
   * The gate of `logsV1Post`: an empty token and an unknown device are
   * forbidden, a failed check is a server error, and none of these
   * uploads anything; a known device is handled by `logsPost` with its token.
   */
  lemma V1PostGate(req: Request, check: DeviceCheck, marshal: Marshal, src: RandomSource, upload: Uploader)
    ensures var token := Lookup(req.header, "FZ-Devicetoken");
      V1Post(req, check, marshal, src, upload) ==
        if token == "" || check(token) == Ok(false) then (Forbidden, None)
        else if check(token).Err? then (InternalServerError, None)
        else Post(token, req, marshal, src, upload)
    ensures V1Post(req, check, marshal, src, upload).1.Some? ==>
      var token := Lookup(req.header, "FZ-Devicetoken");
      token != "" && check(token) == Ok(true) && PostUploads(token, req, marshal, src)
  {
    var token := Lookup(req.header, "FZ-Devicetoken");
    if token != "" && check(token) == Ok(true) {
      PostOutcome(token, req, marshal, src, upload);
    }
  }

  /** Whether `logsPost` gets as far as uploading: the log has a source, the header marshals, and a key exists. */
  predicate PostUploads(token: string, req: Request, marshal: Marshal, src: RandomSource) {
    SourceOf(Lookup(req.header, "Content-Type"), req).Body? &&
    marshal(StoredHeader(token, req)).Ok? && |src.available| >= RandomIdLength
  }

  /**
   * What `logsPost` does. A refused source is answered with its response
   * and nothing is uploaded. Otherwise an upload is made exactly when the
   * header marshals and a key exists; the stored stream unframes into the
   * marshalled header and the log's bytes; the answer is the JSON with the
   * upload's location and code 200 when the upload succeeds, and a server
   * error in every other case.
   */
  lemma PostOutcome(token: string, req: Request, marshal: Marshal, src: RandomSource, upload: Uploader)
    ensures var (resp, u) := Post(token, req, marshal, src, upload);
      var source := SourceOf(Lookup(req.header, "Content-Type"), req);
      (source.Refused? ==> resp == source.response && u.None?) &&
      (u.Some? <==> PostUploads(token, req, marshal, src)) &&
      (u.Some? ==>
        u.value.bucket == UploadBucket &&
        Unframe(u.value.stream) == Some((marshal(StoredHeader(token, req)).value, source.data))) &&
      (resp.Json? <==> u.Some? && upload(u.value).Ok?) &&
      (resp.Json? ==> resp == Json(upload(u.value).value, 200)) &&
      (source.Body? && !resp.Json? ==> resp == InternalServerError)
  {
    var source := SourceOf(Lookup(req.header, "Content-Type"), req);
    if source.Body? {
      PutLogOutcome(marshal, src, upload, StoredHeader(token, req), source.data);
    }
  }
}

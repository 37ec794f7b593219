# feedmicro log retrieval and upload, in Dafny

This project models the log service of feedmicro. The service has two sides.

On the retrieval side (logsget.go and the second draft getlogs.go), a request names a device token and a time window. The service then:

- parses the timestamp out of each stored key (`parseKey`);
- lists the keys below the token, starting three hours before the window;
- folds the `handleKey` state machine over the listing to pick the files the window needs:
  - the last file at or before the begin time;
  - every later file up to and including the first one after the end time;
- downloads each picked file with a retry budget shared by the whole retrieval;
- streams the entries of every archive to the client.

On the upload side:

- `putLog` (putlog.go) and `queueLog` (logspost.go) frame a JSON header and a log body into one stream. They store it under a random `/inbound/` key.
- `logsV1Post`/`logsPost` gate and dispatch the upload by device token and content type.
- `logUploadURLHandlerGet` (loguploadurl.go) does three things:
  - it checks a token, a device or a download token;
  - it builds the object name from one of three patterns;
  - it signs an upload URL for it.

httputil.go's typed query readers share one sticky error.

## How the model is built

- **Instants.** An instant is an integer count of UTC seconds from 0001-01-01T00:00:00Z, which is Go's zero `time.Time`.
  - `Calendar` converts between instants and civil dates and times in the proleptic Gregorian calendar.
  - It also writes Go's fixed layouts: `Fuze-2006-01-02-15-04-05` and `/2006/01/02/`.
- **Orders.**
  - `Text.Below` is the byte-wise lexicographic order in which S3 lists keys.
  - Zero-padded fixed-width layouts sort as the instants do (`Calendar.StampOrder`, `LogsGet.LayoutKeyOrder`).
- **Outside services as oracles.** Each is a function value passed in:
  - S3 listing (pages of keys, then an optional error);
  - S3 download (the n-th attempt of a key);
  - zip reading (the list of entries);
  - upload and URL signing;
  - JSON marshalling and the random source;
  - the database lookups and the device and download checks.
- **State-changing code becomes imperative Dafny.**
  - `state` becomes the class `LogsGet.KeyScan`.
  - The writer the logs stream to becomes `LogsGet.Sink`.
  - `aws.WriteAtBuffer` becomes `GetLogs.WriteAtBuffer`.
  - The loops of `getLogKeys`, `handlePage`, `retryDownload`, `getSingleLog` and `getLogs` become methods with loop invariants.
  - The out-pointer helpers of httputil.go become methods with out-parameters.
- **Each method is proved equal to a specification function, and the source's promises are lemmas about that function.**
  - `Feed` folds `handleKey` over the listing.
  - `Select` names the selected files directly.
  - `Retry` is the retry loop; `Logs` is the whole streaming.
  - `Answer` and `UploadAnswer` are the handlers' responses.
- **Shared modules.**
  - getlogs.go repeats `parseKey`, `handleKey` and the copying of entries from logsget.go. Module `GetLogs` imports those from `LogsGet` and models only what differs.
  - logspost.go repeats putlog.go's `randomKey` and framing. Module `LogsPost` uses `PutLog` for them.

## Model

| member | source | states |
|---|---|---|
| Text.PadFacts | loguploadurl.go:74-76 | `%0wd` of a non-negative number is all digits, at least `w` long and exactly `w` when the number fits, and reads back as the number |
| Text.PadDigitsValue | loguploadurl.go:74-76 | a digit string is the zero-padded form of its own value at its own width |
| Text.PadInjective | loguploadurl.go:74-76 | two numbers padded to one width give the same text exactly when they are equal |
| Text.BelowConcat | logsget.go:97-99 | comparing two concatenations whose first parts have equal length compares the first parts, then the second |
| Text.CommonPrefix | logsget.go:96-99 | a shared prefix such as the token does not change the lexicographic order or equality of keys |
| Text.PrefixBelow | logsget.go:97-99 | a proper prefix sorts before every extension of it |
| Text.JoinBelow | logsget.go:97-98 | equal-width fields joined by a separator sort as the field lists do, part by part |
| Text.PadBelow | logsget.go:97-98 | fixed-width zero-padded numbers sort lexicographically exactly as the numbers sort |
| Text.PaddedJoinBelow | logsget.go:97-98 | a layout of zero-padded fields sorts exactly as the lexicographic order of its numbers |
| Text.SplitJoin | logsget.go:34 | cutting a fixed-width layout at its separators gives back the fields that were joined |
| Text.JoinSplit | logsget.go:34 | whatever cuts into fixed-width fields is those fields joined |
| Text.ParseFields | logsget.go:34 | reads `\d\d\d\d-\d\d-…` fields; every field read is below ten to its width |
| Text.ParseFieldsOfJoin | logsget.go:34 | zero-padded fields written with a separator read back as the numbers |
| Text.JoinOfParseFields | logsget.go:34 | text that reads as fields is exactly those numbers written zero-padded |
| Text.Split | loguploadurl.go:46-56 | `strings.Split` of an object name at '/' gives at least one piece |
| Text.SplitOfJoin | loguploadurl.go:46-56 | splitting parts joined with a separator they do not contain gives back the parts |
| Calendar.YearsAscend | logsget.go:41 | later years start on later days |
| Calendar.FindYear | logsget.go:41 | finds the year whose day range holds a given day number |
| Calendar.FindMonth | logsget.go:41 | finds the month whose day range holds a given day of the year |
| Calendar.CivilOf | logsget.go:41 | every instant has a valid civil date and time that converts back to that instant |
| Calendar.InstantAscends | logsget.go:41 | a civil date and time that comes earlier field by field is an earlier instant |
| Calendar.InstantOrder | logsget.go:41 | instants of valid civil times are ordered exactly as the field lists year…second are |
| Calendar.CivilRoundTrip | logsget.go:41 | the civil time of the instant of a valid civil time is that civil time |
| Calendar.FieldsFit | logsget.go:97-98 | the fields of a year-0000..9999 instant fit the layout widths, and the layouts are those fields padded |
| Calendar.StampOrder | logsget.go:98 | `2006-01-02-15-04-05` stamps of four-digit-year instants sort lexicographically exactly as the instants sort |
| Calendar.LayoutLengths | logsget.go:97-98 | the stamp is 19 characters and the day directory 12 |
| Calendar.DirOrder | logsget.go:97 | `/2006/01/02/` directories never sort against time; they are equal exactly on the same day |
| Calendar.ParseStamp | logsget.go:41-45 | `time.Parse` with the stamp layout: only valid dates and times with years 0..9999 are accepted |
| Calendar.ParseStampOfStamp | logsget.go:41 | parsing a formatted stamp gives back its civil time |
| Calendar.StampOfParseStamp | logsget.go:41 | whatever parses is the stamp of the time parsed |
| HttpUtil.ScanUint | httputil.go:39 | the digit loop of `strconv.ParseInt`; a value is never above 2^64-1 |
| HttpUtil.ParseInt64 | httputil.go:39 | base-10 64-bit parsing; the value is always in int64 range, as Go's clamped value is |
| HttpUtil.ScanDigits | httputil.go:39 | on digits whose value fits, the digit loop yields that value |
| HttpUtil.ParseFormatInt | httputil.go:39 | every int64 written in decimal parses back to itself with no error |
| HttpUtil.ParsedDigits | httputil.go:39 | what parses is an optional sign and at least one digit, whose value is the result's magnitude |
| HttpUtil.ScanSound | httputil.go:39 | the digit loop yields a value only for digits, and that value is the digits' value |
| HttpUtil.ZoneOffset | httputil.go:27 | a zone `Z` or `±hh:mm` is an offset of less than a day |
| HttpUtil.ParseRFC3339 | httputil.go:27 | `time.Parse(time.RFC3339, s)`: on error the value is the zero time |
| HttpUtil.ParseUtcParts | httputil.go:27 | `date T clock Z` with valid fields parses to the instant of those fields |
| HttpUtil.ParseFormatRFC3339 | httputil.go:27 | an instant written in RFC 3339 in UTC parses back to itself with no error |
| HttpUtil.QueryStringItem | httputil.go:12-16 | the first value of a present name is taken, and an absent name leaves the target unchanged |
| HttpUtil.RFC3339Item | httputil.go:18-28 | a set error leaves the time and the error untouched; a new error only arises when none was set |
| HttpUtil.Int64Item | httputil.go:30-40 | a set error leaves the integer and the error untouched; a new error only arises when none was set |
| HttpUtil.QueryRFC3339Item | httputil.go:18-28 | nothing changes under a set error or for an absent or empty value; otherwise both the target and the error come from the parse |
| HttpUtil.QueryInt64Item | httputil.go:30-40 | nothing changes under a set error or for an absent or empty value; otherwise both the target and the error come from the parse |
| LogsGet.MatchKey | logsget.go:34-40 | a match means the key is some head, `/Fuze-`, a stamp of the six fields and `.zip`, at its very end |
| LogsGet.ParseKey | logsget.go:35-50 | a parsed key carries the key itself |
| LogsGet.ParseKeyOfStamp | logsget.go:34-50 | any name ending in `/Fuze-`, the stamp of a four-digit-year instant and `.zip` parses to that instant |
| LogsGet.ParseKeySound | logsget.go:34-50 | whatever parses ends in `/Fuze-`, the stamp of its timestamp and `.zip` |
| LogsGet.ParseLayoutKey | logsget.go:34-50 | every key of the upload layout parses with its upload time as timestamp |
| LogsGet.KeyBaseOrder | logsget.go:95-99 | keys under one prefix without `.zip` sort exactly as their instants, and are equal exactly for equal instants |
| LogsGet.LayoutKeyOrder | logsget.go:80-99 | log files under one token are listed in the order of their upload times |
| LogsGet.Step | logsget.go:58-78 | one `handleKey` call: an unparsed key changes nothing and goes on; the listing stops only on a key after the end time; once keys are gathered, `prior` stays and the key is appended |
| LogsGet.StepRules | logsget.go:58-78 | an unparsed key changes nothing and continues; before the window a key at or before the begin time replaces `prior` and continues; the opening key gathers `[prior, key]` or `[key]`; later keys are appended; the result is false exactly when the appended key is after the end time; earlier gathered keys never change |
| LogsGet.FeedSnoc | logsget.go:100-103 | one more key is one more `handleKey`, unless the listing already stopped |
| LogsGet.FeedConcat | logsget.go:100-103 | feeding two runs of keys is feeding the second from where the first left off, unless the first stopped |
| LogsGet.Parsed | logsget.go:59-63 | the keys `parseKey` accepts, each with its own parse |
| LogsGet.FeedSkipsUnparsed | logsget.go:59-63 | keys that do not parse play no part in the fold |
| LogsGet.FirstAfter | logsget.go:65-77 | the first key stamped after a bound, with all before it at or before the bound |
| LogsGet.OpenPhase | logsget.go:74-77 | once the window is open, the fold appends keys up to and including the first one after the end time |
| LogsGet.ClosedPhaseShut | logsget.go:70-73 | before the window opens, keys at or before the begin time only move `prior` along |
| LogsGet.OpeningKey | logsget.go:64-69 | the opening key emits the remembered prior key, if any, then itself |
| LogsGet.ClosedPhaseOpens | logsget.go:64-73 | the key just before the opening key becomes the prior that the opening emits |
| LogsGet.ParsedKeysNonEmpty | logsget.go:66 | a parsed key is never the empty string, so a remembered key is always emitted |
| LogsGet.Select | logsget.go:80-90 | the files a window needs: nothing exactly when no key is after the begin time, and never more files than the listing holds |
| LogsGet.FeedSelects | logsget.go:80-90 | folding `handleKey` over a listing gathers exactly `Select`: the last file at or before the begin time, then every file up to and including the first one after the end time; it stops exactly when such a file exists |
| LogsGet.SelectBounds | logsget.go:74-90 | when begin ≤ end, every selected key but the last is at or before the end time; a stopped listing ends with a key after the end time; the first selected key, when a file precedes the opening, is that file |
| LogsGet.SelectCovers | logsget.go:80-90 | on a chronological listing, every key stamped inside the window is selected |
| LogsGet.SelectAfterBegin | logsget.go:80-90 | on a chronological listing, only the first selected key can be at or before the begin time |
| LogsGet.SelectPriorIsLatest | logsget.go:85-86 | on a chronological listing, that first key is the latest one at or before the begin time |
| LogsGet.KeyScan.constructor | logsget.go:94 | the state starts with no prior and nothing gathered |
| LogsGet.KeyScan.HandleKey | logsget.go:58-78 | updates `prior` and `gathered` and answers exactly as one `Step` |
| LogsGet.StartAfter | logsget.go:95-99 | the start-after offset lies under the token: the token, then a `/` that opens the date directory |
| LogsGet.StartAfterOrder | logsget.go:95-99 | a log file under the token sorts strictly after the start-after offset exactly when its upload time is no earlier than three hours before the begin time |
| LogsGet.FlattenSnoc | logsget.go:100-103 | the keys of one more page follow the keys of the earlier pages |
| LogsGet.LogKeysSelects | logsget.go:92-108 | the keys returned are the selection of the parsed listing; the listing's error is returned exactly when it fails before the selection stops |
| LogsGet.ListPage | logsget.go:100-103 | feeding one page's keys to the state is the fold over that page |
| LogsGet.KeyStep | logsget.go:100-103 | while the listing goes on, the fold over one more key is `handleKey` on the state the earlier keys left |
| LogsGet.PageEnd | logsget.go:100-103 | a page handled to its end, or until a key stops the listing, leaves the state of the fold over the whole page |
| LogsGet.PageStep | logsget.go:100-106 | while the listing goes on, the fold over one more page starts from the state the earlier pages left |
| LogsGet.ListingEnd | logsget.go:100-106 | once every page is fed, or a key stops the listing, the fold over all pages is settled |
| LogsGet.GetLogKeys | logsget.go:92-108 | `getLogKeys` returns `LogKeys` of the listing below the token after the offset |
| LogsGet.FlattenSplit | logsget.go:100-103 | the keys of all pages are those of the first pages followed by those of the rest |
| LogsGet.Retry | logsget.go:120-134 | the shared count never passes 20, and a download succeeds exactly when the count stays below 20 |
| LogsGet.RetryOutcome | logsget.go:120-134 | success is the first successful attempt, after one counted failure per earlier attempt; failure is the last attempt's error, after every attempt the remaining budget allows failed |
| LogsGet.RetryDownload | logsget.go:120-134 | the retry loop returns the download and the new count that `Retry` gives |
| LogsGet.Sink.constructor | logsget.go:153 | the writer starts empty with its capacity |
| LogsGet.Sink.Write | logsget.go:153 | a write appends what fits and reports a short write as an error |
| LogsGet.Put | logsget.go:153 | the writer keeps what it had and gains a prefix of `p`; the write fails exactly when the capacity is exceeded; a write that succeeds appends all of `p` |
| LogsGet.CopyEntries | logsget.go:147-158 | the writer only grows; for a writer within its capacity (every writer is: it starts empty and `Put` never overfills it), the loop ends without error exactly when every entry opens and reads cleanly and the writer takes all their bytes; without error the writer holds exactly those bytes in directory order; otherwise the error is "could not read zipentry" or "could not copy zipentry" with the key |
| LogsGet.SingleLog | logsget.go:137-159 | a key that streams without error leaves the count below 20; the count never decreases or passes 20; the writer only grows |
| LogsGet.SingleLogErrors | logsget.go:137-159 | a failed download returns its error with nothing written; an unreadable archive returns "could not read zip" with the key; otherwise the writer and error are the copying loop's; for a writer within its capacity, the key streams without error exactly when the download and the archive are read, every entry opens and reads cleanly and the writer takes all their bytes |
| LogsGet.Logs | logsget.go:110-118 | streaming without error leaves the count below 20; the count never decreases or passes 20; the writer only grows |
| LogsGet.LogsConcat | logsget.go:110-118 | keys are streamed strictly in order: a run of keys is its first part, then, unless that failed, the rest from where the writer and the count were left |
| LogsGet.CopyEntry | logsget.go:147-158 | `io.Copy` of one opened entry: the writer gains a prefix of the entry's bytes, all of them when they fit, and the result is clean exactly when they fit and the entry reads without error |
| LogsGet.CopyIntact | logsget.go:147-158 | an archive whose entries all open and read cleanly reaches an unlimited writer as their bytes in directory order |
| LogsGet.LogsClean | logsget.go:110-159 | when nothing fails, the writer receives every archive's entries in key order and directory order, with no error and no failure counted |
| LogsGet.CopyArchive | logsget.go:147-158 | the loop over `zr.File` writes and reports as `CopyEntries`, so it stops with an error at the first entry that fails to open or copy |
| LogsGet.GetSingleLog | logsget.go:137-159 | `getSingleLog` leaves the writer, the error and the count as `SingleLog` |
| LogsGet.GetLogs | logsget.go:110-118 | `getLogs` leaves the writer and returns the error as `Logs` with a count starting at 0 |
| LogsGet.WholeHours | logsget.go:200-205 | `int(d.Hours())`: the whole hours of a duration, truncated toward zero for negative durations too |
| LogsGet.RangeCheck | logsget.go:200-205 | a window is accepted exactly when its end is set and it is shorter than 15 hours, because whole hours are truncated toward zero; an end before the begin is accepted |
| LogsGet.QueryErrors | logsget.go:175-181 | the query is malformed exactly when one of its four typed parameters is present, non-empty and does not parse |
| LogsGet.QueryFirstError | logsget.go:175-178 | the error is that of the first parameter that fails, and the parameters after it keep their zero values |
| LogsGet.QueryOfTexts | logsget.go:172-178 | a query holding the five parameters yields each of them |
| LogsGet.QueryRoundTrip | logsget.go:172-178 | reading a query written from an operation (int64 ids, four-digit-year UTC times) gives back that operation with no error |
| LogsGet.Effective | logsget.go:187-199 | without a meeting or instance id the operation is kept; otherwise only the begin and end times are replaced |
| LogsGet.AnswerStreams | logsget.go:171-222 | logs are streamed only for a well-formed query with a token and a window, possibly the meeting's, that ends and spans less than 15 hours; the stream is the window's selection |
| LogsGet.AnswerRefusesLongWindow | logsget.go:183-205 | without ids, a window of 15 hours or more, or with no end, is a bad request |
| LogsGet.ReadGetLogsQuery | logsget.go:171-178 | the query reads into `QueryOperation` |
| LogsGet.FetchKeys | logsget.go:200-210 | the range check and listing answer as `Fetch` |
| LogsGet.LogsGetHandler | logsget.go:165-210 | `logsGet` answers as `Answer` |
| LogsGet.ServeLogs | logsget.go:211-222 | the returned handler streams as `Logs` and sets the trailer to "true" exactly on error |
| GetLogs.HandlePage | getlogs.go:86-93 | `handlePage` feeds the page's keys in order, stopping at the first one rejected, as `Feed` |
| GetLogs.FeedPagesFlat | getlogs.go:113-123 | page-by-page folding with an early stop is `handleKey` folded over all keys of the pages |
| GetLogs.FeedPagesSnoc | getlogs.go:113-119 | one more page is fed from where the earlier pages left the state |
| GetLogs.GetLogKeys | getlogs.go:107-124 | `getLogKeys` returns `LogKeys` of the listing below the token after the offset, or the listing's error |
| GetLogs.FeedPagesPrefix | getlogs.go:117-119 | pages after the one that stopped the fold are never fed |
| GetLogs.Zeros | getlogs.go:158 | the zero bytes a buffer grows by |
| GetLogs.WrittenAt | getlogs.go:138-142 | after `WriteAt(p, pos)` the buffer holds `p` at `pos`, is grown with zeros as far as needed, and is otherwise unchanged |
| GetLogs.WrittenAtPrefix | getlogs.go:138-142 | a write at the end of a prefix extends the prefix |
| GetLogs.WriteAtBuffer.constructor | getlogs.go:158 | a fresh buffer is empty |
| GetLogs.WriteAtBuffer.WriteAt | getlogs.go:138-142 | the buffer becomes `WrittenAt`, and all of `p` is written |
| GetLogs.Download | getlogs.go:138-142 | on success the buffer starts with the object, whatever an earlier failed attempt left in it, and the count is its length; on failure the error is the attempt's |
| GetLogs.RetryDownload | getlogs.go:136-154 | with the reused buffer, the retry loop gives the object as the buffer's first `numBytes` bytes, with the error and count of `Retry` |
| GetLogs.GetSingleLog | getlogs.go:157-180 | with a fresh buffer per key, the writer, error and count are those of `SingleLog` |
| GetLogs.GetLogs | getlogs.go:126-134 | the keys in order with one shared count, as `Logs` |
| PutLog.Ascii | putlog.go:39-43 | the bytes of an ASCII string, one per character |
| PutLog.Chars | putlog.go:39-43 | the characters of a byte string, one per byte |
| PutLog.CharsOfAscii | putlog.go:39-43 | reading ASCII bytes back gives the string |
| PutLog.DecimalAscii | putlog.go:39 | `%d` of a length is non-empty ASCII digits whose value is the length |
| PutLog.Hex | putlog.go:31 | `hex.EncodeToString` gives two lower-case hex digits per byte |
| PutLog.HexValue | putlog.go:31 | a hex digit's value is below 16 and writes back as that digit |
| PutLog.UnhexHex | putlog.go:31 | the hex text of bytes reads back as those bytes, in order |
| PutLog.ReadFull | putlog.go:27 | `io.ReadFull`: no error exactly when enough bytes were available, and then it reads the first ones; never more than asked |
| PutLog.RandomKey | putlog.go:25-32 | a key exists exactly when 8 random bytes can be read, and it is 25 characters starting with `/inbound/` |
| PutLog.RandomKeyShape | putlog.go:25-32 | a key exists exactly when 8 random bytes can be read; it is 25 characters, `/inbound/` and 16 hex digits reading back as those bytes; otherwise the error is the read's |
| PutLog.LineEnd | putlog.go:39-43 | the first newline, with no newline before it |
| PutLog.Unframe | putlog.go:39-43 | a reader of the stored format; what it recovers is shorter than the stream |
| PutLog.LineEndOf | putlog.go:39-43 | a line without newlines ends at its newline |
| PutLog.Frame | putlog.go:39-43 | the stored stream starts with the preamble and ends with a newline and then the body, unchanged |
| PutLog.FrameRoundTrip | putlog.go:39-43 | the stream `log 1`, the length of the header and its newline, the header, a newline and the body unframes into exactly the header and the body |
| PutLog.PutLog | putlog.go:34-53 | an upload is made exactly when the header marshals and a key exists, under that key, and the result is the upload's; otherwise an error |
| PutLog.PutLogOutcome | putlog.go:34-53 | an upload is made exactly when the header marshals and a key exists; it goes to the upload bucket under the random key and unframes into the header's JSON and the body; the result is the upload's, else the marshalling or key error |
| LogsPost.TypesDisjoint | logspost.go:91-113 | a `multipart/` type is neither JSON nor plain text |
| LogsPost.SourceOf | logspost.go:91-113 | JSON and text use the body; multipart uses the form file, with a missing file a bad request and another error a server error; any other type is a bad request |
| LogsPost.V1Post | logspost.go:63-75 | an empty device token is forbidden with no upload; an upload or a JSON answer needs the device check to accept the token |
| LogsPost.V2Post | logspost.go:77-86 | with the session check stubbed out, the answer is never forbidden |
| LogsPost.V1PostGate | logspost.go:63-75 | an empty token and an unknown device are forbidden, a failed check is a server error, none of these uploads; a known device is handled by `logsPost` with its token |
| LogsPost.Post | logspost.go:88-127 | `logsPost` never answers 403; a JSON answer has code 200 and the location the upload returned; an upload goes to the upload bucket and is answered by JSON or a server error |
| LogsPost.PostOutcome | logspost.go:88-127 | a refused source uploads nothing; an upload is made exactly when the source, the header and a key exist; the stream unframes into the stored header's JSON and the log; the answer is JSON with the location and code 200 exactly when the upload succeeds, else a server error |
| LogUploadUrl.UpperAscii | loguploadurl.go:24 | upper-casing keeps the length |
| LogUploadUrl.IsWardenToken | loguploadurl.go:15-17 | a warden token is one whose length is from 42 to 99 characters; nothing else about it is looked at |
| LogUploadUrl.CheckToken | loguploadurl.go:15-31 | accepted exactly when the token's length is 42..99 and it equals what follows the seventh character of a bearer `authorization` header, or, with no such header, the first `fz-token` value |
| LogUploadUrl.BearerAccepted | loguploadurl.go:22-25 | a bearer header, scheme in any case and any seventh character, admits exactly the warden token it carries, whatever `fz-token` says |
| LogUploadUrl.FzTokenAccepted | loguploadurl.go:26-27 | an `fz-token` header alone admits exactly the warden token it names |
| LogUploadUrl.NormalPattern | loguploadurl.go:46-48 | the object name device id/year/month/day/file name |
| LogUploadUrl.DownloadPattern | loguploadurl.go:50-52 | the object name `download`/download token/year/month/day/file name |
| LogUploadUrl.UnauthenticatedPattern | loguploadurl.go:54-56 | the object name `unauthenticated`/client/year/month/day/file name |
| LogUploadUrl.KeyFields | loguploadurl.go:46-56 | each pattern's object name splits at '/' into exactly its fields, when they hold no slash |
| LogUploadUrl.MeetingDate | loguploadurl.go:59-78 | only year, month and day can change; an id that does not parse, or a lookup with no start time, leaves the request unchanged; a start time writes its civil year (four digits), month and day (two each); the error is returned exactly when the id parses and the lookup fails |
| LogUploadUrl.MeetingDateFields | loguploadurl.go:73-76 | with a start time, month and day are two digits and the year four (years 0..9999), each reading back as the start's field |
| LogUploadUrl.ReadMeetingDate | loguploadurl.go:59-78 | the request and error after `readMeetingDate` are `MeetingDate`'s |
| LogUploadUrl.TrimSuffix | loguploadurl.go:129 | with the suffix, the result plus the suffix is the name; without it, the name is kept |
| LogUploadUrl.InstallerName | loguploadurl.go:127-132 | the code's rename of a `wininstaller` file: the result always ends in one of the two installer suffixes |
| LogUploadUrl.IntendedInstallerName | loguploadurl.go:127-132 | the corrected rename: it ends in an installer suffix, and a name already ending in either suffix is kept |
| LogUploadUrl.InstallerNameRules | loguploadurl.go:127-132 | as written: a `.wininstaller.zip` name is kept; any other loses one trailing `.zip` and gains `.winstaller.zip`; a rewritten name is rewritten again |
| LogUploadUrl.IntendedInstallerNameRules | loguploadurl.go:127-132 | the corrected rename is idempotent, always ends in an installer suffix, and agrees with the code on every name not already ending in `.winstaller.zip` |
| LogUploadUrl.Authenticate | loguploadurl.go:103-114 | token first (verdict `checkToken`), then device id (verdict or error of the device check, normal pattern), then download token (verdict or error of the download check, download pattern), else unauthenticated and allowed; only the device and download checks can fail |
| LogUploadUrl.Rewritten | loguploadurl.go:127-144 | the installer's name rewrite as the code does it (`InstallerName`); the date is `MeetingDate`'s, with its error, when a meeting instance comes with a token or device id, and is kept otherwise; the device id is the token exactly when a token comes with `ngbrowser`; token, client, download token, content type and meeting instance are kept |
| LogUploadUrl.UploadAnswer | loguploadurl.go:87-151 | the handler's answer to a query: a signed URL carries the query's content type, and a 403 needs a token, device id or download token in the query |
| LogUploadUrl.RequestAnswer | loguploadurl.go:102-151 | the answer to a filled request: a signed URL only after a granted, error-free check and a successful rewrite, with the request's content type; 403 exactly when the chosen check refuses without error |
| LogUploadUrl.UploadRefusals | loguploadurl.go:103-124 | a failing check is a 500 before a refusal is a 403; the answer is 403 exactly when the chosen check refuses without error; a token failing `checkToken` is forbidden; an unauthenticated upload is never forbidden |
| LogUploadUrl.UploadSigned | loguploadurl.go:103-151 | a signed URL is for the chosen pattern filled from the rewritten request, with the query's content type |
| LogUploadUrl.Authorize | loguploadurl.go:103-114 | reassigning `patternFunc`, `ok` and `err` ends as `Authenticate` |
| LogUploadUrl.Rewrite | loguploadurl.go:127-144 | the step-by-step rewrites, with the code's own installer test, end as `Rewritten` |
| LogUploadUrl.LogUploadUrlHandlerGet | loguploadurl.go:87-100 | the request is filled from the query's ten parameters and the handler answers as `UploadAnswer` |
| LogUploadUrl.Respond | loguploadurl.go:102-151 | checks, rewrites and signing of the filled request answer as `RequestAnswer`: 500 on a failing check, lookup or signer, 403 on a refusal, else the signed URL |

## Findings

| source | as written | input that shows it | evidently intended | confidence | as-written member | corrected member |
|---|---|---|---|---|---|---|
| loguploadurl.go:127-132 | a `wininstaller` name is kept only when it ends in `.wininstaller.zip`, but the rename appends `.winstaller.zip` | `a.winstaller.zip` becomes `a.winstaller.winstaller.zip`, and every later pass adds `.winstaller.zip` again | a name already ending in the appended suffix is kept, so the rename is idempotent | medium, not executed | LogUploadUrl.InstallerNameRules | LogUploadUrl.IntendedInstallerNameRules |

The handler model (`Rewritten`, `Rewrite` and the answers built on them) follows the code as written and uses `InstallerName`. `IntendedInstallerName` is the corrected rename, kept beside it: `IntendedInstallerNameRules` proves it idempotent and proves it differs from the code's rename exactly on names already ending in `.winstaller.zip`.

## Left out

- The S3 SDK (`awsList`, `awsDownload`, `awsUpload`, `awsMakeSignedUrl`, the paginator and `s3downloader`) is modelled by oracles. The database lookups, `checkDeviceId` and `checkDownloadToken` are too. A listing is its pages of keys followed by an optional error.
- Zip decoding is an oracle from bytes to the archive's entries, and DEFLATE is not modelled. An entry's `defer fr.Close()` is resource handling and is left out.
- `log.Printf` is left out. So are the `time.Sleep` between retries, the HTTP status bodies and the setting of the `Trailer` header; only the trailer's value is modelled.
- `json.Marshal` of the stored header is an oracle. The JSON responses are modelled as the values they carry; marshalling them and `w.Write` of the upload-URL response are taken to succeed.
- `crypto/rand` is a given byte source, read with `io.ReadFull`'s rules.
- Time zones are not modelled: every instant is UTC seconds. Go's `time.Time` equality also compares locations, which only matters for a zero end time given with an offset.
- `time.Duration` saturation at its int64 limits is not modelled; it does not change any accepted window.
- HttpUtil.ParseRFC3339 accepts the strict form `YYYY-MM-DDThh:mm:ss[.fraction](Z|±hh:mm)` only, and a fraction is dropped because instants are whole seconds. Go's lenient variants of this layout are not modelled.
- LogsGet.SingleLog: the error texts are the format strings with the key only. `fmt.Errorf` also appends the extra error argument (`%!(EXTRA …)`), and that suffix is not modelled.
- LogsGet.CopyEntry: `io.Copy` writes the bytes read before a read error. The model writes all of an entry's bytes and then reports its read error.
- Header maps are taken literally, as the code indexes them (`req.Header["authorization"]`, `req.Header["fz-token"]`, `req.Header.Get(...)`). net/http's canonicalisation of header names is not modelled.
- LogUploadUrl.UpperAscii upper-cases ASCII letters only, and header values are indexed by character, not by byte. For non-ASCII headers this differs from `strings.ToUpper` of a byte slice.
- LogUploadUrl.IsWardenToken and LogUploadUrl.CheckToken count lengths in characters, not in UTF-8 bytes: Go's `len(token)` and `len(authHeaders[0]) > 6` count bytes, so a token or header with non-ASCII characters can fall on the other side of a bound, and `[0:6]` and `[7:]` cut by character.
- LogsGet.SelectCovers, LogsGet.SelectAfterBegin and LogsGet.SelectPriorIsLatest require a chronological listing. S3 lists in key order, and LogsGet.LayoutKeyOrder shows that key order is time order for keys of the upload layout; keys of other shapes below the token are not constrained.
- The two retrieval drafts share one model of `parseKey`, `handleKey` and the entry copying. The second draft's `aws.WriteAtBuffer` growth policy (its `GrowthCoeff` capacity) is not modelled; only its contents are.
- Each `s3downloader.Download` attempt is modelled as its parts in order; the concurrent part downloads of the real downloader are not modelled.
- logsV2Post's session check is stubbed out in the code (the token is always "x"), and it is modelled so.
- LogsGet.Retry, LogsGet.RetryDownload and GetLogs.RetryDownload require a count below 20 (`MaxDownloadRetries`). The source tests `*perrorCount == MaxDownloadRetries` only after an increment, so a call entered with a count of 20 or more would retry for as long as downloads fail. Every caller stops at 20 and never makes that call.
- auth.go, db.go, aws.go, server.go, fetch.go, handlers.go and logshandler.go are not part of this model.

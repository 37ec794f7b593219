/**
 * Storing an uploaded log (putlog.go): a random object name below
 * "/inbound/", and the framing of the log's header and body into the one
 * stream that is uploaded. The same `randomKey` and framing appear again
 * as `randomKey` and `queueLog` in logspost.go, which uses this module.
 */
module PutLog {
  import opened Common
  import opened Text

  const FileHeader := "log 1"
  const Newline: byte := 10
  const InboundPrefix := "/inbound/"
  const RandomIdLength := 8

  // ---- Characters and bytes ----

  predicate IsAscii(s: string) {
    forall i :: 0 <= i < |s| ==> s[i] as int < 128
  }

  /** The bytes of an ASCII string, one per character. */
  function Ascii(s: string): (r: bytes)
    requires IsAscii(s)
    ensures |r| == |s| && forall i :: 0 <= i < |s| ==> r[i] == s[i] as int
  {
    seq(|s|, i requires 0 <= i < |s| && IsAscii(s) => s[i] as int as byte)
  }

  /** The characters of a byte string, one per byte. */
  function Chars(b: bytes): (r: string)
    ensures |r| == |b| && forall i :: 0 <= i < |b| ==> r[i] as int == b[i]
  {
    seq(|b|, i requires 0 <= i < |b| => b[i] as char)
  }

  lemma CharsOfAscii(s: string)
    requires IsAscii(s)
    ensures Chars(Ascii(s)) == s
  {
    assert forall i :: 0 <= i < |s| ==> Chars(Ascii(s))[i] as int == s[i] as int;
  }

  lemma DecimalAscii(n: nat)
    ensures AllDigits(Decimal(n)) && |Decimal(n)| >= 1 && IsAscii(Decimal(n)) && DigitsValue(Decimal(n)) == n
  {
    PadFacts(n, 1);
  }

  // ---- randomKey ----

  /** `hex.EncodeToString`'s digit for a value below 16. */
  function HexChar(d: int): (c: char)
    requires 0 <= d < 16
  {
    if d < 10 then ('0' as int + d) as char else ('a' as int + d - 10) as char
  }

  predicate IsHexChar(c: char) {
    '0' <= c <= '9' || 'a' <= c <= 'f'
  }

  /** `hex.EncodeToString`: two lower-case hex digits per byte, high nibble first, in byte order. */
  function Hex(b: bytes): (r: string)
    ensures |r| == 2 * |b|
    ensures forall i :: 0 <= i < |r| ==> IsHexChar(r[i])
  {
    if b == [] then [] else [HexChar(b[0] / 16), HexChar(b[0] % 16)] + Hex(b[1..])
  }

  /** The value of a lower-case hex digit. */
  function HexValue(c: char): (d: int)
    requires IsHexChar(c)
    ensures 0 <= d < 16 && HexChar(d) == c
  {
    if c <= '9' then c as int - '0' as int else c as int - 'a' as int + 10
  }

  /** Reading hex text back into bytes: None for odd lengths or characters outside 0-9 and a-f. */
  function Unhex(s: string): Option<bytes>
    decreases |s|
  {
    if s == [] then Some([])
    else if |s| < 2 || !IsHexChar(s[0]) || !IsHexChar(s[1]) then None
    else
      match Unhex(s[2..])
      case None => None
      case Some(rest) => Some([(16 * HexValue(s[0]) + HexValue(s[1])) as byte] + rest)
  }

  /** The hex text of a byte string reads back as that byte string. */
  lemma {:induction false} UnhexHex(b: bytes)
    ensures Unhex(Hex(b)) == Some(b)
    decreases |b|
  {
    if b != [] {
      var s := Hex(b);
      assert s[2..] == Hex(b[1..]);
      UnhexHex(b[1..]);
      assert HexValue(s[0]) == b[0] / 16;
      assert HexValue(s[1]) == b[0] % 16;
      assert [b[0]] + b[1..] == b;
    }
  }

  /**
   * `rand.Reader` as `io.ReadFull` sees it: the bytes it yields before it
   * ends, and the error it ends with (None for end-of-file).
   */
  datatype RandomSource = RandomSource(available: bytes, failure: Option<Error>)

  const EOF := "EOF"
  const UnexpectedEOF := "unexpected EOF"

  /**
   * `io.ReadFull(r, buf)` for a buffer of `n` bytes: the bytes read and the
   * error, which is nil exactly when the buffer was filled; end-of-file
   * after some bytes becomes "unexpected EOF".
   */
  function ReadFull(src: RandomSource, n: nat): (r: (bytes, Option<Error>))
    ensures r.1.None? <==> |src.available| >= n
    ensures r.1.None? ==> r.0 == src.available[..n]
    ensures |r.0| <= n
  {
    if |src.available| >= n then (src.available[..n], None)
    else if src.failure.Some? then (src.available, src.failure)
    else if src.available == [] then ([], Some(EOF))
    else (src.available, Some(UnexpectedEOF))
  }

  /** `randomKey`: "/inbound/" and the hex of eight random bytes, or the read's error. */
  function RandomKey(src: RandomSource): (r: Result<string>)
    ensures r.Ok? <==> |src.available| >= RandomIdLength
    ensures r.Ok? ==> |r.value| == 25 && r.value[..9] == InboundPrefix
  {
    var (id, err) := ReadFull(src, RandomIdLength);
    if |id| != RandomIdLength || err.Some? then Err(if err.Some? then err.value else "")
    else Ok(InboundPrefix + Hex(id))
  }

  /**
   * A key exists exactly when eight random bytes could be read; it is then
   * 25 characters long, "/inbound/" followed by sixteen lower-case hex
   * digits that read back as those eight bytes in order.
   */
  lemma RandomKeyShape(src: RandomSource)
    ensures RandomKey(src).Ok? <==> |src.available| >= RandomIdLength
    ensures RandomKey(src).Err? ==> RandomKey(src).error == ReadFull(src, RandomIdLength).1.value
    ensures RandomKey(src).Ok? ==>
      var key := RandomKey(src).value;
      |key| == 25 && key[..9] == InboundPrefix &&
      (forall i :: 9 <= i < 25 ==> IsHexChar(key[i])) &&
      Unhex(key[9..]) == Some(src.available[..RandomIdLength])
  {
    if |src.available| >= RandomIdLength {
      var id := src.available[..RandomIdLength];
      var key := InboundPrefix + Hex(id);
      assert key[9..] == Hex(id);
      UnhexHex(id);
    }
  }

  // ---- The framing of header and body ----

  /** `"log 1\n%d\n"` for a length of `n`. */
  function Preamble(n: nat): bytes {
    DecimalAscii(n);
    Ascii(FileHeader) + [Newline] + Ascii(Decimal(n)) + [Newline]
  }

  /**
   * The uploaded stream: the preamble whose length counts the header and
   * its newline, the header, a newline, and the body unchanged.
   */
  function Frame(header: bytes, body: bytes): (r: bytes)
    ensures |r| == |Preamble(|header| + 1)| + |header| + 1 + |body|
    ensures r[..|Preamble(|header| + 1)|] == Preamble(|header| + 1)
    ensures r[|r| - |body|..] == body && r[|r| - |body| - 1] == Newline
  {
    Preamble(|header| + 1) + header + [Newline] + body
  }

  /** Where the first line ends: the index of the first newline, or the length when there is none. */
  function LineEnd(s: bytes): (r: nat)
    ensures r <= |s|
    ensures forall i :: 0 <= i < r ==> s[i] != Newline
    ensures r < |s| ==> s[r] == Newline
  {
    if s == [] || s[0] == Newline then 0 else 1 + LineEnd(s[1..])
  }

  predicate DigitBytes(s: bytes) {
    forall i :: 0 <= i < |s| ==> '0' as int <= s[i] <= '9' as int
  }

  /**
   * The reader of the format: a first line "log 1", a second line of
   * digits giving a length, then that many bytes, the last a newline, as
   * the header with its newline; the rest is the body.
   */
  function Unframe(s: bytes): (r: Option<(bytes, bytes)>)
    ensures r.Some? ==> |r.value.0| + |r.value.1| < |s|
  {
    var i := LineEnd(s);
    if i == |s| || Chars(s[..i]) != FileHeader then None
    else
      var rest := s[i + 1..];
      var j := LineEnd(rest);
      if j == |rest| || j == 0 || !DigitBytes(rest[..j]) then None
      else
        assert AllDigits(Chars(rest[..j]));
        var n := DigitsValue(Chars(rest[..j]));
        var tail := rest[j + 1..];
        if n == 0 || n > |tail| || tail[n - 1] != Newline then None
        else Some((tail[..n - 1], tail[n..]))
  }

  lemma LineEndOf(line: bytes, rest: bytes)
    requires forall i :: 0 <= i < |line| ==> line[i] != Newline
    ensures var s := line + [Newline] + rest;
      LineEnd(s) == |line| && s[..|line|] == line && s[|line| + 1..] == rest
  {
    var s := line + [Newline] + rest;
    assert s[|line|] == Newline;
    assert forall i :: 0 <= i < |line| ==> s[i] == line[i];
    AroundNewline(line, rest);
  }

  /** What comes before and after the newline that joins two byte strings. */
  lemma AroundNewline(a: bytes, b: bytes)
    ensures var s := a + [Newline] + b;
      s[..|a|] == a && s[|a| + 1..] == b
  {
    var s := a + [Newline] + b;
    assert s[..|a|] == a;
    assert s[|a| + 1..] == b;
  }

  /** A stream of two newline-free lines, the first "log 1" and the second a length in digits, unframes by that length. */
  lemma UnframeLines(first: bytes, digits: bytes, tail: bytes)
    requires forall i :: 0 <= i < |first| ==> first[i] != Newline
    requires forall i :: 0 <= i < |digits| ==> digits[i] != Newline
    requires Chars(first) == FileHeader && |digits| > 0 && DigitBytes(digits)
    requires AllDigits(Chars(digits))
    requires var n := DigitsValue(Chars(digits)); 0 < n <= |tail| && tail[n - 1] == Newline
    ensures var n := DigitsValue(Chars(digits));
      Unframe(first + [Newline] + digits + [Newline] + tail) == Some((tail[..n - 1], tail[n..]))
  {
    var rest := digits + [Newline] + tail;
    assert first + [Newline] + digits + [Newline] + tail == first + [Newline] + rest;
    LineEndOf(first, rest);
    LineEndOf(digits, tail);
  }

  /** The digits of a length, as bytes: no newline among them, and they read back as the length. */
  lemma DecimalBytes(n: nat)
    ensures var d := Ascii((DecimalAscii(n); Decimal(n)));
      |d| > 0 && DigitBytes(d) && (forall i :: 0 <= i < |d| ==> d[i] != Newline) &&
      Chars(d) == Decimal(n) && AllDigits(Chars(d)) && DigitsValue(Chars(d)) == n
  {
    DecimalAscii(n);
    CharsOfAscii(Decimal(n));
  }

  /** A reader of the format recovers the header and the body from the stream `putLog` uploads. */
  lemma FrameRoundTrip(header: bytes, body: bytes)
    ensures Unframe(Frame(header, body)) == Some((header, body))
  {
    var n := |header| + 1;
    DecimalAscii(n);
    var first, digits := Ascii(FileHeader), Ascii(Decimal(n));
    var tail := header + [Newline] + body;
    assert Frame(header, body) == first + [Newline] + digits + [Newline] + tail;
    HeaderLine();
    DecimalBytes(n);
    AroundNewline(header, body);
    UnframeLines(first, digits, tail);
  }

  /** The first line of the format is "log 1", with no newline in it. */
  lemma HeaderLine()
    ensures var first := Ascii(FileHeader);
      Chars(first) == FileHeader && forall i :: 0 <= i < |first| ==> first[i] != Newline
  {
    CharsOfAscii(FileHeader);
  }

  // ---- putLog ----

  /** `putLogHeader`: who sent the log, their time zone, and the body's content encoding. */
  datatype Header = Header(token: string, timeZone: string, encoding: string)

  /** `json.Marshal` of a header, as an oracle. */
  type Marshal = Header -> Result<bytes>

  /** One call of `awsUpload(bucket, key, r)`: where the stream goes, and what it holds. */
  datatype Upload = Upload(bucket: string, key: string, stream: bytes)

  /** `awsUpload`, as an oracle: the stored object's location, or the error. */
  type Uploader = Upload -> Result<string>

  /**
   * `putLog`: marshal the header, frame it with the body, pick a key and
   * upload. The result is the location or the first error, together with
   * the upload that was made, if any.
   */
  function PutLog(marshal: Marshal, src: RandomSource, upload: Uploader, header: Header, body: bytes): (r: (Result<string>, Option<Upload>))
    ensures r.1.Some? <==> marshal(header).Ok? && RandomKey(src).Ok?
    ensures r.1.Some? ==> r.0 == upload(r.1.value) && r.1.value.key == RandomKey(src).value
    ensures r.1.None? ==> r.0.Err?
  {
    match marshal(header)
    case Err(e) => (Err(e), None)
    case Ok(hbytes) =>
      var stream := Frame(hbytes, body);
      match RandomKey(src)
      case Err(e) => (Err(e), None)
      case Ok(key) =>
        var u := Upload(UploadBucket, key, stream);
        (upload(u), Some(u))
  }

  /**
   * An upload is made exactly when the header marshals and a key exists;
   * it goes to the upload bucket under the random key, and its stream
   * unframes into the header's JSON and the body. The result is the
   * upload's own result, or else the marshalling or key error.
   */
  lemma PutLogOutcome(marshal: Marshal, src: RandomSource, upload: Uploader, header: Header, body: bytes)
    ensures var (r, u) := PutLog(marshal, src, upload, header, body);
      u.Some? <==> marshal(header).Ok? && |src.available| >= RandomIdLength
    ensures var (r, u) := PutLog(marshal, src, upload, header, body);
      u.Some? ==>
        r == upload(u.value) && u.value.bucket == UploadBucket &&
        u.value.key == RandomKey(src).value &&
        Unframe(u.value.stream) == Some((marshal(header).value, body))
    ensures var (r, u) := PutLog(marshal, src, upload, header, body);
      u.None? ==>
        (r.Err? && r.error == (if marshal(header).Err? then marshal(header).error else RandomKey(src).error))
  {
    RandomKeyShape(src);
    if marshal(header).Ok? {
      FrameRoundTrip(marshal(header).value, body);
    }
  }
}

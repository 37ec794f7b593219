/**
 * The second draft of the retrieval (getlogs.go). Its `parseKey`,
 * `handleKey`, start-after offset and copying of archive entries are those
 * of logsget.go and are taken from `LogsGet`; what differs is that it
 * drives the paginator itself through `handlePage`, and that each key is
 * downloaded into one `aws.WriteAtBuffer` reused across that key's retries.
 */
module GetLogs {
  import opened Common
  import opened LogsGet

  // ---- handlePage and getLogKeys ----

  /** `handlePage(page, lastPage, &state)`: feed the page's keys in order, stopping at the first one `handleKey` rejects. */
  method HandlePage(page: seq<string>, lastPage: bool, scan: KeyScan) returns (more: bool)
    modifies scan
    ensures (scan.State(), more) == Feed(scan.op, old(scan.State()), page)
  {
    var j := 0;
    while j < |page|
      invariant 0 <= j <= |page|
      invariant Feed(scan.op, old(scan.State()), page) == Feed(scan.op, scan.State(), page[j..])
    {
      assert page[j..][1..] == page[j + 1..];
      var accepted := scan.HandleKey(page[j]);
      if !accepted {
        return false;
      }
      j := j + 1;
    }
    return true;
  }

  /** The paginator's fold: each page fed in turn, no page after the one whose callback returned false. */
  function FeedPages(op: Operation, st: ScanState, pages: seq<seq<string>>): (ScanState, bool)
    decreases |pages|
  {
    if pages == [] then (st, true)
    else
      var (st', more) := Feed(op, st, pages[0]);
      if more then FeedPages(op, st', pages[1..]) else (st', false)
  }

  /**
   * Stopping at a page boundary is stopping at the key: folding page by
   * page is folding `handleKey` over all the keys of the pages in order, up
   * to and including the first key rejected.
   */
  lemma {:induction false} FeedPagesFlat(op: Operation, st: ScanState, pages: seq<seq<string>>)
    ensures FeedPages(op, st, pages) == Feed(op, st, Flatten(pages))
    decreases |pages|
  {
    if pages != [] {
      FeedConcat(op, st, pages[0], Flatten(pages[1..]));
      var (st', more) := Feed(op, st, pages[0]);
      if more {
        FeedPagesFlat(op, st', pages[1..]);
      }
    }
  }

  lemma {:induction false} FeedPagesSnoc(op: Operation, st: ScanState, pages: seq<seq<string>>, page: seq<string>)
    requires FeedPages(op, st, pages).1
    ensures FeedPages(op, st, pages + [page]) == Feed(op, FeedPages(op, st, pages).0, page)
    decreases |pages|
  {
    if pages == [] {
      assert pages + [page] == [page];
    } else {
      assert (pages + [page])[1..] == pages[1..] + [page];
      var (st', more) := Feed(op, st, pages[0]);
      FeedPagesSnoc(op, st', pages[1..], page);
    }
  }

  /** `getLogKeys(w, bucket, op)`: the listing below the token after the offset, fed page by page. */
  method GetLogKeys(bucket: string, op: Operation, list: Lister) returns (r: Result<seq<string>>)
    ensures r == LogKeys(op, list(bucket, op.token, StartAfter(op)))
  {
    var scan := new KeyScan(op);
    var listing := list(bucket, op.token, StartAfter(op));
    var pages := listing.pages;
    var i := 0;
    var more := true;
    while i < |pages| && more
      invariant 0 <= i <= |pages|
      invariant scan.op == op
      invariant more ==> (scan.State(), more) == FeedPages(op, Start, pages[..i])
      invariant !more ==> (scan.State(), more) == FeedPages(op, Start, pages)
    {
      assert pages[..i + 1] == pages[..i] + [pages[i]];
      FeedPagesSnoc(op, Start, pages[..i], pages[i]);
      more := HandlePage(pages[i], i == |pages| - 1, scan);
      if !more {
        FeedPagesPrefix(op, Start, pages, i + 1);
      }
      i := i + 1;
    }
    if more {
      assert pages[..i] == pages;
    }
    FeedPagesFlat(op, Start, pages);
    if more && listing.failure.Some? {
      return Err(listing.failure.value);
    }
    return Ok(scan.gathered);
  }

  /** Pages after the one that stopped the fold are never fed. */
  lemma {:induction false} FeedPagesPrefix(op: Operation, st: ScanState, pages: seq<seq<string>>, n: nat)
    requires n <= |pages| && !FeedPages(op, st, pages[..n]).1
    ensures FeedPages(op, st, pages) == FeedPages(op, st, pages[..n])
    decreases n
  {
    assert n > 0;
    assert pages[..n][1..] == pages[1..][..n - 1];
    var (st', more) := Feed(op, st, pages[0]);
    if more {
      FeedPagesPrefix(op, st', pages[1..], n - 1);
    }
  }

  // ---- aws.WriteAtBuffer ----

  function Zeros(n: nat): (r: bytes)
    ensures |r| == n && forall i :: 0 <= i < n ==> r[i] == 0
  {
    seq(n, _ => 0)
  }

  /**
   * The buffer after `WriteAt(p, pos)`: grown with zeros when the write
   * ends beyond it, then `p` copied in at `pos`.
   */
  function WrittenAt(buf: bytes, p: bytes, pos: nat): (r: bytes)
    ensures |r| == if pos + |p| > |buf| then pos + |p| else |buf|
    ensures r[pos..pos + |p|] == p
    ensures forall i :: 0 <= i < |r| && !(pos <= i < pos + |p|) ==> r[i] == if i < |buf| then buf[i] else 0
  {
    var grown := if pos + |p| > |buf| then buf + Zeros(pos + |p| - |buf|) else buf;
    var r := grown[..pos] + p + grown[pos + |p|..];
    assert r[pos..pos + |p|] == p;
    r
  }

  /** A write at the end of a prefix extends the prefix. */
  lemma WrittenAtPrefix(buf: bytes, p: bytes, pos: nat)
    requires pos <= |buf|
    ensures |WrittenAt(buf, p, pos)| >= pos + |p|
    ensures WrittenAt(buf, p, pos)[..pos + |p|] == buf[..pos] + p
  {
    var r := WrittenAt(buf, p, pos);
    assert r[..pos + |p|] == r[..pos] + r[pos..pos + |p|];
  }

  /** `aws.WriteAtBuffer`: a byte slice that parts of a download are written into at their offsets. */
  class WriteAtBuffer {
    var buf: bytes

    constructor()
      ensures buf == []
    {
      buf := [];
    }

    /** `WriteAt(p, pos)`: always writes all of `p`. */
    method WriteAt(p: bytes, pos: nat) returns (n: nat)
      modifies this
      ensures buf == WrittenAt(old(buf), p, pos) && n == |p|
    {
      buf := WrittenAt(buf, p, pos);
      n := |p|;
    }
  }

  // ---- s3downloader.Download, and retryDownload with the buffer ----

  /** One write of a part of an object at its offset. */
  datatype Part = Part(pos: nat, data: bytes)

  /**
   * One call of `s3downloader.Download`: either the object arrives as
   * consecutive parts, or the call fails after writing some parts.
   */
  datatype Attempt = Fetched(chunks: seq<bytes>) | Failed(err: Error, written: seq<Part>)

  /** The n-th call of `s3downloader.Download` for a key, as an oracle. */
  type PartDownloader = (string, string, nat) -> Attempt

  function Body(chunks: seq<bytes>): bytes
    decreases |chunks|
  {
    if chunks == [] then [] else Body(chunks[..|chunks| - 1]) + chunks[|chunks| - 1]
  }

  /** What an attempt delivers once its parts are assembled. */
  function Delivered(a: Attempt): Result<bytes> {
    match a
    case Fetched(chunks) => Ok(Body(chunks))
    case Failed(err, _) => Err(err)
  }

  /** The same downloads, seen as whole objects as `awsDownload` delivers them. */
  function Whole(download: PartDownloader): Downloader {
    (bucket: string, key: string, n: nat) => Delivered(download(bucket, key, n))
  }

  /**
   * `s3downloader.Download(buff, ...)`: write the parts of this attempt
   * into the buffer. On success the buffer starts with the object, whatever
   * an earlier failed attempt left in it, and the count is its length.
   */
  method Download(buff: WriteAtBuffer, bucket: string, key: string, download: PartDownloader, attempt: nat)
    returns (numBytes: nat, err: Option<Error>)
    modifies buff
    ensures err.None? <==> Delivered(download(bucket, key, attempt)).Ok?
    ensures err.Some? ==> Delivered(download(bucket, key, attempt)) == Err(err.value)
    ensures err.None? ==> numBytes <= |buff.buf| && buff.buf[..numBytes] == Delivered(download(bucket, key, attempt)).value
  {
    match download(bucket, key, attempt)
    case Failed(e, parts) =>
      for i := 0 to |parts| {
        var _ := buff.WriteAt(parts[i].data, parts[i].pos);
      }
      return 0, Some(e);
    case Fetched(chunks) =>
      var off := 0;
      for i := 0 to |chunks|
        invariant off == |Body(chunks[..i])| <= |buff.buf|
        invariant buff.buf[..off] == Body(chunks[..i])
      {
        WrittenAtPrefix(buff.buf, chunks[i], off);
        assert chunks[..i + 1][..i] == chunks[..i];
        var n := buff.WriteAt(chunks[i], off);
        off := off + n;
      }
      assert chunks[..|chunks|] == chunks;
      return off, None;
  }

  /** `retryDownload(buff, bucket, key, &errorCount)`: the same retries as in logsget.go, into one buffer. */
  method RetryDownload(buff: WriteAtBuffer, bucket: string, key: string, download: PartDownloader, errorCount: nat)
    returns (numBytes: nat, err: Option<Error>, errorCount': nat)
    requires errorCount < MaxDownloadRetries
    modifies buff
    ensures err.None? ==> numBytes <= |buff.buf|
    ensures (if err.None? then Ok(buff.buf[..numBytes]) else Err(err.value), errorCount') ==
      Retry(Whole(download), bucket, key, 0, errorCount)
  {
    var attempt := 0;
    errorCount' := errorCount;
    while true
      invariant errorCount' < MaxDownloadRetries
      invariant attempt == errorCount' - errorCount
      invariant Retry(Whole(download), bucket, key, 0, errorCount) == Retry(Whole(download), bucket, key, attempt, errorCount')
      decreases MaxDownloadRetries - errorCount'
    {
      numBytes, err := Download(buff, bucket, key, download, attempt);
      assert Whole(download)(bucket, key, attempt) == Delivered(download(bucket, key, attempt));
      if err.None? {
        return;
      }
      errorCount' := errorCount' + 1;
      if errorCount' == MaxDownloadRetries {
        return;
      }
      attempt := attempt + 1;
    }
  }

  /**
   * `getSingleLog(w, bucket, key, &errorCount)` with a fresh buffer: the
   * archive is read from the first `numBytes` bytes of the buffer.
   */
  method GetSingleLog(w: Sink, bucket: string, key: string, download: PartDownloader, unzip: Unzipper, errorCount: nat)
    returns (err: Option<Error>, errorCount': nat)
    requires errorCount < MaxDownloadRetries
    modifies w
    ensures Streamed(w.written, err, errorCount') ==
      SingleLog(Whole(download), unzip, w.capacity, old(w.written), bucket, key, errorCount)
  {
    var buff := new WriteAtBuffer();
    var numBytes;
    numBytes, err, errorCount' := RetryDownload(buff, bucket, key, download, errorCount);
    if err.Some? {
      return;
    }
    var zr := unzip(buff.buf[..numBytes]);
    if zr.Err? {
      return Some("could not read zip: " + key), errorCount';
    }
    err := CopyArchive(w, key, zr.value);
  }

  /** `getLogs(w, bucket, keys)`: the keys in order with one shared failure count. */
  method GetLogs(w: Sink, bucket: string, keys: seq<string>, download: PartDownloader, unzip: Unzipper)
    returns (err: Option<Error>)
    modifies w
    ensures var o := Logs(Whole(download), unzip, w.capacity, old(w.written), bucket, keys, 0);
      w.written == o.written && err == o.err
  {
    var errorCount: nat := 0;
    var i := 0;
    while i < |keys|
      invariant 0 <= i <= |keys|
      invariant errorCount < MaxDownloadRetries
      invariant Logs(Whole(download), unzip, w.capacity, old(w.written), bucket, keys, 0) ==
        Logs(Whole(download), unzip, w.capacity, w.written, bucket, keys[i..], errorCount)
    {
      assert keys[i..][1..] == keys[i + 1..];
      err, errorCount := GetSingleLog(w, bucket, keys[i], download, unzip, errorCount);
      if err.Some? {
        return;
      }
      i := i + 1;
    }
    return None;
  }
}

/** download_file: fetch one asset in chunks, save it under its basename in a
    folder, report progress after every chunk, and return either the local
    path or an error text starting with "Hata". The network is an oracle
    (a Response); the file is the byte sequence written through it. */
module Download {
  import opened Paths
  import opened Progress

  newtype byte = x: int | 0 <= x < 256

  datatype Option<T> = None | Some(value: T)

  /** How the transfer of one asset goes, as download_file sees it. */
  datatype Response =
      /** requests.get, raise_for_status, the content-length header or opening
          the local file raised: no local file was opened. */
    | Refused(error: string)
      /** The file was opened. `chunks` are the successive results of
          r.raw.read(8192), whose lengths are not constrained here; once they
          run out, the next read returns an empty chunk or, when
          `interruption` is present, raises with that message (which can also
          stand for a write of the file failing at a chunk boundary).
          `contentLength` is the header's value, 0 when it is absent. */
    | Streamed(contentLength: int, chunks: seq<seq<byte>>, interruption: Option<string>)

  /** The file download_file leaves on disk: where, and what was written. */
  datatype SavedFile = SavedFile(path: string, bytes: seq<byte>)

  /** What one refresh of the progress display shows. */
  datatype Frame = Frame(progress: int, bar: string)

  /** The prefix of download_file's error results. */
  const ErrorPrefix := "Hata"

  /** str.startswith("Hata"): how callers tell an error from a path. */
  predicate IsError(s: string) {
    |s| >= |ErrorPrefix| && s[..|ErrorPrefix|] == ErrorPrefix
  }

  /** The text download_file returns for an exception with message `e`. */
  function ErrorText(e: string): (r: string)
    ensures IsError(r)
  {
    ErrorPrefix + ": " + e
  }

  /** The index of the first empty chunk (end of file), or |chunks|. */
  function FirstEmpty(chunks: seq<seq<byte>>): (n: nat)
    ensures n <= |chunks|
    ensures forall k :: 0 <= k < n ==> chunks[k] != []
    ensures n < |chunks| ==> chunks[n] == []
  {
    if chunks == [] || chunks[0] == [] then 0 else 1 + FirstEmpty(chunks[1..])
  }

  /** The chunks the loop consumes before it stops. */
  function Taken(chunks: seq<seq<byte>>): seq<seq<byte>> {
    chunks[..FirstEmpty(chunks)]
  }

  function Flatten(cs: seq<seq<byte>>): seq<byte> {
    if cs == [] then [] else Flatten(cs[..|cs| - 1]) + cs[|cs| - 1]
  }

  function TotalLength(cs: seq<seq<byte>>): nat {
    if cs == [] then 0 else TotalLength(cs[..|cs| - 1]) + |cs[|cs| - 1]|
  }

  function FrameAt(downloaded: nat, totalSize: int): Frame {
    Frame(Percent(downloaded, totalSize), Bar(Percent(downloaded, totalSize)))
  }

  /** One frame per chunk, each for the bytes received up to that chunk. */
  function Frames(cs: seq<seq<byte>>, totalSize: int): seq<Frame> {
    if cs == [] then []
    else Frames(cs[..|cs| - 1], totalSize) + [FrameAt(TotalLength(cs), totalSize)]
  }

  /** The transfer ends in an exception after the file was opened. */
  predicate Interrupted(r: Response) {
    r.Streamed? && FirstEmpty(r.chunks) == |r.chunks| && r.interruption.Some?
  }

  /** The transfer ends in an exception, before or after opening the file. */
  predicate Failed(r: Response) {
    r.Refused? || Interrupted(r)
  }

  /** The string download_file returns. */
  function DownloadResult(url: string, folder: string, r: Response): string {
    match r
    case Refused(e) => ErrorText(e)
    case Streamed(_, _, interruption) =>
      if Interrupted(r) then ErrorText(interruption.value) else LocalPath(folder, url)
  }

  /** The file download_file leaves behind (complete or partial), if it
      opened one. */
  function DownloadSaved(url: string, folder: string, r: Response): Option<SavedFile> {
    if r.Refused? then None else Some(SavedFile(LocalPath(folder, url), Flatten(Taken(r.chunks))))
  }

  /** The progress frames download_file displays. */
  function DownloadFrames(r: Response): seq<Frame> {
    if r.Refused? then [] else Frames(Taken(r.chunks), r.contentLength)
  }

  /** download_file(url, folder): a refused request returns its error text;
      otherwise the chunks are read into the local file and the result is
      the local path, or the error text of an exception during the reads. */
  method DownloadFile(url: string, folder: string, response: Response)
    returns (result: string, saved: Option<SavedFile>, frames: seq<Frame>, downloaded: nat)
    ensures result == DownloadResult(url, folder, response)
    ensures saved == DownloadSaved(url, folder, response)
    ensures frames == DownloadFrames(response)
    ensures downloaded == if response.Refused? then 0 else TotalLength(Taken(response.chunks))
  {
    var localFilename := LocalPath(folder, url);
    match response
    case Refused(e) =>
      result, saved, frames, downloaded := ErrorText(e), None, [], 0;
    case Streamed(totalSize, chunks, interruption) =>
      var written, raised;
      written, frames, downloaded, raised := ReadChunks(totalSize, chunks, interruption);
      saved := Some(SavedFile(localFilename, written));
      result := if raised.Some? then ErrorText(raised.value) else localFilename;
  }

  /** The chunk loop of download_file: every non-empty chunk is written, the
      counter `downloaded` grows by its length and a frame is shown; the loop
      stops at an empty chunk, or raises when the read after the last chunk
      does. */
  method ReadChunks(totalSize: int, chunks: seq<seq<byte>>, interruption: Option<string>)
    returns (written: seq<byte>, frames: seq<Frame>, downloaded: nat, raised: Option<string>)
    ensures written == Flatten(Taken(chunks))
    ensures frames == Frames(Taken(chunks), totalSize)
    ensures downloaded == TotalLength(Taken(chunks))
    ensures raised == if FirstEmpty(chunks) == |chunks| then interruption else None
  {
    written, frames, downloaded, raised := [], [], 0, None;
    var i := 0;
    while true
      invariant i <= FirstEmpty(chunks)
      invariant written == Flatten(chunks[..i])
      invariant downloaded == TotalLength(chunks[..i])
      invariant frames == Frames(chunks[..i], totalSize)
      invariant raised == None
      decreases |chunks| - i
    {
      if i == |chunks| {
        // the read after the last chunk: end of file, or an exception
        raised := interruption;
        break;
      }
      var chunk := chunks[i];
      if chunk == [] {
        break;
      }
      assert chunks[..i + 1][..i] == chunks[..i];
      written := written + chunk;
      downloaded := downloaded + |chunk|;
      var progress := Percent(downloaded, totalSize);
      frames := frames + [Frame(progress, Bar(progress))];
      i := i + 1;
    }
    assert chunks[..i] == Taken(chunks);
  }

  /** The byte counter equals the number of bytes written. */
  lemma {:induction false} FlattenLength(cs: seq<seq<byte>>)
    ensures |Flatten(cs)| == TotalLength(cs)
  {
    if cs != [] {
      FlattenLength(cs[..|cs| - 1]);
    }
  }

  /** The bytes written are the chunks, in order. */
  lemma {:induction false} FlattenAt(cs: seq<seq<byte>>, k: nat)
    requires k < |cs|
    ensures Flatten(cs[..k + 1]) == Flatten(cs[..k]) + cs[k]
    ensures |Flatten(cs[..k])| == TotalLength(cs[..k])
  {
    assert cs[..k + 1][..k] == cs[..k];
    FlattenLength(cs[..k]);
  }

  /** The k-th frame reports the bytes received in the first k + 1 chunks. */
  lemma {:induction false} FramesAt(cs: seq<seq<byte>>, totalSize: int, k: nat)
    requires k < |cs|
    ensures |Frames(cs, totalSize)| == |cs|
    ensures Frames(cs, totalSize)[k] == FrameAt(TotalLength(cs[..k + 1]), totalSize)
  {
    if k < |cs| - 1 {
      var init := cs[..|cs| - 1];
      FramesAt(init, totalSize, k);
      assert init[..k + 1] == cs[..k + 1];
    } else {
      assert cs[..k + 1] == cs;
      FramesLength(cs[..|cs| - 1], totalSize);
    }
  }

  lemma {:induction false} FramesLength(cs: seq<seq<byte>>, totalSize: int)
    ensures |Frames(cs, totalSize)| == |cs|
  {
    if cs != [] {
      FramesLength(cs[..|cs| - 1], totalSize);
    }
  }

  /** The bytes received so far never exceed the bytes of the whole transfer. */
  lemma {:induction false} TotalLengthPrefix(cs: seq<seq<byte>>, k: nat)
    requires k <= |cs|
    ensures TotalLength(cs[..k]) <= TotalLength(cs)
  {
    if k < |cs| {
      assert cs[..|cs| - 1][..k] == cs[..k];
      TotalLengthPrefix(cs[..|cs| - 1], k);
    } else {
      assert cs[..k] == cs;
    }
  }

  /** While no more bytes arrive than content-length announces, every frame
      shows a percentage in 0..100 and a bar of exactly 50 columns. */
  lemma FramesStayInBar(r: Response, k: nat)
    requires r.Streamed? && r.contentLength > 0
    requires TotalLength(Taken(r.chunks)) <= r.contentLength
    requires k < |DownloadFrames(r)|
    ensures 0 <= DownloadFrames(r)[k].progress <= 100
    ensures |DownloadFrames(r)[k].bar| == BarWidth
  {
    var cs := Taken(r.chunks);
    FramesLength(cs, r.contentLength);
    FramesAt(cs, r.contentLength, k);
    TotalLengthPrefix(cs, k + 1);
    PercentBounds(TotalLength(cs[..k + 1]), r.contentLength);
  }

  /** A transfer that delivers exactly content-length bytes ends on a frame
      showing 100% and a bar of 50 '#'. */
  lemma CompleteTransferEndsFull(r: Response)
    requires r.Streamed? && r.contentLength > 0 && Taken(r.chunks) != []
    requires TotalLength(Taken(r.chunks)) == r.contentLength
    ensures |DownloadFrames(r)| > 0
    ensures DownloadFrames(r)[|DownloadFrames(r)| - 1].progress == 100
    ensures DownloadFrames(r)[|DownloadFrames(r)| - 1].bar == Repeat('#', BarWidth)
  {
    var cs := Taken(r.chunks);
    FramesLength(cs, r.contentLength);
    PercentBounds(TotalLength(cs), r.contentLength);
    var b := Bar(100);
    assert |b| == |Repeat('#', BarWidth)|;
    assert forall i :: 0 <= i < |b| ==> b[i] == Repeat('#', BarWidth)[i];
  }

  /** The result is an error text exactly when the transfer failed or the
      local path itself starts with "Hata"; otherwise it is the local path. */
  lemma ResultIsErrorIff(url: string, folder: string, r: Response)
    ensures IsError(DownloadResult(url, folder, r)) <==> Failed(r) || IsError(LocalPath(folder, url))
    ensures !Failed(r) ==> DownloadResult(url, folder, r) == LocalPath(folder, url)
  {
  }

  /** A path under a folder without '/' looks like an error exactly when the
      folder's name starts with "Hata". */
  lemma ErrorPrefixOfPath(folder: string, rest: string)
    requires '/' !in folder
    ensures IsError(folder + "/" + rest) <==> IsError(folder)
  {
    var p := folder + "/" + rest;
    if |folder| >= 4 {
      assert p[..4] == folder[..4];
    } else {
      assert p[|folder|] == '/';
      assert |p| >= 4 ==> p[..4][|folder|] == '/';
    }
  }

  /** A successful transfer into a folder whose name starts with "Hata" is
      taken for an error by the prefix test. */
  lemma SuccessMistakenForError(url: string, folder: string, r: Response)
    requires !Failed(r)
    requires IsError(folder)
    ensures IsError(DownloadResult(url, folder, r))
    ensures DownloadSaved(url, folder, r).Some?
  {
    var b := Basename(url);
    assert |b| > 0 ==> b[0] != '/' by {
      if |b| > 0 { assert b[0] in b; }
    }
    assert Join(folder, b)[..4] == folder[..4];
  }
}

/** The background upload engine of services/UploadManager.js.

    Items are taken from a process-wide FIFO one at a time. Each item's size
    is resolved first; a small non-video file is sent in one multipart request,
    anything else in 5 MiB chunks, sent one after the other in index order,
    each retried up to three times, followed by one finalize request. The
    server's JSON `status` decides which session list the file lands in. When
    the queue is empty the finished files are split into gallery deletions and
    temporary-file unlinks and the session counters are reset.

    Everything the engine asks of the outside world (stat, reads, HTTP
    replies, the uuid, the clock) is an input: `FileEnv` and `ChunkTransport`.
    Notifications are left out; the progress values they would show are
    returned as a sequence. */
module UploadManager {
  import opened Wrappers
  import opened Text

  /** Files below this size (95 MiB) that are not videos go in one request. */
  const CLOUDFLARE_LIMIT: nat := 95 * 1024 * 1024
  /** Bytes requested per `RNFS.read` in the chunked path. */
  const CHUNK_SIZE: nat := 5 * 1024 * 1024
  /** Attempts per chunk before the whole file fails. */
  const MAX_CHUNK_RETRIES: nat := 3
  /** Extensions treated as video when the mime type does not say so. */
  const VIDEO_EXTENSIONS: seq<string> := ["mp4", "mov", "avi", "mkv"]
  /** The only server `status` that records a success. */
  const PROCESSING: string := "processing"

  // ---------------------------------------------------------------------
  // Data
  // ---------------------------------------------------------------------

  /** The media-library node handed over by the gallery: `image.uri`,
      `image.filename` (empty when absent) and `type`. */
  datatype ItemNode = ItemNode(uri: string, filename: string, mimeType: string)

  /** An entry of `uploadQueue`: the node and the index it was given. */
  datatype QueuedItem = QueuedItem(itemNode: ItemNode, originalIndex: nat)

  /** The name a file is reported under: its own file name, or, when it has
      none, `media_<Date.now()>` (`Stamped`) or, in the outer error handler,
      `media_<Date.now()>_<originalIndex>` (`StampedAt`). */
  datatype DisplayName = Given(name: string) | Stamped(millis: nat) | StampedAt(millis: nat, index: nat)

  /** `{ filename, fileUri, isTemp }` as kept in the success lists. */
  datatype UploadRecord = UploadRecord(filename: DisplayName, fileUri: string, isTemp: bool)

  datatype Strategy = SingleShot | Chunked

  /** What a stat call answered: the resolved path and the size in bytes. */
  datatype StatResult = StatResult(path: string, size: nat)

  /** The client's view of one HTTP request: the fetch rejected (network
      error, timeout), or a status code and the `status` field of the JSON
      body (`None` when the body cannot be parsed). */
  datatype Reply = NoResponse | Response(code: int, json: Option<string>)

  /** The outside world during one chunked upload: whether the read of chunk
      `i` succeeds, whether attempt `a` (0-based) at posting chunk `i` gets a
      2xx answer, and the reply to the finalize request. */
  datatype ChunkTransport = ChunkTransport(
    readOk: nat -> bool,
    attemptOk: (nat, nat) -> bool,
    finalize: Reply)

  /** The outside world while one queued item is processed. `stat` is the
      result of `RNFB.fs.stat` (content URIs) or `RNFS.stat` (other URIs),
      `None` when it throws; `uploadId` is the fresh `uuid.v4()`; the two
      clocks are the `Date.now()` readings used for fallback names. */
  datatype FileEnv = FileEnv(
    stat: Option<StatResult>,
    single: Reply,
    chunks: ChunkTransport,
    uploadId: string,
    startedAt: nat,
    failedAt: nat)

  /** The requests the engine makes, in the order it makes them. A chunk
      post records which attempt it is; the request body carries only the
      upload id, the index and the data. */
  datatype Event =
    | SinglePost(filename: DisplayName, mimeType: string, fileUri: string)
    | ChunkRead(path: string, offset: nat, length: nat)
    | ChunkPost(uploadId: string, chunkIndex: nat, attempt: nat)
    | CompletePost(uploadId: string, filename: DisplayName, mimeType: string)

  /** How an upload function ended: it threw, or it reached the server's
      JSON `status`. */
  datatype TransferResult = Threw | Answered(serverStatus: string)

  /** Which session list a processed item was pushed onto. */
  datatype FileOutcome = Succeeded(record: UploadRecord) | Duplicate(record: UploadRecord) | Failed(name: DisplayName)

  /** The cleanup at the end of a session: the URIs handed to
      `CameraRoll.deletePhotos` (called only when non-empty) and the paths
      given to `RNFS.unlink`, one call each. */
  datatype Retention = Retention(galleryUrisToDelete: seq<string>, tempFilesToUnlink: seq<string>)

  // ---------------------------------------------------------------------
  // Size resolution and strategy
  // ---------------------------------------------------------------------

  /** The path and size processFile works with. A content URI needs a stat
      result with a non-empty path and a non-zero size; any other URI keeps
      itself as the path and takes the size from the stat. */
  function ResolveFile(uri: string, stat: Option<StatResult>): (r: Option<StatResult>)
    ensures stat.None? ==> r.None?
    ensures r.Some? && StartsWith(uri, "content://") ==> r == stat && r.value.path != "" && r.value.size != 0
    ensures r.Some? && !StartsWith(uri, "content://") ==> r.value == StatResult(uri, stat.value.size)
    ensures stat.Some? && !StartsWith(uri, "content://") ==> r.Some?
  {
    match stat
    case None => None
    case Some(st) =>
      if StartsWith(uri, "content://") then
        (if st.path != "" && st.size != 0 then Some(st) else None)
      else Some(StatResult(uri, st.size))
  }

  function NameOf(node: ItemNode, now: nat): DisplayName {
    if node.filename != "" then Given(node.filename) else Stamped(now)
  }

  function FallbackName(item: QueuedItem, now: nat): DisplayName {
    if item.itemNode.filename != "" then Given(item.itemNode.filename)
    else StampedAt(now, item.originalIndex)
  }

  /** The extension test of processFile. A generated `media_<millis>` name
      has no '.', so its "extension" is the whole name, which is never one
      of the video extensions. */
  predicate HasVideoExtension(name: DisplayName) {
    name.Given? && Lower(LastSegment(name.name)) in VIDEO_EXTENSIONS
  }

  predicate IsVideo(mimeType: string, name: DisplayName) {
    StartsWith(mimeType, "video/") || HasVideoExtension(name)
  }

  /** Single-shot only for a file under the limit that is not a video. */
  function ChooseStrategy(size: nat, mimeType: string, name: DisplayName): (s: Strategy)
    ensures s == Chunked <==>
      (size >= CLOUDFLARE_LIMIT || StartsWith(mimeType, "video/") || HasVideoExtension(name))
  {
    if size < CLOUDFLARE_LIMIT && !IsVideo(mimeType, name) then SingleShot else Chunked
  }

  // ---------------------------------------------------------------------
  // Chunk planning
  // ---------------------------------------------------------------------

  /** `Math.ceil(totalSize / CHUNK_SIZE)`. */
  function TotalChunks(size: nat): (n: nat)
    ensures n * CHUNK_SIZE >= size
    ensures n > 0 ==> (n - 1) * CHUNK_SIZE < size
  {
    (size + CHUNK_SIZE - 1) / CHUNK_SIZE
  }

  /** Every byte of the file lies in exactly one of the planned chunks: the
      one with index `p / CHUNK_SIZE`, read at offset `index * CHUNK_SIZE`. */
  lemma ChunkPlanCovers(size: nat, p: nat, i: nat)
    requires p < size
    ensures p / CHUNK_SIZE < TotalChunks(size)
    ensures i * CHUNK_SIZE <= p < i * CHUNK_SIZE + CHUNK_SIZE <==> i == p / CHUNK_SIZE
  {
    var q := p / CHUNK_SIZE;
    assert q * CHUNK_SIZE <= p < q * CHUNK_SIZE + CHUNK_SIZE;
    if i < q {
      assert i * CHUNK_SIZE + CHUNK_SIZE <= q * CHUNK_SIZE;
    } else if i > q {
      assert i * CHUNK_SIZE >= q * CHUNK_SIZE + CHUNK_SIZE;
    }
  }

  // ---------------------------------------------------------------------
  // The chunk loop, as functions of the transport
  // ---------------------------------------------------------------------

  /** The first attempt at or after `from` that succeeds, or
      `MAX_CHUNK_RETRIES` when none of the remaining ones does. */
  function FirstSuccess(t: ChunkTransport, i: nat, from: nat): (a: nat)
    requires from <= MAX_CHUNK_RETRIES
    ensures from <= a <= MAX_CHUNK_RETRIES
    ensures a < MAX_CHUNK_RETRIES ==> t.attemptOk(i, a)
    ensures forall b :: from <= b < a ==> !t.attemptOk(i, b)
    decreases MAX_CHUNK_RETRIES - from
  {
    if from == MAX_CHUNK_RETRIES then from
    else if t.attemptOk(i, from) then from
    else FirstSuccess(t, i, from + 1)
  }

  /** Chunk `i` gets through: it could be read and one of its attempts got a
      2xx answer. */
  predicate ChunkSucceeds(t: ChunkTransport, i: nat) {
    t.readOk(i) && FirstSuccess(t, i, 0) < MAX_CHUNK_RETRIES
  }

  /** How many times the retry loop posts chunk `i`. */
  function AttemptsUsed(t: ChunkTransport, i: nat): (k: nat)
    ensures 1 <= k <= MAX_CHUNK_RETRIES
  {
    var a := FirstSuccess(t, i, 0);
    if a < MAX_CHUNK_RETRIES then a + 1 else MAX_CHUNK_RETRIES
  }

  predicate AllSucceed(t: ChunkTransport, m: nat) {
    forall i :: 0 <= i < m ==> ChunkSucceeds(t, i)
  }

  function Posts(uploadId: string, i: nat, k: nat): seq<Event> {
    seq(k, a requires 0 <= a => ChunkPost(uploadId, i, a))
  }

  /** The read of chunk `i` at its offset and, when the read succeeds, its
      posts. */
  function ChunkEvents(path: string, uploadId: string, t: ChunkTransport, i: nat): seq<Event> {
    [ChunkRead(path, i * CHUNK_SIZE, CHUNK_SIZE)]
      + (if t.readOk(i) then Posts(uploadId, i, AttemptsUsed(t, i)) else [])
  }

  lemma ChunkEventsAt(path: string, uploadId: string, t: ChunkTransport, i: nat)
    ensures var ev := ChunkEvents(path, uploadId, t, i);
      && ev[0] == ChunkRead(path, i * CHUNK_SIZE, CHUNK_SIZE)
      && (forall q :: 1 <= q < |ev| ==> ev[q] == ChunkPost(uploadId, i, q - 1))
      && |ev| == (if t.readOk(i) then 1 + AttemptsUsed(t, i) else 1)
  {
  }

  /** The requests of the chunk loop over indices `0 .. m-1`: chunk `j` is
      tried only when every chunk before it got through. */
  function ChunkPhase(path: string, uploadId: string, t: ChunkTransport, m: nat): seq<Event>
    decreases m
  {
    if m == 0 then []
    else if AllSucceed(t, m - 1) then ChunkPhase(path, uploadId, t, m - 1) + ChunkEvents(path, uploadId, t, m - 1)
    else ChunkPhase(path, uploadId, t, m - 1)
  }

  /** How many chunks of the first `m` the loop completed. */
  function CompletedChunks(t: ChunkTransport, m: nat): (c: nat)
    ensures c <= m
  {
    if m == 0 then 0
    else if AllSucceed(t, m) then m
    else CompletedChunks(t, m - 1)
  }

  /** All requests of a chunked upload of a file with `n` chunks: the chunk
      loop, then the finalize request if and only if the loop completed. */
  function ChunkedTrace(path: string, uploadId: string, name: DisplayName, mimeType: string,
                        t: ChunkTransport, n: nat): seq<Event>
  {
    ChunkPhase(path, uploadId, t, n)
      + (if AllSucceed(t, n) then [CompletePost(uploadId, name, mimeType)] else [])
  }

  /** The progress percentages shown after each of the first `done` chunks. */
  function ChunkProgress(n: nat, done: nat): seq<real>
    requires done <= n
  {
    seq(done, k requires 0 <= k < done => ((k + 1) as real / n as real) * 100.0)
  }

  predicate Accepted(r: Reply) {
    r.Response? && 200 <= r.code < 300
  }

  /** A 2xx answer with a parsable body yields its `status`; a rejected
      fetch, another status code or an unparsable body throws. */
  function ReplyResult(r: Reply): (res: TransferResult)
    ensures res.Answered? <==> Accepted(r) && r.json.Some?
    ensures res.Answered? ==> res.serverStatus == r.json.value
  {
    match r
    case NoResponse => Threw
    case Response(code, json) =>
      if code < 200 || code >= 300 then Threw
      else match json
        case None => Threw
        case Some(s) => Answered(s)
  }

  function ChunkedResult(t: ChunkTransport, n: nat): (res: TransferResult)
    ensures res.Answered? ==> AllSucceed(t, n)
  {
    if AllSucceed(t, n) then ReplyResult(t.finalize) else Threw
  }

  function ChunkedProgress(t: ChunkTransport, n: nat): seq<real> {
    ChunkProgress(n, CompletedChunks(t, n))
      + (if AllSucceed(t, n) && Accepted(t.finalize) then [100.0] else [])
  }

  // ---------------------------------------------------------------------
  // Properties of the chunk loop
  // ---------------------------------------------------------------------

  /** Once chunk `i` fails, nothing after it is tried: the loop's requests
      and its completed count stay as they were after chunk `i`. */
  lemma {:induction false} ChunkPhaseFrozen(path: string, uploadId: string, t: ChunkTransport, i: nat, m: nat)
    requires i < m && !ChunkSucceeds(t, i)
    ensures ChunkPhase(path, uploadId, t, m) == ChunkPhase(path, uploadId, t, i + 1)
    ensures CompletedChunks(t, m) == CompletedChunks(t, i + 1)
    decreases m
  {
    if m > i + 1 {
      assert !AllSucceed(t, m - 1);
      assert !AllSucceed(t, m);
      ChunkPhaseFrozen(path, uploadId, t, i, m - 1);
    }
  }

  /** A request the chunk loop over `0 .. m-1` can make: a read at
      `index * CHUNK_SIZE` of `CHUNK_SIZE` bytes, or a post carrying the
      file's upload id as attempt `0`, `1` or `2`, always about a chunk below
      `m`. */
  predicate WellShaped(e: Event, path: string, uploadId: string, m: nat) {
    match e
    case ChunkRead(p, off, len) => p == path && len == CHUNK_SIZE && off % CHUNK_SIZE == 0 && off / CHUNK_SIZE < m
    case ChunkPost(id, idx, a) => id == uploadId && idx < m && a < MAX_CHUNK_RETRIES
    case _ => false
  }

  /** Every request of the chunk loop over `0 .. m-1` is well shaped. */
  lemma {:induction false} ChunkPhaseShape(path: string, uploadId: string, t: ChunkTransport, m: nat)
    ensures forall e :: e in ChunkPhase(path, uploadId, t, m) ==> WellShaped(e, path, uploadId, m)
  {
    if m > 0 {
      ChunkPhaseShape(path, uploadId, t, m - 1);
      var prev := ChunkPhase(path, uploadId, t, m - 1);
      var last := ChunkEvents(path, uploadId, t, m - 1);
      ChunkEventsAt(path, uploadId, t, m - 1);
      forall e | e in prev + last
        ensures WellShaped(e, path, uploadId, m)
      {
        if e in prev {
          assert WellShaped(e, path, uploadId, m - 1);
        } else {
          var q :| 0 <= q < |last| && last[q] == e;
          if q == 0 {
            assert e.offset == (m - 1) * CHUNK_SIZE;
          }
        }
      }
    }
  }

  /** Chunks are sent one at a time in index order and each chunk's attempts
      in attempt order: of any two posts, the later one is for a later chunk
      or a later attempt at the same chunk. */
  predicate PostsOrdered(tr: seq<Event>) {
    forall j, k :: 0 <= j < k < |tr| && tr[j].ChunkPost? && tr[k].ChunkPost? ==>
      tr[j].chunkIndex < tr[k].chunkIndex
      || (tr[j].chunkIndex == tr[k].chunkIndex && tr[j].attempt < tr[k].attempt)
  }

  lemma {:induction false} ChunkPhaseOrdered(path: string, uploadId: string, t: ChunkTransport, m: nat)
    ensures PostsOrdered(ChunkPhase(path, uploadId, t, m))
  {
    if m > 0 {
      ChunkPhaseOrdered(path, uploadId, t, m - 1);
      if AllSucceed(t, m - 1) {
        var prev := ChunkPhase(path, uploadId, t, m - 1);
        var last := ChunkEvents(path, uploadId, t, m - 1);
        var tr := prev + last;
        assert ChunkPhase(path, uploadId, t, m) == tr;
        ChunkPhaseShape(path, uploadId, t, m - 1);
        ChunkEventsAt(path, uploadId, t, m - 1);
        forall j, k | 0 <= j < k < |tr| && tr[j].ChunkPost? && tr[k].ChunkPost?
          ensures tr[j].chunkIndex < tr[k].chunkIndex
            || (tr[j].chunkIndex == tr[k].chunkIndex && tr[j].attempt < tr[k].attempt)
        {
          if k >= |prev| {
            assert tr[k] == last[k - |prev|];
            if j < |prev| {
              assert tr[j] == prev[j] && prev[j] in prev;
              assert WellShaped(prev[j], path, uploadId, m - 1);
            } else {
              assert tr[j] == last[j - |prev|];
              assert j - |prev| >= 1;
            }
          } else {
            assert tr[j] == prev[j] && tr[k] == prev[k];
          }
        }
      } else {
        assert ChunkPhase(path, uploadId, t, m) == ChunkPhase(path, uploadId, t, m - 1);
      }
    }
  }

  /** Of two reads, the later one is at a higher offset. */
  predicate ReadsOrdered(tr: seq<Event>) {
    forall j, k :: 0 <= j < k < |tr| && tr[j].ChunkRead? && tr[k].ChunkRead? ==>
      tr[j].offset < tr[k].offset
  }

  /** The chunks are read front to back: every read is at a higher offset
      than the reads before it. */
  lemma {:induction false} ChunkPhaseReadsOrdered(path: string, uploadId: string, t: ChunkTransport, m: nat)
    ensures ReadsOrdered(ChunkPhase(path, uploadId, t, m))
  {
    if m > 0 {
      ChunkPhaseReadsOrdered(path, uploadId, t, m - 1);
      if AllSucceed(t, m - 1) {
        var prev := ChunkPhase(path, uploadId, t, m - 1);
        var last := ChunkEvents(path, uploadId, t, m - 1);
        var tr := prev + last;
        assert ChunkPhase(path, uploadId, t, m) == tr;
        ChunkPhaseShape(path, uploadId, t, m - 1);
        ChunkEventsAt(path, uploadId, t, m - 1);
        forall j, k | 0 <= j < k < |tr| && tr[j].ChunkRead? && tr[k].ChunkRead?
          ensures tr[j].offset < tr[k].offset
        {
          if k >= |prev| {
            assert tr[k] == last[k - |prev|];
            assert k == |prev|;
            assert j < |prev|;
            assert tr[j] == prev[j] && prev[j] in prev;
            assert WellShaped(prev[j], path, uploadId, m - 1);
            ReadBelow(tr[j].offset, m - 1);
          } else {
            assert tr[j] == prev[j] && tr[k] == prev[k];
          }
        }
      } else {
        assert ChunkPhase(path, uploadId, t, m) == ChunkPhase(path, uploadId, t, m - 1);
      }
    }
  }

  /** A chunk offset of a chunk below `m` lies before chunk `m`'s. */
  lemma ReadBelow(off: nat, m: nat)
    requires off % CHUNK_SIZE == 0 && off / CHUNK_SIZE < m
    ensures off < m * CHUNK_SIZE
  {
  }

  /** When every chunk gets through, each chunk `i < n` is read at
      `i * CHUNK_SIZE` and posted until its first successful attempt. */
  lemma {:induction false} ChunkPhaseComplete(path: string, uploadId: string, t: ChunkTransport, m: nat, i: nat)
    requires AllSucceed(t, m) && i < m
    ensures ChunkRead(path, i * CHUNK_SIZE, CHUNK_SIZE) in ChunkPhase(path, uploadId, t, m)
    ensures ChunkPost(uploadId, i, FirstSuccess(t, i, 0)) in ChunkPhase(path, uploadId, t, m)
    decreases m
  {
    var prev := ChunkPhase(path, uploadId, t, m - 1);
    var last := ChunkEvents(path, uploadId, t, m - 1);
    assert AllSucceed(t, m - 1);
    assert ChunkPhase(path, uploadId, t, m) == prev + last;
    if i == m - 1 {
      assert ChunkSucceeds(t, i);
      ChunkEventsAt(path, uploadId, t, i);
      assert last[0] == ChunkRead(path, i * CHUNK_SIZE, CHUNK_SIZE);
      assert last[1 + FirstSuccess(t, i, 0)] == ChunkPost(uploadId, i, FirstSuccess(t, i, 0));
    } else {
      ChunkPhaseComplete(path, uploadId, t, m - 1, i);
    }
  }

  /** When chunk `f` is the first that does not get through, the loop made
      no request about any later chunk; if its read succeeded it was posted
      exactly `MAX_CHUNK_RETRIES` times, the last failure ending the file. */
  lemma {:induction false} ChunkPhaseStopsAtFailure(path: string, uploadId: string, t: ChunkTransport, n: nat, f: nat)
    requires f < n && AllSucceed(t, f) && !ChunkSucceeds(t, f)
    ensures forall e :: e in ChunkPhase(path, uploadId, t, n) && e.ChunkPost? ==> e.chunkIndex <= f
    ensures forall e :: e in ChunkPhase(path, uploadId, t, n) && e.ChunkRead? ==> e.offset <= f * CHUNK_SIZE
    ensures t.readOk(f) ==> forall a :: 0 <= a < MAX_CHUNK_RETRIES ==> ChunkPost(uploadId, f, a) in ChunkPhase(path, uploadId, t, n)
    ensures CompletedChunks(t, n) == f
  {
    ChunkPhaseFrozen(path, uploadId, t, f, n);
    ChunkPhaseShape(path, uploadId, t, f + 1);
    var tr := ChunkPhase(path, uploadId, t, f + 1);
    assert tr == ChunkPhase(path, uploadId, t, f) + ChunkEvents(path, uploadId, t, f);
    forall e | e in tr && e.ChunkRead?
      ensures e.offset <= f * CHUNK_SIZE
    {
      var q := e.offset / CHUNK_SIZE;
      assert e.offset == q * CHUNK_SIZE && q <= f;
    }
    if t.readOk(f) {
      var last := ChunkEvents(path, uploadId, t, f);
      assert AttemptsUsed(t, f) == MAX_CHUNK_RETRIES;
      forall a | 0 <= a < MAX_CHUNK_RETRIES
        ensures ChunkPost(uploadId, f, a) in tr
      {
        assert last[1 + a] == ChunkPost(uploadId, f, a);
      }
    }
    CompletedBelow(t, f);
  }

  /** A chunk that fails ends the file: the transfer throws, its requests
      are those made up to and including that chunk, and the progress shown
      is that of the chunks before it. */
  lemma ChunkFailureEnds(path: string, uploadId: string, name: DisplayName, mimeType: string,
                         t: ChunkTransport, i: nat, n: nat)
    requires i < n && AllSucceed(t, i) && !ChunkSucceeds(t, i)
    ensures ChunkedResult(t, n) == Threw
    ensures ChunkedTrace(path, uploadId, name, mimeType, t, n) == ChunkPhase(path, uploadId, t, i + 1)
    ensures ChunkedProgress(t, n) == ChunkProgress(n, i)
  {
    ChunkPhaseFrozen(path, uploadId, t, i, n);
    CompletedBelow(t, i);
    assert !AllSucceed(t, n);
  }

  lemma {:induction false} CompletedBelow(t: ChunkTransport, f: nat)
    requires AllSucceed(t, f) && !ChunkSucceeds(t, f)
    ensures CompletedChunks(t, f + 1) == f
  {
    assert !AllSucceed(t, f + 1);
  }

  /** The finalize request is made if and only if every chunk got through,
      and then it is the last request of the file. */
  lemma FinalizeOnlyAfterAllChunks(path: string, uploadId: string, name: DisplayName, mimeType: string,
                                   t: ChunkTransport, n: nat)
    ensures var tr := ChunkedTrace(path, uploadId, name, mimeType, t, n);
      (CompletePost(uploadId, name, mimeType) in tr <==> AllSucceed(t, n))
      && (AllSucceed(t, n) ==> tr[|tr| - 1] == CompletePost(uploadId, name, mimeType))
  {
    ChunkPhaseShape(path, uploadId, t, n);
  }

  /** Progress after chunk `i` is `(i+1)/n*100`: it rises strictly from one
      chunk to the next and is 100 after the last chunk. */
  lemma ChunkProgressRises(n: nat, done: nat)
    requires done <= n
    ensures var p := ChunkProgress(n, done);
      (forall j, k :: 0 <= j < k < done ==> p[j] < p[k])
      && (done == n > 0 ==> p[n - 1] == 100.0)
  {
    var p := ChunkProgress(n, done);
    forall j, k | 0 <= j < k < done
      ensures p[j] < p[k]
    {
      ProgressPair(n, done, j, k);
    }
    if done == n > 0 {
      assert n as real / n as real == 1.0;
      assert p[n - 1] == (n as real / n as real) * 100.0;
    }
  }

  lemma ProgressPair(n: nat, done: nat, j: nat, k: nat)
    requires j < k < done <= n
    ensures ChunkProgress(n, done)[j] < ChunkProgress(n, done)[k]
  {
    var x, y := (j + 1) as real / n as real, (k + 1) as real / n as real;
    DivideMonotone((j + 1) as real, (k + 1) as real, n as real);
    assert ChunkProgress(n, done)[j] == x * 100.0 && ChunkProgress(n, done)[k] == y * 100.0;
  }

  lemma DivideMonotone(x: real, y: real, d: real)
    requires x < y && 0.0 < d
    ensures x / d < y / d
  {
    assert y / d - x / d == (y - x) / d;
  }

  // ---------------------------------------------------------------------
  // Uploads
  // ---------------------------------------------------------------------

  /** The retry loop of uploadFileInChunks for chunk `i`: post until an
      attempt gets a 2xx answer, at most `MAX_CHUNK_RETRIES` times. */
  method PostChunk(uploadId: string, i: nat, t: ChunkTransport) returns (chunkSuccess: bool, posts: seq<Event>)
    ensures chunkSuccess <==> FirstSuccess(t, i, 0) < MAX_CHUNK_RETRIES
    ensures posts == Posts(uploadId, i, AttemptsUsed(t, i))
  {
    posts := [];
    var attempt := 0;
    chunkSuccess := false;
    while attempt < MAX_CHUNK_RETRIES && !chunkSuccess
      invariant attempt <= MAX_CHUNK_RETRIES
      invariant forall b :: 0 <= b < attempt ==> !t.attemptOk(i, b)
      invariant chunkSuccess ==> attempt < MAX_CHUNK_RETRIES && t.attemptOk(i, attempt)
      invariant posts == Posts(uploadId, i, if chunkSuccess then attempt + 1 else attempt)
      decreases MAX_CHUNK_RETRIES - attempt, if chunkSuccess then 0 else 1
    {
      posts := posts + [ChunkPost(uploadId, i, attempt)];
      if t.attemptOk(i, attempt) {
        chunkSuccess := true;
      } else {
        attempt := attempt + 1;
      }
    }
    if chunkSuccess {
      assert FirstSuccess(t, i, 0) == attempt;
    } else {
      assert FirstSuccess(t, i, 0) == MAX_CHUNK_RETRIES;
    }
  }

  /** uploadFileInChunks: read and post the chunks in index order, each up
      to `MAX_CHUNK_RETRIES` times, then finalize. `fileUri` is the resolved
      path; `file://` is stripped before reading. */
  method UploadFileInChunks(fileUri: string, filename: DisplayName, mimeType: string, totalSize: nat,
                            uploadId: string, t: ChunkTransport)
    returns (result: TransferResult, events: seq<Event>, progress: seq<real>)
    ensures var n := TotalChunks(totalSize);
      && result == ChunkedResult(t, n)
      && events == ChunkedTrace(ReplaceFirst(fileUri, "file://", ""), uploadId, filename, mimeType, t, n)
      && progress == ChunkedProgress(t, n)
  {
    var n := TotalChunks(totalSize);
    var path := ReplaceFirst(fileUri, "file://", "");
    events, progress := [], [];
    var i := 0;
    while i < n
      invariant i <= n
      invariant AllSucceed(t, i)
      invariant events == ChunkPhase(path, uploadId, t, i)
      invariant progress == ChunkProgress(n, i)
    {
      events := events + [ChunkRead(path, i * CHUNK_SIZE, CHUNK_SIZE)];
      if !t.readOk(i) {
        // RNFS.read rejected: the file fails.
        assert events == ChunkPhase(path, uploadId, t, i + 1);
        ChunkFailureEnds(path, uploadId, filename, mimeType, t, i, n);
        return Threw, events, progress;
      }
      var chunkSuccess, posts := PostChunk(uploadId, i, t);
      events := events + posts;
      if !chunkSuccess {
        // The third failure rethrows: the whole file fails.
        assert events == ChunkPhase(path, uploadId, t, i + 1);
        ChunkFailureEnds(path, uploadId, filename, mimeType, t, i, n);
        return Threw, events, progress;
      }
      assert AllSucceed(t, i + 1);
      progress := progress + [((i + 1) as real / n as real) * 100.0];
      assert progress == ChunkProgress(n, i + 1);
      i := i + 1;
    }
    // Finalize: only reached when every chunk got through.
    events := events + [CompletePost(uploadId, filename, mimeType)];
    assert CompletedChunks(t, n) == n;
    match t.finalize
    case NoResponse =>
      result := Threw;
    case Response(code, json) =>
      if code < 200 || code >= 300 {
        result := Threw;
      } else {
        progress := progress + [100.0];
        match json
        case None =>
          result := Threw;
        case Some(s) =>
          result := Answered(s);
      }
  }

  /** uploadSingleFile: one multipart request; a 2xx answer shows 100%. */
  function SingleShotProgress(r: Reply): seq<real> {
    if Accepted(r) then [100.0] else []
  }

  /** The list a file lands in, given the server's `status`. The second test
      repeats the first, so the duplicate list is never chosen. */
  function Classify(serverStatus: string, record: UploadRecord): (o: FileOutcome)
    ensures o.Succeeded? <==> serverStatus == PROCESSING
    ensures o.Succeeded? ==> o.record == record
    ensures o.Failed? ==> o.name == record.filename
    ensures !o.Duplicate?
  {
    if serverStatus == PROCESSING then Succeeded(record)
    else if serverStatus == PROCESSING then Duplicate(record)
    else Failed(record.filename)
  }

  /** What processFile pushes for one item. */
  function FileOutcomeOf(item: QueuedItem, env: FileEnv): FileOutcome {
    var node := item.itemNode;
    var fallback := FallbackName(item, env.failedAt);
    match ResolveFile(node.uri, env.stat)
    case None => Failed(fallback)
    case Some(st) =>
      var name := NameOf(node, env.startedAt);
      var record := UploadRecord(name, node.uri, StartsWith(node.uri, "file://"));
      var result :=
        if ChooseStrategy(st.size, node.mimeType, name) == SingleShot then ReplyResult(env.single)
        else ChunkedResult(env.chunks, TotalChunks(st.size));
      match result
      case Threw => Failed(fallback)
      case Answered(s) => Classify(s, record)
  }

  /** A file is recorded as a success exactly when its size was resolved,
      its transfer (every chunk and the finalize, or the single request) got
      a 2xx answer with a body, and that body's status is "processing". The
      record keeps the original URI, and `isTemp` says whether it is a
      `file://` URI. No file is ever recorded as a duplicate. */
  lemma FileOutcomeSpec(item: QueuedItem, env: FileEnv)
    ensures var o := FileOutcomeOf(item, env);
      var node := item.itemNode;
      var res := ResolveFile(node.uri, env.stat);
      && !o.Duplicate?
      && (res.None? ==> o == Failed(FallbackName(item, env.failedAt)))
      && (o.Succeeded? <==>
           res.Some? &&
           var name := NameOf(node, env.startedAt);
           var reply :=
             if ChooseStrategy(res.value.size, node.mimeType, name) == SingleShot then env.single
             else env.chunks.finalize;
           Accepted(reply) && reply.json == Some(PROCESSING)
           && (ChooseStrategy(res.value.size, node.mimeType, name) == Chunked
               ==> AllSucceed(env.chunks, TotalChunks(res.value.size))))
      && (o.Succeeded? ==> o.record.fileUri == node.uri
                           && o.record.isTemp == StartsWith(node.uri, "file://"))
  {
  }

  /** processFile: resolve the size, pick the strategy, upload, and report
      which list the item belongs in. Every error ends in `Failed`. */
  method ProcessFile(item: QueuedItem, env: FileEnv)
    returns (outcome: FileOutcome, events: seq<Event>, progress: seq<real>)
    ensures outcome == FileOutcomeOf(item, env)
    ensures var node := item.itemNode;
      match ResolveFile(node.uri, env.stat)
      case None => events == [] && progress == []
      case Some(st) =>
        var name := NameOf(node, env.startedAt);
        if ChooseStrategy(st.size, node.mimeType, name) == SingleShot then
          events == [SinglePost(name, node.mimeType, node.uri)] && progress == SingleShotProgress(env.single)
        else
          events == ChunkedTrace(ReplaceFirst(st.path, "file://", ""), env.uploadId, name, node.mimeType,
                                 env.chunks, TotalChunks(st.size))
          && progress == ChunkedProgress(env.chunks, TotalChunks(st.size))
  {
    var node := item.itemNode;
    var fallback := FallbackName(item, env.failedAt);
    var resolved := ResolveFile(node.uri, env.stat);
    if resolved.None? {
      return Failed(fallback), [], [];
    }
    var st := resolved.value;
    var name := NameOf(node, env.startedAt);
    var isTemp := StartsWith(node.uri, "file://");
    var result;
    if ChooseStrategy(st.size, node.mimeType, name) == SingleShot {
      events := [SinglePost(name, node.mimeType, node.uri)];
      progress := SingleShotProgress(env.single);
      result := ReplyResult(env.single);
    } else {
      result, events, progress :=
        UploadFileInChunks(st.path, name, node.mimeType, st.size, env.uploadId, env.chunks);
    }
    match result
    case Threw =>
      outcome := Failed(fallback);
    case Answered(s) =>
      outcome := Classify(s, UploadRecord(name, node.uri, isTemp));
  }

  // ---------------------------------------------------------------------
  // Retention
  // ---------------------------------------------------------------------

  /** The URIs of the finished files that are gallery assets. */
  function GalleryUris(finished: seq<UploadRecord>): (uris: seq<string>)
    ensures |uris| <= |finished|
    ensures forall u :: u in uris <==> exists r :: r in finished && !r.isTemp && r.fileUri == u
  {
    if finished == [] then []
    else
      var rest := GalleryUris(finished[1..]);
      assert forall r :: r in finished[1..] ==> r in finished;
      if finished[0].isTemp then rest else [finished[0].fileUri] + rest
  }

  /** The paths of the finished files the engine copied itself, with the
      first `file://` removed. */
  function TempPaths(finished: seq<UploadRecord>): (paths: seq<string>)
    ensures |paths| <= |finished|
    ensures forall p :: p in paths <==>
      exists r :: r in finished && r.isTemp && ReplaceFirst(r.fileUri, "file://", "") == p
  {
    if finished == [] then []
    else
      var rest := TempPaths(finished[1..]);
      assert forall r :: r in finished[1..] ==> r in finished;
      if finished[0].isTemp then [ReplaceFirst(finished[0].fileUri, "file://", "")] + rest else rest
  }

  function RetentionPlan(finished: seq<UploadRecord>): Retention {
    Retention(GalleryUris(finished), TempPaths(finished))
  }

  /** Each finished file is cleaned up exactly once: either as a gallery
      deletion or as a temporary-file unlink. */
  lemma {:induction false} RetentionPartition(finished: seq<UploadRecord>)
    ensures |GalleryUris(finished)| + |TempPaths(finished)| == |finished|
  {
    if finished != [] {
      RetentionPartition(finished[1..]);
    }
  }

  /** A temporary file's URI starts with `file://`, so the unlinked path is
      the URI without that prefix. */
  lemma TempPathIsUriWithoutScheme(r: UploadRecord)
    requires r.isTemp == StartsWith(r.fileUri, "file://") && r.isTemp
    ensures ReplaceFirst(r.fileUri, "file://", "") == r.fileUri[7..]
  {
    ReplaceFirstPrefix(r.fileUri, "file://");
  }

  function SucceededRecords(outcomes: seq<FileOutcome>): seq<UploadRecord> {
    if outcomes == [] then []
    else (if outcomes[0].Succeeded? then [outcomes[0].record] else []) + SucceededRecords(outcomes[1..])
  }

  /** The environment seen from the next item on: item `k` of the rest
      sees what item `k + 1` saw. */
  function Shift(env: nat -> FileEnv): nat -> FileEnv {
    (k: nat) => env(k + 1)
  }

  /** What processing `queue` front to back records, item `k` seeing
      `env(k)`. */
  function OutcomesOf(queue: seq<QueuedItem>, env: nat -> FileEnv): seq<FileOutcome>
    decreases |queue|
  {
    if queue == [] then [] else [FileOutcomeOf(queue[0], env(0))] + OutcomesOf(queue[1..], Shift(env))
  }

  /** One outcome per item, in queue order: the `k`-th is that of item `k`
      under `env(k)`. */
  lemma {:induction false} OutcomesOfAt(queue: seq<QueuedItem>, env: nat -> FileEnv)
    ensures |OutcomesOf(queue, env)| == |queue|
    ensures forall k :: 0 <= k < |queue| ==> OutcomesOf(queue, env)[k] == FileOutcomeOf(queue[k], env(k))
    decreases |queue|
  {
    if queue != [] {
      OutcomesOfAt(queue[1..], Shift(env));
      forall k | 1 <= k < |queue|
        ensures OutcomesOf(queue, env)[k] == FileOutcomeOf(queue[k], env(k))
      {
        assert OutcomesOf(queue, env)[k] == OutcomesOf(queue[1..], Shift(env))[k - 1];
        assert Shift(env)(k - 1) == env(k);
      }
    }
  }

  /** Recording one more success before the rest keeps the list of
      successes in processing order. */
  lemma SucceededStep(before: seq<UploadRecord>, after: seq<UploadRecord>, o: FileOutcome, rest: seq<FileOutcome>)
    requires after == before + (if o.Succeeded? then [o.record] else [])
    ensures after + SucceededRecords(rest) == before + SucceededRecords([o] + rest)
  {
    assert ([o] + rest)[1..] == rest;
  }

  // ---------------------------------------------------------------------
  // The queue
  // ---------------------------------------------------------------------

  /** The queue entries for `files`, numbered from `base` in list order. */
  function Indexed(files: seq<ItemNode>, base: nat): (items: seq<QueuedItem>)
    ensures |items| == |files|
    ensures forall k :: 0 <= k < |files| ==> items[k] == QueuedItem(files[k], base + k)
  {
    seq(|files|, k requires 0 <= k < |files| => QueuedItem(files[k], base + k))
  }

  /** The module-level state of services/UploadManager.js. Between two
      steps of the engine an item can be in flight (`isProcessing`), which is
      when the gallery may enqueue more files. */
  class UploadQueue {
    var uploadQueue: seq<QueuedItem>
    var isProcessing: bool
    var totalFilesInSession: nat
    var completedFilesInSession: nat
    var successfulUploads: seq<UploadRecord>
    var duplicateUploads: seq<UploadRecord>
    var failedUploads: seq<DisplayName>

    /** The session accounts for every file: each is finished, queued or in
        flight; each finished file is on exactly one list; and the duplicate
        list is never written. */
    ghost predicate Valid()
      reads this
    {
      && totalFilesInSession == completedFilesInSession + |uploadQueue| + (if isProcessing then 1 else 0)
      && |successfulUploads| + |duplicateUploads| + |failedUploads| == completedFilesInSession
      && duplicateUploads == []
    }

    predicate IsIdle()
      reads this
    {
      uploadQueue == [] && !isProcessing
    }

    constructor ()
      ensures Valid() && IsIdle()
      ensures totalFilesInSession == 0 && completedFilesInSession == 0
      ensures successfulUploads == [] && duplicateUploads == [] && failedUploads == []
    {
      uploadQueue := [];
      isProcessing := false;
      totalFilesInSession := 0;
      completedFilesInSession := 0;
      successfulUploads := [];
      duplicateUploads := [];
      failedUploads := [];
    }

    /** The bookkeeping of addFilesToUploadQueue. An empty list changes
        nothing. Enqueuing onto an idle, empty queue starts a new session;
        otherwise the files join the running session. Each file is queued at
        the tail with index `completed + queue length + position`. */
    method Enqueue(files: seq<ItemNode>)
      requires Valid()
      modifies this
      ensures Valid()
      ensures files == [] ==>
        && uploadQueue == old(uploadQueue) && totalFilesInSession == old(totalFilesInSession)
        && completedFilesInSession == old(completedFilesInSession)
        && successfulUploads == old(successfulUploads) && failedUploads == old(failedUploads)
      ensures isProcessing == old(isProcessing) && duplicateUploads == old(duplicateUploads)
      ensures files != [] && old(IsIdle()) ==>
        && totalFilesInSession == |files| && completedFilesInSession == 0
        && successfulUploads == [] && failedUploads == []
      ensures files != [] && !old(IsIdle()) ==>
        && totalFilesInSession == old(totalFilesInSession) + |files|
        && completedFilesInSession == old(completedFilesInSession)
        && successfulUploads == old(successfulUploads) && failedUploads == old(failedUploads)
      ensures files != [] ==>
        uploadQueue == old(uploadQueue) + Indexed(files, completedFilesInSession + |old(uploadQueue)|)
    {
      if files == [] {
        return;
      }
      if uploadQueue == [] && !isProcessing {
        totalFilesInSession := |files|;
        completedFilesInSession := 0;
        successfulUploads := [];
        duplicateUploads := [];
        failedUploads := [];
      } else {
        totalFilesInSession := totalFilesInSession + |files|;
      }
      var base := completedFilesInSession + |uploadQueue|;
      uploadQueue := uploadQueue + Indexed(files, base);
    }

    /** The start of processQueue once it is allowed to run: mark the engine
        busy and take the oldest item. */
    method StartNext() returns (item: QueuedItem)
      requires Valid() && !isProcessing && uploadQueue != []
      modifies this
      ensures Valid() && isProcessing
      ensures item == old(uploadQueue)[0] && uploadQueue == old(uploadQueue)[1..]
      ensures totalFilesInSession == old(totalFilesInSession)
      ensures completedFilesInSession == old(completedFilesInSession)
      ensures successfulUploads == old(successfulUploads) && duplicateUploads == old(duplicateUploads)
      ensures failedUploads == old(failedUploads)
    {
      isProcessing := true;
      item := uploadQueue[0];
      uploadQueue := uploadQueue[1..];
    }

    /** The push processFile makes for the in-flight item, then the
        `finally` of processQueue: one more completed file, engine idle. */
    method FinishFile(outcome: FileOutcome)
      requires Valid() && isProcessing && !outcome.Duplicate?
      modifies this
      ensures Valid() && !isProcessing
      ensures completedFilesInSession == old(completedFilesInSession) + 1
      ensures totalFilesInSession == old(totalFilesInSession) && uploadQueue == old(uploadQueue)
      ensures successfulUploads == old(successfulUploads) + (if outcome.Succeeded? then [outcome.record] else [])
      ensures duplicateUploads == old(duplicateUploads)
      ensures failedUploads == old(failedUploads) + (if outcome.Failed? then [outcome.name] else [])
    {
      match outcome {
        case Succeeded(r) => successfulUploads := successfulUploads + [r];
        case Failed(name) => failedUploads := failedUploads + [name];
      }
      completedFilesInSession := completedFilesInSession + 1;
      isProcessing := false;
    }

    /** One turn of processQueue with a non-empty queue: take the oldest item,
        process it, record its outcome. */
    method ProcessOne(env: FileEnv) returns (outcome: FileOutcome)
      requires Valid() && !isProcessing && uploadQueue != []
      modifies this
      ensures Valid() && !isProcessing
      ensures outcome == FileOutcomeOf(old(uploadQueue)[0], env)
      ensures uploadQueue == old(uploadQueue)[1..]
      ensures completedFilesInSession == old(completedFilesInSession) + 1
      ensures totalFilesInSession == old(totalFilesInSession)
      ensures successfulUploads == old(successfulUploads) + (if outcome.Succeeded? then [outcome.record] else [])
      ensures duplicateUploads == old(duplicateUploads)
      ensures failedUploads == old(failedUploads) + (if outcome.Failed? then [outcome.name] else [])
    {
      var item := StartNext();
      var events, progress;
      outcome, events, progress := ProcessFile(item, env);
      FileOutcomeSpec(item, env);
      FinishFile(outcome);
    }

    /** The end of a session, reached when processQueue finds the queue
        empty: if any file was processed, the successful and duplicate files
        are split into gallery deletions and temp-file unlinks (failed files
        are never deleted, and a failing deletion changes nothing here), and
        the session is reset. */
    method FinishSession() returns (retention: Option<Retention>)
      requires Valid() && IsIdle()
      modifies this
      ensures Valid() && IsIdle()
      ensures old(completedFilesInSession) > 0 ==>
        && retention == Some(RetentionPlan(old(successfulUploads) + old(duplicateUploads)))
        && totalFilesInSession == 0 && completedFilesInSession == 0
        && successfulUploads == [] && duplicateUploads == [] && failedUploads == []
      ensures old(completedFilesInSession) == 0 ==>
        && retention == None
        && totalFilesInSession == old(totalFilesInSession)
        && successfulUploads == old(successfulUploads) && failedUploads == old(failedUploads)
    {
      retention := None;
      if completedFilesInSession > 0 {
        var filesToDelete := successfulUploads + duplicateUploads;
        retention := Some(RetentionPlan(filesToDelete));
        totalFilesInSession := 0;
        completedFilesInSession := 0;
        successfulUploads := [];
        duplicateUploads := [];
        failedUploads := [];
      }
    }

    /** processQueue and the chain of calls it schedules, run to the end:
        nothing happens while a file is in flight; otherwise the oldest item
        is processed with `env(0)` and processQueue runs again on the rest,
        the next item seeing `env(1)`, until the empty queue ends the
        session. */
    method ProcessQueue(env: nat -> FileEnv) returns (outcomes: seq<FileOutcome>, retention: Option<Retention>)
      requires Valid()
      modifies this
      ensures Valid()
      ensures old(isProcessing) ==>
        && outcomes == [] && retention == None && isProcessing
        && uploadQueue == old(uploadQueue) && totalFilesInSession == old(totalFilesInSession)
        && completedFilesInSession == old(completedFilesInSession)
        && successfulUploads == old(successfulUploads) && failedUploads == old(failedUploads)
      ensures !old(isProcessing) ==>
        && IsIdle()
        && outcomes == OutcomesOf(old(uploadQueue), env)
      ensures !old(isProcessing) && old(completedFilesInSession) + |old(uploadQueue)| > 0 ==>
        && retention == Some(RetentionPlan(old(successfulUploads) + SucceededRecords(outcomes)))
        && totalFilesInSession == 0 && completedFilesInSession == 0
        && successfulUploads == [] && failedUploads == []
      ensures !old(isProcessing) && old(completedFilesInSession) + |old(uploadQueue)| == 0 ==>
        retention == None
      decreases |uploadQueue|
    {
      if isProcessing {
        return [], None;
      }
      if uploadQueue == [] {
        outcomes := [];
        retention := FinishSession();
        return;
      }
      ghost var successful0 := successfulUploads;
      var outcome := ProcessOne(env(0));
      var rest;
      ghost var successful1 := successfulUploads;
      rest, retention := ProcessQueue(Shift(env));
      outcomes := [outcome] + rest;
      SucceededStep(successful0, successful1, outcome, rest);
    }

    /** addFilesToUploadQueue: enqueue, and start processing unless a file
        is already in flight. */
    method AddFilesToUploadQueue(files: seq<ItemNode>, env: nat -> FileEnv)
      returns (outcomes: seq<FileOutcome>, retention: Option<Retention>)
      requires Valid()
      modifies this
      ensures Valid()
      ensures files == [] ==>
        && outcomes == [] && retention == None && uploadQueue == old(uploadQueue)
        && isProcessing == old(isProcessing) && totalFilesInSession == old(totalFilesInSession)
        && completedFilesInSession == old(completedFilesInSession)
        && successfulUploads == old(successfulUploads) && failedUploads == old(failedUploads)
      ensures old(isProcessing) ==>
        && outcomes == [] && retention == None && isProcessing
        && uploadQueue == old(uploadQueue) + Indexed(files, old(completedFilesInSession) + |old(uploadQueue)|)
        && totalFilesInSession == old(totalFilesInSession) + |files|
        && completedFilesInSession == old(completedFilesInSession)
        && successfulUploads == old(successfulUploads) && failedUploads == old(failedUploads)
      ensures files != [] && !old(isProcessing) ==>
        && IsIdle() && |outcomes| == |old(uploadQueue)| + |files|
        && outcomes == OutcomesOf(old(uploadQueue) + Indexed(files, if old(IsIdle()) then 0 else old(completedFilesInSession) + |old(uploadQueue)|), env)
        && totalFilesInSession == 0 && completedFilesInSession == 0
        && successfulUploads == [] && failedUploads == []
        && retention == Some(RetentionPlan((if old(IsIdle()) then [] else old(successfulUploads)) + SucceededRecords(outcomes)))
    {
      outcomes, retention := [], None;
      if files == [] {
        return;
      }
      ghost var base := if IsIdle() then 0 else completedFilesInSession + |uploadQueue|;
      ghost var successful := if IsIdle() then [] else successfulUploads;
      ghost var queued := uploadQueue + Indexed(files, base);
      Enqueue(files);
      if isProcessing {
        return;
      }
      assert uploadQueue == queued && successfulUploads == successful && uploadQueue != [];
      OutcomesOfAt(queued, env);
      outcomes, retention := ProcessQueue(env);
    }
  }
}

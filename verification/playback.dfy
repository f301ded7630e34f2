/** The play and delete handlers of the movie-detail page: `handlePlay`
    resumes from chunks already in the store, streams the file from the
    torrent server, publishes a blob once 5% of the announced length is in,
    keeps reading in the background and publishes the whole file at the
    end; `handleDeleteTempFile` forgets the active video. The React state
    the handlers touch is one `Player` record; each `set...` call is a field
    update on it, and the snackbar keeps only the last message shown. */
module Playback {

  import opened Options
  import opened JsValue
  import opened ChunkStore

  /** `parseInt(...)` of the `Content-Length` header: a number, or `NaN`. */
  datatype Length = Finite(n: int) | NaN

  /** One `downloadProgress[videoId]` entry. */
  datatype Progress = Progress(received: nat, total: Length)

  datatype Failure = NoTorrentSource | NetworkError | HttpStatus(status: int)

  /** The snackbar messages `handlePlay` and `handleDeleteTempFile` show. */
  datatype Notice =
    | Resuming(filename: string)
    | NotEnoughBuffered
    | Streaming(filename: string)
    | PlaybackFailed(why: Failure)
    | BufferFailed
    | NowPlaying(filename: string)
    | TempDeleted

  /** The part of the page state the handlers read and write. `videoUrl` is
      the content of the blob the object URL points at. */
  datatype Player = Player(
    db: Db,
    videoUrl: Option<seq<byte>>,
    activeVideoId: Option<string>,
    canPlay: bool,
    activeTab: int,
    playLoading: bool,
    progress: map<string, Progress>,
    notice: Option<Notice>)

  /** What the `fetch` to the stream server settles to: a rejected promise,
      or a response whose body the reader yields chunk by chunk. */
  datatype Reply =
    | FetchRejected
    | Response(ok: bool, status: int, contentLength: Length, body: seq<Chunk>)

  /** The store key of a file of a movie: `${movie.id}-${filename}`. */
  function VideoKey(movieId: string, filename: string): (k: string)
    ensures |k| == |movieId| + 1 + |filename|
    ensures k[..|movieId|] == movieId && k[|movieId|] == '-' && k[|movieId| + 1..] == filename
  {
    movieId + "-" + filename
  }

  /** Within one movie, different files never share a store record. */
  lemma VideoKeyInjective(movieId: string, f1: string, f2: string)
    requires VideoKey(movieId, f1) == VideoKey(movieId, f2)
    ensures f1 == f2
  {
    assert f1 == VideoKey(movieId, f1)[|movieId| + 1..];
  }

  /** `findTorrentIdentifier(selectedQuality)`: `torrent?.magnet || torrent?.torrent`. */
  function TorrentIdentifier(quality: Value): (r: Value)
    ensures Truthy(r) <==> !IsNullish(quality) && (Truthy(Get(quality, "magnet")) || Truthy(Get(quality, "torrent")))
    ensures Truthy(Get(quality, "magnet")) ==> r == Get(quality, "magnet")
  {
    Or(OptionalMember(quality, "magnet"), OptionalMember(quality, "torrent"))
  }

  /** Size of slot 0, or 0 when it is a hole (`existingChunks[0]?.byteLength || 0`). */
  function FirstChunkSize(chunks: seq<Option<Chunk>>): nat {
    if |chunks| > 0 && chunks[0].Some? then |chunks[0].value| else 0
  }

  /** The resume test `firstChunkSize > 0 && totalSize > firstChunkSize * 0.05`,
      over integers: `totalSize * 20 > firstChunkSize`. */
  predicate ResumeAccepted(chunks: seq<Option<Chunk>>) {
    FirstChunkSize(chunks) > 0 && StoredBytes(chunks) * 20 > FirstChunkSize(chunks)
  }

  /** The 5% test compares the stored bytes with the first chunk, not with
      the file, so it only fails when slot 0 is a hole or an empty chunk. */
  lemma ResumeOnlyNeedsFirstChunk(chunks: seq<Option<Chunk>>)
    requires |chunks| > 0
    ensures ResumeAccepted(chunks) <==> chunks[0].Some? && |chunks[0].value| > 0
  {
    if chunks[0].Some? {
      StoredBytesCoversFirst(chunks);
    }
  }

  /** The session finds a stored record and resumes from it. */
  predicate Resumes(db: Db, key: string) {
    var e := GetVideoChunks(db, key);
    |e| > 0 && ResumeAccepted(e)
  }

  /** The session finds a stored record too small to resume from and stops. */
  predicate Refuses(db: Db, key: string) {
    var e := GetVideoChunks(db, key);
    |e| > 0 && !ResumeAccepted(e)
  }

  /** The blob a resume publishes: the stored chunks, holes skipped, each
      at the offset of the bytes stored in the slots before it. */
  function ResumedBytes(db: Db, key: string): (r: seq<byte>)
    ensures ChunksAtOffsets(GetVideoChunks(db, key), r)
  {
    PresentBlobOffsets(GetVideoChunks(db, key));
    Concat(Present(GetVideoChunks(db, key)))
  }

  /** The priming loop `while (receivedLength < contentLength * 0.05)` is
      still running after reading the first `k` chunks. */
  predicate KeepsPriming(body: seq<Chunk>, total: Length, k: nat)
    requires k <= |body|
  {
    total.Finite? && SumLengths(body[..k]) * 20 < total.n
  }

  function PrimingFrom(body: seq<Chunk>, total: Length, k: nat): (r: nat)
    requires k <= |body|
    requires forall j :: 0 <= j < k ==> KeepsPriming(body, total, j)
    ensures k <= r <= |body|
    ensures r == |body| || !KeepsPriming(body, total, r)
    ensures forall j :: 0 <= j < r ==> KeepsPriming(body, total, j)
    decreases |body| - k
  {
    if k == |body| || !KeepsPriming(body, total, k) then k
    else PrimingFrom(body, total, k + 1)
  }

  /** How many chunks the priming loop reads: the first count at which the
      5% test is met, or the whole body when the stream ends first. */
  function PrimingReads(body: seq<Chunk>, total: Length): (r: nat)
    ensures r <= |body|
    ensures r == |body| || !KeepsPriming(body, total, r)
    ensures forall j :: 0 <= j < r ==> KeepsPriming(body, total, j)
  {
    PrimingFrom(body, total, 0)
  }

  /** The priming count is the only count at which the loop can stop. */
  lemma PrimingUnique(body: seq<Chunk>, total: Length, k: nat)
    requires k <= |body|
    requires k == |body| || !KeepsPriming(body, total, k)
    requires forall j :: 0 <= j < k ==> KeepsPriming(body, total, j)
    ensures k == PrimingReads(body, total)
  {
  }

  /** The test after the priming loop, `receivedLength >= contentLength * 0.05`. */
  predicate Publishes(body: seq<Chunk>, total: Length) {
    total.Finite? && SumLengths(body[..PrimingReads(body, total)]) * 20 >= total.n
  }

  /** A stream publishes exactly when its whole body is at least 5% of the
      announced length; a `NaN` length never publishes. */
  lemma PublishesIffEnoughData(body: seq<Chunk>, total: Length)
    ensures Publishes(body, total) <==> total.Finite? && SumLengths(body) * 20 >= total.n
  {
    var r := PrimingReads(body, total);
    assert body[..|body|] == body;
    if total.Finite? && SumLengths(body) * 20 >= total.n && r < |body| {
      assert !KeepsPriming(body, total, r);
    }
    if Publishes(body, total) {
      SumLengthsMonotone(body, r, |body|);
    }
  }

  /** With no (or a non-positive) length the test is met before any read. */
  lemma NoLengthPublishesAtOnce(body: seq<Chunk>, n: int)
    requires n <= 0
    ensures PrimingReads(body, Finite(n)) == 0
    ensures Publishes(body, Finite(n))
  {
    assert !KeepsPriming(body, Finite(n), 0);
  }

  /** Chunks of one size `len` hold `k * len` bytes in the first `k`. */
  lemma {:induction false} UniformSum(body: seq<Chunk>, len: nat, k: nat)
    requires k <= |body|
    requires forall i :: 0 <= i < |body| ==> |body[i]| == len
    ensures SumLengths(body[..k]) == k * len
    decreases k
  {
    if k > 0 {
      UniformSum(body, len, k - 1);
      SumLengthsStep(body, k - 1);
    }
  }

  /** With equal chunks the priming loop stops after the least number of
      chunks that make up 5% of the length: for a 20,000,000-byte file sent
      in 1,000,000-byte chunks, after one chunk. */
  lemma UniformPriming(body: seq<Chunk>, len: nat, n: int)
    requires len > 0
    requires forall i :: 0 <= i < |body| ==> |body[i]| == len
    requires n <= |body| * len * 20
    ensures var r := PrimingReads(body, Finite(n));
            r * len * 20 >= n && (r == 0 || (r - 1) * len * 20 < n)
    ensures Publishes(body, Finite(n))
  {
    var r := PrimingReads(body, Finite(n));
    UniformSum(body, len, r);
    UniformSum(body, len, |body|);
    if r > 0 {
      assert KeepsPriming(body, Finite(n), r - 1);
      UniformSum(body, len, r - 1);
    }
  }

  /** What the read loops keep between turns: the store, the progress
      entries and the byte count `received`. */
  datatype Tally = Tally(db: Db, progress: map<string, Progress>, received: nat)

  /** `t` is the loop state after the first `i` chunks of `body` have been
      read, starting from store `db0` and progress entries `progress0`. */
  predicate Tallied(t: Tally, db0: Db, progress0: map<string, Progress>, key: string, body: seq<Chunk>,
                    total: Length, i: nat)
    requires i <= |body|
  {
    && t.received == SumLengths(body[..i])
    && t.db == StoreAll(db0, key, body[..i])
    && t.progress == progress0[key := Progress(t.received, total)]
  }

  /** One turn of either read loop: read chunk `i`, count its bytes, store
      it in slot `i` and update the progress entry. */
  method StoreNext(ghost db0: Db, progress0: map<string, Progress>, key: string, body: seq<Chunk>,
                   total: Length, i: nat, t: Tally)
    returns (t': Tally)
    requires i < |body| && Tallied(t, db0, progress0, key, body, total, i)
    ensures Tallied(t', db0, progress0, key, body, total, i + 1)
  {
    SumLengthsStep(body, i);
    StoreAllStep(db0, key, body, i);
    var received := t.received + |body[i]|;
    t' := Tally(StoreVideoChunk(t.db, key, body[i], i), progress0[key := Progress(received, total)], received);
  }

  /** The first phase of `handlePlay`: set the progress entry to
      `{received: 0, total}`, then read and store chunks while fewer than 5%
      of `total` bytes are in and the stream has more. */
  method Prime(db: Db, progress: map<string, Progress>, key: string, body: seq<Chunk>, total: Length)
    returns (t: Tally, primed: nat)
    ensures primed == PrimingReads(body, total)
    ensures Tallied(t, db, progress, key, body, total, primed)
  {
    t, primed := Tally(db, progress[key := Progress(0, total)], 0), 0;
    assert body[..0] == [];
    while total.Finite? && t.received * 20 < total.n
      invariant primed <= |body|
      invariant Tallied(t, db, progress, key, body, total, primed)
      invariant forall j :: 0 <= j < primed ==> KeepsPriming(body, total, j)
      decreases |body| - primed
    {
      if primed == |body| {
        break;
      }
      assert KeepsPriming(body, total, primed);
      t := StoreNext(db, progress, key, body, total, primed, t);
      primed := primed + 1;
    }
    PrimingUnique(body, total, primed);
  }

  /** The second phase of `handlePlay`: read and store the rest of the
      stream, chunk `i` going to slot `i`. */
  method Drain(ghost db0: Db, progress0: map<string, Progress>, key: string, body: seq<Chunk>,
               total: Length, from: nat, t: Tally)
    returns (t': Tally)
    requires from <= |body| && Tallied(t, db0, progress0, key, body, total, from)
    ensures Tallied(t', db0, progress0, key, body, total, |body|)
  {
    t' := t;
    var i := from;
    while i < |body|
      invariant from <= i <= |body|
      invariant Tallied(t', db0, progress0, key, body, total, i)
      decreases |body| - i
    {
      t' := StoreNext(db0, progress0, key, body, total, i, t');
      i := i + 1;
    }
  }

  /** The player after a session has read and stored the chunks `cs` of a
      stream announced as `total` bytes long. */
  function Stored(q: Player, key: string, cs: seq<Chunk>, total: Length): (r: Player)
    ensures r.db == StoreAll(q.db, key, cs)
    ensures r.progress == q.progress[key := Progress(SumLengths(cs), total)]
  {
    q.(db := StoreAll(q.db, key, cs), progress := q.progress[key := Progress(SumLengths(cs), total)])
  }

  /** The end of a session that reached 5% after `primed` chunks: the blob
      of those chunks is shown (`preview`), the background loop reads and
      stores the rest, and the whole file replaces the blob. */
  method ShowAndDrain(q: Player, key: string, filename: string, total: Length, body: seq<Chunk>,
                      primed: nat, received: nat)
    returns (q': Player, preview: Player)
    requires primed <= |body| && received == SumLengths(body[..primed])
    ensures preview == Stored(q, key, body[..primed], total).(
                         videoUrl := Some(Concat(body[..primed])), activeTab := 1, canPlay := true)
    ensures q' == Stored(q, key, body, total).(
                    videoUrl := Some(Concat(body)), canPlay := true, activeTab := 1,
                    notice := Some(NowPlaying(filename)), playLoading := false)
  {
    preview := Stored(q, key, body[..primed], total).(
                 videoUrl := Some(Concat(body[..primed])), activeTab := 1, canPlay := true);
    var t := Drain(q.db, q.progress, key, body, total, primed, Tally(preview.db, preview.progress, received));
    var whole := Stored(q, key, body, total);
    assert body[..|body|] == body;
    assert whole == q.(db := t.db, progress := t.progress);
    q' := whole.(videoUrl := Some(Concat(body)), canPlay := true, activeTab := 1,
                 notice := Some(NowPlaying(filename)), playLoading := false);
  }

  /** `handlePlay` from the `ok` check on, for a response with body `body`
      and length `total`. `preview` is the state at the moment the 5% blob
      is shown, before the background loop runs; `None` when the session
      never shows one. */
  method StreamBody(q: Player, key: string, filename: string, total: Length, body: seq<Chunk>)
    returns (q': Player, primed: nat, preview: Option<Player>)
    ensures primed == PrimingReads(body, total)
    ensures !Publishes(body, total) ==>
              && preview.None?
              && q' == Stored(q, key, body[..primed], total).(notice := Some(BufferFailed), playLoading := false)
    ensures Publishes(body, total) ==>
              && preview == Some(Stored(q, key, body[..primed], total).(
                                   videoUrl := Some(Concat(body[..primed])), activeTab := 1, canPlay := true))
              && q' == Stored(q, key, body, total).(
                         videoUrl := Some(Concat(body)), canPlay := true, activeTab := 1,
                         notice := Some(NowPlaying(filename)), playLoading := false)
  {
    var t;
    t, primed := Prime(q.db, q.progress, key, body, total);
    var received := t.received;
    if !(total.Finite? && received * 20 >= total.n) {
      q', preview := Stored(q, key, body[..primed], total).(notice := Some(BufferFailed), playLoading := false), None;
      return;
    }
    var shown;
    q', shown := ShowAndDrain(q, key, filename, total, body, primed, received);
    preview := Some(shown);
  }

  /** Everything `handlePlay` does from the `fetch` on, from state `q`. */
  method StreamFile(q: Player, key: string, filename: string, reply: Reply)
    returns (q': Player, primed: nat, preview: Option<Player>)
    ensures reply.Response? ==> primed <= |reply.body|
    ensures !(reply.Response? && reply.ok) ==> preview.None?
    ensures reply.FetchRejected? ==>
              q' == q.(notice := Some(PlaybackFailed(NetworkError)), playLoading := false)
    ensures reply.Response? && !reply.ok ==>
              q' == q.(notice := Some(PlaybackFailed(HttpStatus(reply.status))), playLoading := false)
    ensures reply.Response? && reply.ok ==>
              var body, total := reply.body, reply.contentLength;
              && primed == PrimingReads(body, total)
              && (Publishes(body, total) ==>
                    && preview == Some(Stored(q, key, body[..primed], total).(
                                         videoUrl := Some(Concat(body[..primed])), activeTab := 1, canPlay := true))
                    && q' == Stored(q, key, body, total).(
                               videoUrl := Some(Concat(body)), canPlay := true, activeTab := 1,
                               notice := Some(NowPlaying(filename)), playLoading := false))
              && (!Publishes(body, total) ==>
                    && preview.None?
                    && q' == Stored(q, key, body[..primed], total).(notice := Some(BufferFailed), playLoading := false))
  {
    primed, preview := 0, None;
    match reply
    case FetchRejected =>
      q' := q.(notice := Some(PlaybackFailed(NetworkError)), playLoading := false);
    case Response(ok, status, total, body) =>
      if !ok {
        q' := q.(notice := Some(PlaybackFailed(HttpStatus(status))), playLoading := false);
        return;
      }
      q', primed, preview := StreamBody(q, key, filename, total, body);
  }

  /** `handlePlay` up to the identifier lookup: mark `key` active and
      loading, then, when the store holds chunks for it, either publish them
      (resume) or stop with "Not enough data buffered". The flag is false
      when the session stops here. */
  function Resume(p: Player, key: string, filename: string): (r: (Player, bool))
    ensures r.0.activeVideoId == Some(key) && r.0.db == p.db && r.0.progress == p.progress
    ensures r.1 <==> !Refuses(p.db, key)
    ensures !r.1 ==> r.0 == p.(activeVideoId := Some(key), canPlay := false, playLoading := false,
                               notice := Some(NotEnoughBuffered))
    ensures r.1 ==>
              && r.0.playLoading
              && r.0.canPlay == Resumes(p.db, key)
              && r.0.videoUrl == (if Resumes(p.db, key) then Some(ResumedBytes(p.db, key)) else p.videoUrl)
              && r.0.activeTab == (if Resumes(p.db, key) then 1 else p.activeTab)
  {
    var q := p.(activeVideoId := Some(key), canPlay := false, playLoading := true);
    var existing := GetVideoChunks(q.db, key);
    if |existing| == 0 then (q, true)
    else if ResumeAccepted(existing) then
      (q.(videoUrl := Some(ResumedBytes(q.db, key)), activeTab := 1,
          notice := Some(Resuming(filename)), canPlay := true), true)
    else (q.(notice := Some(NotEnoughBuffered), playLoading := false), false)
  }

  /** `handlePlay` from the identifier lookup on, from state `q`: a missing
      identifier fails before any request, otherwise the file is streamed. */
  method StreamFrom(q: Player, key: string, filename: string, quality: Value, reply: Reply)
    returns (p': Player, primed: nat, preview: Option<Player>)
    ensures reply.Response? ==> primed <= |reply.body|
    ensures p'.activeVideoId == q.activeVideoId && !p'.playLoading
    ensures var streamed := Truthy(TorrentIdentifier(quality)) && reply.Response? && reply.ok;
            !(streamed && Publishes(reply.body, reply.contentLength)) ==>
              p'.canPlay == q.canPlay && p'.videoUrl == q.videoUrl && p'.activeTab == q.activeTab
    ensures !Truthy(TorrentIdentifier(quality)) ==>
              p'.db == q.db && p'.progress == q.progress && p'.notice == Some(PlaybackFailed(NoTorrentSource))
    ensures Truthy(TorrentIdentifier(quality)) && reply.FetchRejected? ==>
              p'.db == q.db && p'.progress == q.progress && p'.notice == Some(PlaybackFailed(NetworkError))
    ensures Truthy(TorrentIdentifier(quality)) && reply.Response? && !reply.ok ==>
              p'.db == q.db && p'.progress == q.progress && p'.notice == Some(PlaybackFailed(HttpStatus(reply.status)))
    ensures var streamed := Truthy(TorrentIdentifier(quality)) && reply.Response? && reply.ok;
            && (streamed && Publishes(reply.body, reply.contentLength) <==> preview.Some?)
            && (preview.Some? ==>
                  && preview.value.videoUrl == Some(Concat(reply.body[..primed]))
                  && preview.value.canPlay && preview.value.activeTab == 1
                  && preview.value.activeVideoId == q.activeVideoId
                  && SessionWrote(q.db, key, reply.body[..primed], preview.value.db)
                  && preview.value.progress == q.progress[key := Progress(SumLengths(reply.body[..primed]), reply.contentLength)]
                  && p'.videoUrl.Some? && preview.value.videoUrl.value <= p'.videoUrl.value)
    ensures Truthy(TorrentIdentifier(quality)) && reply.Response? && reply.ok ==>
              && primed == PrimingReads(reply.body, reply.contentLength)
              && (Publishes(reply.body, reply.contentLength) ==>
                    && SessionWrote(q.db, key, reply.body, p'.db)
                    && p'.progress == q.progress[key := Progress(SumLengths(reply.body), reply.contentLength)]
                    && p'.videoUrl == Some(Concat(reply.body)) && p'.canPlay && p'.activeTab == 1
                    && p'.notice == Some(NowPlaying(filename)))
              && (!Publishes(reply.body, reply.contentLength) ==>
                    && SessionWrote(q.db, key, reply.body[..primed], p'.db)
                    && p'.progress == q.progress[key := Progress(SumLengths(reply.body[..primed]), reply.contentLength)]
                    && p'.notice == Some(BufferFailed))
  {
    primed, preview := 0, None;
    var ident := TorrentIdentifier(quality);
    if !Truthy(ident) {
      p' := q.(notice := Some(PlaybackFailed(NoTorrentSource)), playLoading := false);
      return;
    }
    p', primed, preview := StreamFile(q.(notice := Some(Streaming(filename))), key, filename, reply);
    if reply.Response? && reply.ok {
      if Publishes(reply.body, reply.contentLength) {
        StoreAllWrites(q.db, key, reply.body);
        StoreAllWrites(q.db, key, reply.body[..primed]);
        ConcatPrefix(reply.body, primed, |reply.body|);
        assert reply.body[..|reply.body|] == reply.body;
      } else {
        StoreAllWrites(q.db, key, reply.body[..primed]);
      }
    }
  }

  /** `handlePlay(filename)`. `movie.id` is `movieId`, `selectedQuality` is
      `quality`, and `reply` is what the stream server answers; `primed` is
      the number of chunks the priming loop took. */
  method HandlePlay(p: Player, movieId: string, filename: string, quality: Value, reply: Reply)
    returns (p': Player, primed: nat, preview: Option<Player>)
    ensures reply.Response? ==> primed <= |reply.body|
    ensures var key := VideoKey(movieId, filename);
            p'.activeVideoId == Some(key) && !p'.playLoading
    // A record too small to resume from ends the session before any request.
    ensures var key := VideoKey(movieId, filename);
            Refuses(p.db, key) ==>
              && p'.db == p.db && p'.progress == p.progress && primed == 0
              && p'.videoUrl == p.videoUrl && !p'.canPlay && p'.activeTab == p.activeTab
              && p'.notice == Some(NotEnoughBuffered)
    // Otherwise a resume publishes what is stored, then streams anew.
    ensures var key := VideoKey(movieId, filename);
            var streamed := !Refuses(p.db, key) && Truthy(TorrentIdentifier(quality)) && reply.Response? && reply.ok;
            !Refuses(p.db, key) && !(streamed && Publishes(reply.body, reply.contentLength)) ==>
              && p'.canPlay == Resumes(p.db, key)
              && p'.videoUrl == (if Resumes(p.db, key) then Some(ResumedBytes(p.db, key)) else p.videoUrl)
              && p'.activeTab == (if Resumes(p.db, key) then 1 else p.activeTab)
    ensures var key := VideoKey(movieId, filename);
            !Refuses(p.db, key) && !Truthy(TorrentIdentifier(quality)) ==>
              p'.db == p.db && p'.progress == p.progress && p'.notice == Some(PlaybackFailed(NoTorrentSource))
    ensures var key := VideoKey(movieId, filename);
            !Refuses(p.db, key) && Truthy(TorrentIdentifier(quality)) && reply.FetchRejected? ==>
              p'.db == p.db && p'.progress == p.progress && p'.notice == Some(PlaybackFailed(NetworkError))
    ensures var key := VideoKey(movieId, filename);
            !Refuses(p.db, key) && Truthy(TorrentIdentifier(quality)) && reply.Response? && !reply.ok ==>
              p'.db == p.db && p'.progress == p.progress && p'.notice == Some(PlaybackFailed(HttpStatus(reply.status)))
    // The 5% blob is shown, on tab 1 and playable, before the rest is read;
    // the whole file that replaces it starts with the same bytes.
    ensures var key := VideoKey(movieId, filename);
            var streamed := !Refuses(p.db, key) && Truthy(TorrentIdentifier(quality)) && reply.Response? && reply.ok;
            && (streamed && Publishes(reply.body, reply.contentLength) <==> preview.Some?)
            && (preview.Some? ==>
                  && preview.value.videoUrl == Some(Concat(reply.body[..primed]))
                  && preview.value.canPlay && preview.value.activeTab == 1
                  && preview.value.activeVideoId == Some(key)
                  && SessionWrote(p.db, key, reply.body[..primed], preview.value.db)
                  && preview.value.progress == p.progress[key := Progress(SumLengths(reply.body[..primed]), reply.contentLength)]
                  && p'.videoUrl.Some? && preview.value.videoUrl.value <= p'.videoUrl.value)
    // A stream that reaches 5% is read to its end and published whole.
    ensures var key := VideoKey(movieId, filename);
            !Refuses(p.db, key) && Truthy(TorrentIdentifier(quality)) && reply.Response? && reply.ok ==>
              && primed == PrimingReads(reply.body, reply.contentLength)
              && (Publishes(reply.body, reply.contentLength) ==>
                    && SessionWrote(p.db, key, reply.body, p'.db)
                    && p'.progress == p.progress[key := Progress(SumLengths(reply.body), reply.contentLength)]
                    && p'.videoUrl == Some(Concat(reply.body)) && p'.canPlay && p'.activeTab == 1
                    && p'.notice == Some(NowPlaying(filename)))
              && (!Publishes(reply.body, reply.contentLength) ==>
                    && SessionWrote(p.db, key, reply.body[..primed], p'.db)
                    && p'.progress == p.progress[key := Progress(SumLengths(reply.body[..primed]), reply.contentLength)]
                    && p'.notice == Some(BufferFailed))
  {
    var key := VideoKey(movieId, filename);
    var start := Resume(p, key, filename);
    if !start.1 {
      p', primed, preview := start.0, 0, None;
      return;
    }
    p', primed, preview := StreamFrom(start.0, key, filename, quality, reply);
  }

  /** `activeVideoId` holds a truthy string. */
  predicate HasActiveVideo(p: Player) {
    p.activeVideoId.Some? && p.activeVideoId.value != ""
  }

  /** `handleDeleteTempFile()`: without an active video nothing happens;
      otherwise its record leaves the store and the player forgets it. */
  function DeleteTempFile(p: Player): (p': Player)
    ensures !HasActiveVideo(p) ==> p' == p
    ensures HasActiveVideo(p) ==>
              && p'.db.Keys == p.db.Keys - {p.activeVideoId.value}
              && (forall k :: k in p'.db ==> p'.db[k] == p.db[k])
              && p'.videoUrl.None? && p'.activeVideoId.None? && !p'.canPlay
              && p'.progress == p.progress && p'.notice == Some(TempDeleted)
              && p'.activeTab == p.activeTab && p'.playLoading == p.playLoading
  {
    if !HasActiveVideo(p) then p
    else p.(db := DeleteVideo(p.db, p.activeVideoId.value), videoUrl := None,
            activeVideoId := None, canPlay := false, notice := Some(TempDeleted))
  }

  /** After deleting the active video, playing the same file again neither
      resumes nor refuses: it streams from the start. A second delete does
      nothing. */
  lemma DeleteThenPlayStartsOver(p: Player, movieId: string, filename: string)
    requires p.activeVideoId == Some(VideoKey(movieId, filename))
    ensures !Resumes(DeleteTempFile(p).db, VideoKey(movieId, filename))
    ensures !Refuses(DeleteTempFile(p).db, VideoKey(movieId, filename))
    ensures DeleteTempFile(DeleteTempFile(p)) == DeleteTempFile(p)
  {
    var key := VideoKey(movieId, filename);
    assert key != "";
    GetAfterDelete(p.db, key);
  }
}

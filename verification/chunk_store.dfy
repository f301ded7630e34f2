/** The IndexedDB object store `videos` of the movie-detail player: one record
    `{id, chunks, metadata}` per video key, whose `chunks` array is written
    slot by slot as a stream is read (`storeVideoChunk`), read back whole
    (`getVideoChunks`) and removed (`deleteVideoFromDB`). Opening the
    database, transactions and request callbacks are not modelled: each
    operation is one atomic step on a map. */
module ChunkStore {

  import opened Options

  newtype byte = x: int | 0 <= x < 256

  /** One `Uint8Array` read from the network stream. */
  type Chunk = seq<byte>

  /** A record of the store. A slot of `chunks` that was never assigned (a
      hole of the sparse JavaScript array) is `None`. */
  datatype Record = Record(id: string, chunks: seq<Option<Chunk>>, metadata: map<string, string>)

  /** The object store, keyed by the record's `id` (its key path). */
  type Db = map<string, Record>

  /** Every record sits under its own `id`. */
  predicate WellKeyed(db: Db) {
    forall k :: k in db ==> db[k].id == k
  }

  /** The record `storeVideoChunk` starts from when the key is absent. */
  function NewRecord(id: string): (r: Record)
    ensures r.id == id && |r.chunks| == 0 && |r.metadata| == 0
  {
    Record(id, [], map[])
  }

  /** `after` is what the JavaScript assignment `chunks[i] = c` leaves of
      `before`: slot `i` holds `c`, the array grows to `i + 1` slots when it
      was shorter (the gap becoming holes), and every other slot is as it was. */
  predicate AssignedAt(before: seq<Option<Chunk>>, i: nat, c: Chunk, after: seq<Option<Chunk>>) {
    && |after| == (if i < |before| then |before| else i + 1)
    && after[i] == Some(c)
    && (forall j :: 0 <= j < |before| && j != i ==> after[j] == before[j])
    && (forall j :: |before| <= j < |after| && j != i ==> after[j] == None)
  }

  function PutAt(chunks: seq<Option<Chunk>>, i: nat, c: Chunk): (r: seq<Option<Chunk>>)
    ensures AssignedAt(chunks, i, c, r)
  {
    if i < |chunks| then chunks[i := Some(c)]
    else chunks + seq(i - |chunks|, _ => None) + [Some(c)]
  }

  /** The record found under `id`, or the fresh one `storeVideoChunk` creates. */
  function RecordOrNew(db: Db, id: string): Record {
    if id in db then db[id] else NewRecord(id)
  }

  /** `storeVideoChunk(videoId, chunk, chunkIndex)` */
  function StoreVideoChunk(db: Db, videoId: string, chunk: Chunk, index: nat): (db': Db)
    ensures db'.Keys == db.Keys + {videoId}
    ensures forall k :: k in db && k != videoId ==> db'[k] == db[k]
    ensures db'[videoId].id == RecordOrNew(db, videoId).id
    ensures db'[videoId].metadata == RecordOrNew(db, videoId).metadata
    ensures AssignedAt(RecordOrNew(db, videoId).chunks, index, chunk, db'[videoId].chunks)
  {
    var rec := RecordOrNew(db, videoId);
    db[videoId := rec.(chunks := PutAt(rec.chunks, index, chunk))]
  }

  /** `getVideoChunks(videoId)`: `result?.chunks || []`. */
  function GetVideoChunks(db: Db, videoId: string): (r: seq<Option<Chunk>>)
    ensures videoId !in db ==> r == []
    ensures videoId in db ==> r == db[videoId].chunks
  {
    if videoId in db then db[videoId].chunks else []
  }

  /** `deleteVideoFromDB(videoId)` */
  function DeleteVideo(db: Db, videoId: string): (db': Db)
    ensures db'.Keys == db.Keys - {videoId}
    ensures forall k :: k in db' ==> db'[k] == db[k]
  {
    db - {videoId}
  }

  /** Writing a chunk creates a missing record as `{id, chunks: [], metadata: {}}`
      first, so the new record is keyed by the video id and has no metadata. */
  lemma StoreCreatesRecord(db: Db, videoId: string, chunk: Chunk, index: nat)
    requires videoId !in db
    ensures var r := StoreVideoChunk(db, videoId, chunk, index)[videoId];
            r.id == videoId && r.metadata == map[] && |r.chunks| == index + 1
            && r.chunks[index] == Some(chunk)
            && forall j :: 0 <= j < index ==> r.chunks[j] == None
  {
  }

  /** Writing the same chunk to the same slot twice is the same as writing it once. */
  lemma StoreIdempotent(db: Db, videoId: string, chunk: Chunk, index: nat)
    ensures var once := StoreVideoChunk(db, videoId, chunk, index);
            StoreVideoChunk(once, videoId, chunk, index) == once
  {
    var once := StoreVideoChunk(db, videoId, chunk, index);
    var twice := StoreVideoChunk(once, videoId, chunk, index);
    assert twice[videoId].chunks == once[videoId].chunks;
    assert twice[videoId] == once[videoId];
  }

  /** Reading a key back after a write sees the written chunk in its slot. */
  lemma GetAfterStore(db: Db, videoId: string, chunk: Chunk, index: nat)
    ensures var got := GetVideoChunks(StoreVideoChunk(db, videoId, chunk, index), videoId);
            index < |got| && got[index] == Some(chunk)
            && forall j :: 0 <= j < |GetVideoChunks(db, videoId)| && j != index ==> got[j] == GetVideoChunks(db, videoId)[j]
  {
  }

  /** An absent key reads as an empty list, in particular after a delete. */
  lemma GetAfterDelete(db: Db, videoId: string)
    ensures GetVideoChunks(DeleteVideo(db, videoId), videoId) == []
    ensures videoId !in db ==> GetVideoChunks(db, videoId) == []
  {
  }

  /** The store stays keyed by record id under writes and deletes. */
  lemma OperationsKeepWellKeyed(db: Db, videoId: string, chunk: Chunk, index: nat)
    requires WellKeyed(db)
    ensures WellKeyed(StoreVideoChunk(db, videoId, chunk, index))
    ensures WellKeyed(DeleteVideo(db, videoId))
  {
  }

  /** `chunk?.byteLength || 0`: a hole counts as 0 bytes. */
  function SlotSize(slot: Option<Chunk>): nat {
    match slot
    case Some(c) => |c|
    case None => 0
  }

  /** The sum the `reduce` over a record's slots computes. */
  function StoredBytes(chunks: seq<Option<Chunk>>): (r: nat)
    ensures |chunks| > 0 ==> r >= SlotSize(chunks[|chunks| - 1])
  {
    if |chunks| == 0 then 0
    else StoredBytes(chunks[..|chunks| - 1]) + SlotSize(chunks[|chunks| - 1])
  }

  /** No slot holds more than the sum, and the sum is 0 exactly when no slot
      holds a byte. */
  lemma {:induction false} StoredBytesBounds(chunks: seq<Option<Chunk>>)
    ensures forall i :: 0 <= i < |chunks| ==> SlotSize(chunks[i]) <= StoredBytes(chunks)
    ensures StoredBytes(chunks) == 0 <==> forall i :: 0 <= i < |chunks| ==> SlotSize(chunks[i]) == 0
    decreases |chunks|
  {
    if |chunks| > 0 {
      var n := |chunks| - 1;
      StoredBytesBounds(chunks[..n]);
      assert forall i :: 0 <= i < n ==> chunks[..n][i] == chunks[i];
    }
  }

  /** `chunks.filter(Boolean)`: the chunks that are present, in slot order.
      A chunk is kept exactly when some slot holds it. */
  function Present(chunks: seq<Option<Chunk>>): (r: seq<Chunk>)
    ensures |r| <= |chunks|
  {
    if |chunks| == 0 then []
    else Present(chunks[..|chunks| - 1]) + (match chunks[|chunks| - 1] case Some(c) => [c] case None => [])
  }

  /** Filtering distributes over concatenation and keeps exactly the present
      slot of a one-slot list: it is the order-preserving selection of the
      present slots. */
  lemma PresentAppend(a: seq<Option<Chunk>>, b: seq<Option<Chunk>>)
    ensures Present(a + b) == Present(a) + Present(b)
    ensures forall c :: Present([Some(c)]) == [c]
    ensures Present([None]) == []
  {
    PresentConcat(a, b);
    forall c
      ensures Present([Some(c)]) == [c]
    {
      assert [Some(c)][..0] == [];
    }
    var hole: seq<Option<Chunk>> := [None];
    assert hole[..0] == [];
  }

  lemma {:induction false} PresentConcat(a: seq<Option<Chunk>>, b: seq<Option<Chunk>>)
    ensures Present(a + b) == Present(a) + Present(b)
    decreases |b|
  {
    if |b| == 0 {
      assert a + b == a;
    } else {
      var n := |b| - 1;
      var last := match b[n] case Some(c) => [c] case None => [];
      PresentConcat(a, b[..n]);
      assert (a + b)[..|a + b| - 1] == a + b[..n] && (a + b)[|a + b| - 1] == b[n];
      assert Present(a + b) == Present(a + b[..n]) + last;
      assert Present(b) == Present(b[..n]) + last;
      assert Present(a + b) == Present(a) + (Present(b[..n]) + last);
    }
  }

  /** A chunk is kept exactly when some slot holds it. */
  lemma {:induction false} PresentMembers(chunks: seq<Option<Chunk>>)
    ensures forall c :: c in Present(chunks) <==> Some(c) in chunks
    decreases |chunks|
  {
    if |chunks| > 0 {
      var n := |chunks| - 1;
      PresentMembers(chunks[..n]);
      assert chunks == chunks[..n] + [chunks[n]];
    }
  }

  /** `blob` holds every present chunk at the byte offset of the bytes stored
      in the slots before it, and nothing else. */
  predicate ChunksAtOffsets(chunks: seq<Option<Chunk>>, blob: seq<byte>) {
    && |blob| == StoredBytes(chunks)
    && forall i :: 0 <= i < |chunks| && chunks[i].Some? ==>
         StoredBytes(chunks[..i]) + |chunks[i].value| <= |blob|
         && blob[StoredBytes(chunks[..i])..StoredBytes(chunks[..i]) + |chunks[i].value|] == chunks[i].value
  }

  /** Number of bytes in a list of chunks read from the stream. */
  function SumLengths(cs: seq<Chunk>): nat {
    if |cs| == 0 then 0 else SumLengths(cs[..|cs| - 1]) + |cs[|cs| - 1]|
  }

  /** `new Blob(chunks)`: the bytes of all chunks, back to back. */
  function Concat(cs: seq<Chunk>): (r: seq<byte>)
    ensures |r| == SumLengths(cs)
  {
    if |cs| == 0 then [] else Concat(cs[..|cs| - 1]) + cs[|cs| - 1]
  }

  /** Skipping holes does not change the byte count. */
  lemma {:induction false} PresentKeepsBytes(chunks: seq<Option<Chunk>>)
    ensures SumLengths(Present(chunks)) == StoredBytes(chunks)
    decreases |chunks|
  {
    if |chunks| > 0 {
      var n := |chunks| - 1;
      PresentKeepsBytes(chunks[..n]);
      var p := Present(chunks[..n]);
      match chunks[n]
      case Some(c) =>
        assert Present(chunks) == p + [c];
        assert (p + [c])[..|p|] == p;
      case None =>
        assert Present(chunks) == p;
    }
  }

  /** The stored byte count covers the first slot. */
  lemma {:induction false} StoredBytesCoversFirst(chunks: seq<Option<Chunk>>)
    requires |chunks| > 0 && chunks[0].Some?
    ensures StoredBytes(chunks) >= |chunks[0].value|
    decreases |chunks|
  {
    if |chunks| > 1 {
      StoredBytesCoversFirst(chunks[..|chunks| - 1]);
    }
  }

  /** The bytes a slot contributes to the blob. */
  function SlotBytes(slot: Option<Chunk>): (r: seq<byte>)
    ensures |r| == SlotSize(slot)
  {
    match slot
    case Some(c) => c
    case None => []
  }

  /** Appending a slot appends its bytes at the offset of everything before. */
  lemma OffsetsStep(chunks: seq<Option<Chunk>>, blob0: seq<byte>)
    requires |chunks| > 0
    requires ChunksAtOffsets(chunks[..|chunks| - 1], blob0)
    ensures ChunksAtOffsets(chunks, blob0 + SlotBytes(chunks[|chunks| - 1]))
  {
    var n := |chunks| - 1;
    var init := chunks[..n];
    var blob := blob0 + SlotBytes(chunks[n]);
    forall i | 0 <= i < |chunks| && chunks[i].Some?
      ensures StoredBytes(chunks[..i]) + |chunks[i].value| <= |blob|
      ensures blob[StoredBytes(chunks[..i])..StoredBytes(chunks[..i]) + |chunks[i].value|] == chunks[i].value
    {
      if i < n {
        assert chunks[..i] == init[..i];
        assert chunks[i] == init[i];
      } else {
        assert chunks[..i] == init;
      }
    }
  }

  /** One more slot adds its bytes to the end of the filtered blob. */
  lemma BlobStep(chunks: seq<Option<Chunk>>)
    requires |chunks| > 0
    ensures Concat(Present(chunks)) == Concat(Present(chunks[..|chunks| - 1])) + SlotBytes(chunks[|chunks| - 1])
  {
    var n := |chunks| - 1;
    var p := Present(chunks[..n]);
    match chunks[n]
    case Some(c) =>
      assert Present(chunks) == p + [c];
      assert (p + [c])[..|p|] == p;
    case None =>
      assert Present(chunks) == p;
  }

  /** `new Blob(chunks.filter(Boolean))` puts each stored chunk right after
      the bytes of the slots before it. */
  lemma {:induction false} PresentBlobOffsets(chunks: seq<Option<Chunk>>)
    ensures ChunksAtOffsets(chunks, Concat(Present(chunks)))
    decreases |chunks|
  {
    if |chunks| > 0 {
      var n := |chunks| - 1;
      PresentBlobOffsets(chunks[..n]);
      BlobStep(chunks);
      OffsetsStep(chunks, Concat(Present(chunks[..n])));
    }
  }

  /** A reading position advances the count by the chunk read there. */
  lemma SumLengthsStep(cs: seq<Chunk>, k: nat)
    requires k < |cs|
    ensures SumLengths(cs[..k + 1]) == SumLengths(cs[..k]) + |cs[k]|
    ensures Concat(cs[..k + 1]) == Concat(cs[..k]) + cs[k]
  {
    assert cs[..k + 1][..k] == cs[..k];
  }

  /** Reading more never lowers the count. */
  lemma {:induction false} SumLengthsMonotone(cs: seq<Chunk>, i: nat, j: nat)
    requires i <= j <= |cs|
    ensures SumLengths(cs[..i]) <= SumLengths(cs[..j])
    decreases j - i
  {
    if i < j {
      SumLengthsMonotone(cs, i, j - 1);
      SumLengthsStep(cs, j - 1);
    }
  }

  /** The blob of the first `i` chunks read is a prefix of the blob of the
      first `j`. */
  lemma {:induction false} ConcatPrefix(cs: seq<Chunk>, i: nat, j: nat)
    requires i <= j <= |cs|
    ensures Concat(cs[..i]) <= Concat(cs[..j])
    decreases j - i
  {
    if i < j {
      ConcatPrefix(cs, i, j - 1);
      SumLengthsStep(cs, j - 1);
    }
  }

  /** `storeVideoChunk(videoId, cs[k], k)` for `k = 0, 1, ...` in turn, as one
      play session does. */
  function StoreAll(db: Db, videoId: string, cs: seq<Chunk>): Db
    decreases |cs|
  {
    if |cs| == 0 then db
    else StoreVideoChunk(StoreAll(db, videoId, cs[..|cs| - 1]), videoId, cs[|cs| - 1], |cs| - 1)
  }

  /** The sessions that read one chunk more do one more write. */
  lemma StoreAllStep(db: Db, videoId: string, cs: seq<Chunk>, i: nat)
    requires i < |cs|
    ensures StoreAll(db, videoId, cs[..i + 1]) == StoreVideoChunk(StoreAll(db, videoId, cs[..i]), videoId, cs[i], i)
  {
    assert cs[..i + 1][..i] == cs[..i];
  }

  /** Slot `k` of `after` holds the `k`-th of `cs`; slots beyond `cs` keep
      what `before` had there. */
  predicate SlotsWritten(before: seq<Option<Chunk>>, cs: seq<Chunk>, after: seq<Option<Chunk>>) {
    && |after| == (if |cs| <= |before| then |before| else |cs|)
    && (forall i :: 0 <= i < |cs| ==> after[i] == Some(cs[i]))
    && (forall i :: |cs| <= i < |before| ==> after[i] == before[i])
  }

  /** A session's writes restart at slot 0: slot `k` holds the `k`-th chunk
      read, the slots beyond what this session read keep what an earlier
      session left, and no other record changes. */
  predicate SessionWrote(db: Db, videoId: string, cs: seq<Chunk>, db': Db) {
    && (|cs| == 0 ==> db' == db)
    && (|cs| > 0 ==> db'.Keys == db.Keys + {videoId} && db'[videoId].id == RecordOrNew(db, videoId).id)
    && (forall k :: k in db && k != videoId ==> db'[k] == db[k])
    && SlotsWritten(GetVideoChunks(db, videoId), cs, GetVideoChunks(db', videoId))
  }

  lemma SlotsStep(before: seq<Option<Chunk>>, cs: seq<Chunk>, midc: seq<Option<Chunk>>, finc: seq<Option<Chunk>>)
    requires |cs| > 0
    requires SlotsWritten(before, cs[..|cs| - 1], midc)
    requires AssignedAt(midc, |cs| - 1, cs[|cs| - 1], finc)
    ensures SlotsWritten(before, cs, finc)
  {
    var n := |cs| - 1;
    forall i | 0 <= i < n
      ensures finc[i] == Some(cs[i])
    {
      assert midc[i] == Some(cs[..n][i]);
    }
  }

  /** One more write extends a session by one chunk. */
  lemma SessionStep(db: Db, videoId: string, cs: seq<Chunk>, mid: Db)
    requires |cs| > 0
    requires SessionWrote(db, videoId, cs[..|cs| - 1], mid)
    ensures SessionWrote(db, videoId, cs, StoreVideoChunk(mid, videoId, cs[|cs| - 1], |cs| - 1))
  {
    var n := |cs| - 1;
    var fin := StoreVideoChunk(mid, videoId, cs[n], n);
    assert RecordOrNew(mid, videoId).chunks == GetVideoChunks(mid, videoId);
    assert fin[videoId].chunks == GetVideoChunks(fin, videoId);
    SlotsStep(GetVideoChunks(db, videoId), cs, GetVideoChunks(mid, videoId), GetVideoChunks(fin, videoId));
    if n == 0 {
      assert mid == db;
    }
  }

  lemma {:induction false} StoreAllWrites(db: Db, videoId: string, cs: seq<Chunk>)
    ensures SessionWrote(db, videoId, cs, StoreAll(db, videoId, cs))
    decreases |cs|
  {
    if |cs| > 0 {
      var n := |cs| - 1;
      StoreAllWrites(db, videoId, cs[..n]);
      SessionStep(db, videoId, cs, StoreAll(db, videoId, cs[..n]));
    }
  }
}

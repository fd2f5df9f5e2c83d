/** What the server answers to each chunk of an upload, whatever the chunks say of themselves. */
module ChunkReplies {
  import opened Options
  import opened Strconv
  import opened ContentRange
  import opened ChunkUpload
  import opened ChunkTheorems

  /** What a readable header says. */
  function InfoOf(c: Chunk): ChunkInfo {
    var info := GetChunkInfo(c.header);
    if info.Some? then info.value else ChunkInfo(0, 0, 0)
  }

  function StartOf(c: Chunk): int { InfoOf(c).start }

  /** A chunk that is accepted as such and is not the last one. */
  predicate Plain(c: Chunk) { GetChunkInfo(c.header).Some? && !Complete(c.header) }

  /** How many of the chunks do not start at zero. */
  function Later(chunks: seq<Chunk>): nat {
    if chunks == [] then 0
    else Later(chunks[..|chunks| - 1]) + if StartOf(chunks[|chunks| - 1]) != 0 then 1 else 0
  }

  /** A header that cannot be read, or a later chunk of an upload nobody opened, is refused and changes nothing. */
  lemma Refusals(slot: Slot, c: Chunk)
    ensures GetChunkInfo(c.header).None? ==> SlotUpload(slot, c) == (slot, InvalidChunkInfo)
    ensures GetChunkInfo(c.header).Some? && StartOf(c) != 0 && slot.chunk.None? ==>
      SlotUpload(slot, c) == (slot, ChunkDataNotFound)
    ensures SlotUpload(slot, c).1 == InvalidChunkInfo ==> GetChunkInfo(c.header).None?
    ensures SlotUpload(slot, c).1 == ChunkDataNotFound ==> StartOf(c) != 0 && slot.chunk.None?
  {
    hide GetChunkInfo, Complete;
  }

  /** The upload that `first` opened, with `m` later chunks so far. */
  predicate OpenedBy(slot: Slot, first: Chunk, m: nat) {
    && StartOf(first) == 0
    && slot.chunk.Some?
    && slot.chunk.value.last == m && slot.chunk.value.total == InfoOf(first).total
    && slot.chunk.value.chunksize == FirstSize(first)
    && slot.chunk.value.meta == first.meta
    && slot.row.Some? && slot.row.value.meta == first.meta && slot.row.value.status.Uploading?
  }

  /** The size of the first chunk, by its header, in 64 bits. */
  function FirstSize(first: Chunk): int {
    if InfoOf(first).end == MAX_INT64 then MIN_INT64 else InfoOf(first).end + 1
  }

  lemma WrapEnd(n: int)
    requires 0 <= n <= MAX_INT64
    ensures ChunkSize(n) == if n == MAX_INT64 then MIN_INT64 else n + 1
  {}

  lemma Opens(first: Chunk)
    requires Plain(first) && StartOf(first) == 0
    ensures OpenedBy(SlotUpload(EMPTY_SLOT, first).0, first, 0)
    ensures SlotUpload(EMPTY_SLOT, first).0.pieces == map[0 := first.data]
    ensures SlotUpload(EMPTY_SLOT, first).1 == Stored(File(0, Uploading, first.meta))
    ensures SlotUpload(EMPTY_SLOT, first).0.row == Some(Row(first.size, Uploading, first.meta))
  {
    PositionsNotNegative(first.header);
    WrapEnd(InfoOf(first).end);
    Readable(first);
    assert forall size :: Wrap64(0 * size) == 0;
    hide GetChunkInfo, Complete, ChunkSize, TotalChunks, Finish, InfoOf, Wrap64;
    assert EMPTY_SLOT.pieces[0 := first.data] == map[0 := first.data];
    assert SlotUpload(EMPTY_SLOT, first).0.chunk.value.chunksize == FirstSize(first);
  }

  lemma GoesOn(slot: Slot, first: Chunk, m: nat, c: Chunk)
    requires OpenedBy(slot, first, m) && Plain(c)
    ensures var n := if StartOf(c) == 0 then m else m + 1;
      var index := if StartOf(c) == 0 then 0 else m + 1;
      && OpenedBy(SlotUpload(slot, c).0, first, n)
      && SlotUpload(slot, c).0.pieces == slot.pieces[index := c.data]
      && SlotUpload(slot, c).0.row == (if StartOf(c) == 0 then Some(Row(c.size, Uploading, first.meta)) else slot.row)
      && SlotUpload(slot, c).1 ==
           Stored(File(Wrap64(index * slot.chunk.value.chunksize), Uploading,
                       if StartOf(c) == 0 then c.meta else first.meta))
  {
    PositionsNotNegative(c.header);
    hide GetChunkInfo, Complete, Finish, TotalChunks;
  }

  lemma {:induction false} StaysOpen(chunks: seq<Chunk>)
    requires chunks != [] && StartOf(chunks[0]) == 0 && forall i :: 0 <= i < |chunks| ==> Plain(chunks[i])
    ensures OpenedBy(RunSlot(EMPTY_SLOT, chunks), chunks[0], Later(chunks))
    decreases |chunks|
  {
    var n := |chunks| - 1;
    hide SlotUpload, OpenedBy, Plain, StartOf;
    if n == 0 {
      Opens(chunks[0]);
      assert chunks[..0] == [];
    } else {
      StaysOpen(chunks[..n]);
      GoesOn(RunSlot(EMPTY_SLOT, chunks[..n]), chunks[0], Later(chunks[..n]), chunks[n]);
    }
  }

  /**
   * The reply to every chunk of an upload before the last, whatever name or type the chunk itself carries. A later
   * chunk is answered with the metadata of the first one that opened the upload, and with its place in the order of
   * arrival times the first one's size as the number of bytes; a first chunk, with its own metadata and none. The row
   * keeps the first one's metadata, and takes its number of bytes from the first chunk as last sent.
   */
  lemma ReplyToChunk(chunks: seq<Chunk>, c: Chunk)
    requires chunks != [] && StartOf(chunks[0]) == 0 && forall i :: 0 <= i < |chunks| ==> Plain(chunks[i])
    requires Plain(c)
    ensures var slot := RunSlot(EMPTY_SLOT, chunks);
      var end := InfoOf(chunks[0]).end;
      var size := if end == MAX_INT64 then MIN_INT64 else end + 1;
      && SlotUpload(slot, c).1 ==
           (if StartOf(c) == 0 then Stored(File(0, Uploading, c.meta))
            else Stored(File(Wrap64((Later(chunks) + 1) * size), Uploading, chunks[0].meta)))
      && SlotUpload(slot, c).0.pieces == slot.pieces[(if StartOf(c) == 0 then 0 else Later(chunks) + 1) := c.data]
      && SlotUpload(slot, c).0.row ==
           (if StartOf(c) == 0 then Some(Row(c.size, Uploading, chunks[0].meta)) else slot.row)
  {
    hide SlotUpload, RunSlot, Later, StartOf, InfoOf, Plain;
    StaysOpen(chunks);
    GoesOn(RunSlot(EMPTY_SLOT, chunks), chunks[0], Later(chunks), c);
    assert Wrap64(0) == 0;
  }

  /**
   * The reply to the last chunk: the first one's total and metadata under status uploaded, with the row marked so and
   * its metadata as before; or the number of the first missing piece, with the upload still open.
   */
  lemma ReplyToLast(chunks: seq<Chunk>, c: Chunk)
    requires chunks != [] && StartOf(chunks[0]) == 0 && forall i :: 0 <= i < |chunks| ==> Plain(chunks[i])
    requires GetChunkInfo(c.header).Some? && Complete(c.header) && StartOf(c) != 0
    ensures var slot := RunSlot(EMPTY_SLOT, chunks);
      var after := SlotUpload(slot, c);
      var total := InfoOf(chunks[0]).total;
      if after.1.MergeFailed? then
        after.0.chunk.Some? && after.1.missing !in slot.pieces[Later(chunks) + 1 := c.data]
      else
        && after.1 == Stored(File(total, Uploaded, chunks[0].meta))
        && after.0.chunk == None && after.0.row == Some(Row(total, Uploaded, chunks[0].meta))
  {
    hide RunSlot, Later, Plain, SlotUpload, GetChunkInfo, Complete, InfoOf, StartOf, OpenedBy, Merge;
    StaysOpen(chunks);
    LastReply(RunSlot(EMPTY_SLOT, chunks), chunks[0], Later(chunks), c);
  }

  lemma LastReply(slot: Slot, first: Chunk, m: nat, c: Chunk)
    requires OpenedBy(slot, first, m) && GetChunkInfo(c.header).Some? && Complete(c.header) && StartOf(c) != 0
    ensures var after := SlotUpload(slot, c);
      var total := InfoOf(first).total;
      if after.1.MergeFailed? then
        after.0.chunk.Some? && after.1.missing !in slot.pieces[m + 1 := c.data]
      else
        && after.1 == Stored(File(total, Uploaded, first.meta))
        && after.0.chunk == None && after.0.row == Some(Row(total, Uploaded, first.meta))
  {
    PositionsNotNegative(c.header);
    MissingIsMissing(slot.pieces[m + 1 := c.data], 0, slot.chunk.value.totalChunks);
    hide GetChunkInfo, Complete, Merge, InfoOf;
    assert InfoOf(c) == GetChunkInfo(c.header).value by { Readable(c); }
  }

  lemma Readable(c: Chunk)
    requires GetChunkInfo(c.header).Some?
    ensures InfoOf(c) == GetChunkInfo(c.header).value
  {}

  lemma {:induction false} MissingIsMissing(pieces: map<int, Bytes>, i: int, n: int)
    ensures Merge(pieces, i, n).1.Some? ==> Merge(pieces, i, n).1.value !in pieces
    decreases n - i
  {
    if i < n && i in pieces { MissingIsMissing(pieces, i + 1, n); }
  }
}

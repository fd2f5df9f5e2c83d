/** Reassembly: what a sequence of chunk uploads leaves behind, alone or interleaved with other uploads. */
module ChunkTheorems {
  import opened Options
  import opened Arith
  import opened Strconv
  import opened ContentRange
  import opened ChunkUpload

  // ---------------------------------------------------------------- sequences of uploads

  datatype Call = Call(id: FileId, chunk: Chunk)

  /** The chunks of `calls` that belong to file `id`, in order. */
  function Only(calls: seq<Call>, id: FileId): seq<Chunk> {
    if calls == [] then []
    else
      var last := calls[|calls| - 1];
      Only(calls[..|calls| - 1], id) + (if last.id == id then [last.chunk] else [])
  }

  function RunSlot(slot: Slot, chunks: seq<Chunk>): Slot {
    if chunks == [] then slot else SlotUpload(RunSlot(slot, chunks[..|chunks| - 1]), chunks[|chunks| - 1]).0
  }

  lemma RunSlotAppend(slot: Slot, chunks: seq<Chunk>, c: Chunk)
    ensures RunSlot(slot, chunks + [c]) == SlotUpload(RunSlot(slot, chunks), c).0
  {
    assert (chunks + [c])[..|chunks + [c]| - 1] == chunks;
  }

  /** Any interleaving: every file ends up as if its own chunks had been the only ones. */
  method UploadAll(m: Manager, calls: seq<Call>)
    requires forall call <- calls :: IsChunk(call.chunk.header)
    modifies m
    ensures forall id :: m.SlotOf(id) == RunSlot(old(m.SlotOf(id)), Only(calls, id))
  {
    hide SlotUpload, RunSlot, Only;
    OnlyNone(calls);
    for i := 0 to |calls|
      invariant forall id :: m.SlotOf(id) == RunSlot(old(m.SlotOf(id)), Only(calls[..i], id))
    {
      hide SlotUpload, RunSlot, Only;
      assert calls[i] in calls;
      forall id ensures RunSlot(old(m.SlotOf(id)), Only(calls[..i + 1], id)) ==
        if id == calls[i].id then SlotUpload(RunSlot(old(m.SlotOf(id)), Only(calls[..i], id)), calls[i].chunk).0
        else RunSlot(old(m.SlotOf(id)), Only(calls[..i], id))
      {
        OnlyStep(old(m.SlotOf(id)), calls, i, id);
      }
      var reply := m.Upload(calls[i].id, calls[i].chunk);
    }
    assert calls[..|calls|] == calls;
  }

  lemma OnlyNone(calls: seq<Call>)
    ensures forall id, slot :: RunSlot(slot, Only(calls[..0], id)) == slot
  {}

  lemma OnlyStep(slot: Slot, calls: seq<Call>, i: nat, id: FileId)
    requires i < |calls|
    ensures RunSlot(slot, Only(calls[..i + 1], id)) ==
      if id == calls[i].id then SlotUpload(RunSlot(slot, Only(calls[..i], id)), calls[i].chunk).0
      else RunSlot(slot, Only(calls[..i], id))
  {
    assert calls[..i + 1][..i] == calls[..i];
    RunSlotAppend(slot, Only(calls[..i], id), calls[i].chunk);
    assert Only(calls[..i], id) + [] == Only(calls[..i], id);
  }

  // ---------------------------------------------------------------- cutting a file into chunks

  /** How many chunks of size `c` a client needs. */
  function Count(total: nat, c: nat): nat
    requires c > 0
  {
    (total + c - 1) / c
  }

  function Min(a: nat, b: nat): nat { if a <= b then a else b }

  lemma CountBounds(total: nat, c: nat)
    requires total > 0 && c > 0
    ensures Count(total, c) >= 1
    ensures (Count(total, c) - 1) * c < total <= Count(total, c) * c
  {
    var n := Count(total, c);
    assert total + c - 1 == n * c + (total + c - 1) % c;
  }

  lemma Below(total: nat, c: nat, i: nat)
    requires total > 0 && c > 0 && i < Count(total, c)
    ensures i * c < total
    ensures (i + 1) * c < total <==> i + 1 < Count(total, c)
  {
    var n := Count(total, c);
    CountBounds(total, c);
    MulLess(i, n - 1, c);
    if i + 1 < n { MulLess(i + 1, n - 1, c); }
  }

  lemma MulLess(a: nat, b: nat, c: nat)
    requires a <= b
    ensures a * c <= b * c
  {}

  /** The bytes of chunk `i`. */
  function Piece(content: Bytes, c: nat, i: nat): Bytes
    requires content != [] && c > 0 && i < Count(|content|, c)
  {
    Below(|content|, c, i);
    content[i * c..Min((i + 1) * c, |content|)]
  }

  function ChunkAt(content: Bytes, c: nat, meta: Meta, i: nat): Chunk
    requires content != [] && c > 0 && i < Count(|content|, c)
  {
    Below(|content|, c, i);
    Chunk(Header(i * c, Min((i + 1) * c, |content|) - 1, |content|), Piece(content, c, i), |Piece(content, c, i)|, meta)
  }

  ghost predicate Numbers(order: seq<nat>, n: nat) { forall i :: 0 <= i < |order| ==> order[i] < n }

  function Chunks(content: Bytes, c: nat, meta: Meta, order: seq<nat>): (chunks: seq<Chunk>)
    requires content != [] && c > 0 && Numbers(order, Count(|content|, c))
    ensures |chunks| == |order|
  {
    seq(|order|, i requires 0 <= i < |order| => ChunkAt(content, c, meta, order[i]))
  }

  /** What the server reads off the header of chunk `i`. */
  lemma ChunkHeader(content: Bytes, c: nat, meta: Meta, i: nat)
    requires content != [] && c > 0 && i < Count(|content|, c) && |content| <= MAX_INT64
    ensures var h := ChunkAt(content, c, meta, i).header;
      && GetChunkInfo(h) == Some(ChunkInfo(i * c, Min((i + 1) * c, |content|) - 1, |content|))
      && (Complete(h) <==> i + 1 == Count(|content|, c))
      && (i * c == 0 <==> i == 0)
  {
    Below(|content|, c, i);
    MulLess(1, if i == 0 then 1 else i, c);
    HeaderRoundTrip(i * c, Min((i + 1) * c, |content|) - 1, |content|);
  }

  // ---------------------------------------------------------------- arrival order

  /** The chunk numbers other than 0, in order of arrival. */
  function NonZero(order: seq<nat>): seq<nat> {
    if order == [] then []
    else NonZero(order[..|order| - 1]) + (if order[|order| - 1] == 0 then [] else [order[|order| - 1]])
  }

  /** The chunk numbers in the order of the indices they are stored under: 0, then the non-zero arrivals. */
  function Arrivals(order: seq<nat>): seq<nat> { [0] + NonZero(order) }

  lemma {:induction false} NonZeroNumbers(order: seq<nat>, n: nat)
    requires Numbers(order, n)
    ensures Numbers(NonZero(order), n)
    decreases |order|
  {
    if order != [] { NonZeroNumbers(order[..|order| - 1], n); }
  }

  /** `pieces` holds the chunks of `stored` under 0, 1, 2, .. */
  ghost predicate Holds(pieces: map<int, Bytes>, content: Bytes, c: nat, stored: seq<nat>)
    requires content != [] && c > 0
  {
    && Numbers(stored, Count(|content|, c))
    && (forall k :: k in pieces <==> 0 <= k < |stored|)
    && forall k :: 0 <= k < |stored| ==> pieces[k] == Piece(content, c, stored[k])
  }

  /** The entry the first chunk opens. */
  function Opened(total: nat, c: nat, meta: Meta): UploadChunk
    requires total > 0 && c > 0 && total <= MAX_INT64
  {
    var size := Min(c, total);
    SizeFits(total, c);
    UploadChunk(0, total, size, TotalChunks(total, size), meta)
  }

  lemma SizeFits(total: nat, c: nat)
    requires total > 0 && c > 0 && total <= MAX_INT64
    ensures ChunkSize(Min(c, total) - 1) == Min(c, total) && Min(c, total) > 0
  {}

  /**
   * An upload under way: the entry has counted the non-zero arrivals, the pieces sit in arrival order, and what a merge
   * that failed may have left is too short.
   */
  ghost predicate UnderWay(slot: Slot, content: Bytes, c: nat, meta: Meta, order: seq<nat>)
    requires content != [] && c > 0 && |content| <= MAX_INT64
  {
    && slot.chunk == Some(Opened(|content|, c, meta).(last := |NonZero(order)|))
    && Holds(slot.pieces, content, c, Arrivals(order))
    && (slot.file.Some? ==> |slot.file.value| < |content|)
    && slot.row.Some? && slot.row.value.meta == meta
  }

  lemma NonZeroAppend(order: seq<nat>, x: nat)
    ensures NonZero(order + [x]) == NonZero(order) + (if x == 0 then [] else [x])
  {
    assert (order + [x])[..|order + [x]| - 1] == order;
  }

  /** The stored slot after one more chunk, before the completion check. */
  function Received(slot: Slot, content: Bytes, c: nat, meta: Meta, x: nat): Slot
    requires content != [] && c > 0 && x < Count(|content|, c) && |content| <= MAX_INT64 && slot.chunk.Some?
  {
    var chunk := ChunkAt(content, c, meta, x);
    var entry := if x == 0 then slot.chunk.value else slot.chunk.value.(last := slot.chunk.value.last + 1);
    slot.(chunk := Some(entry),
          pieces := slot.pieces[(if x == 0 then 0 else entry.last) := chunk.data],
          row := if x == 0 then Some(SaveRow(slot.row, File(chunk.size, Uploading, meta))) else slot.row)
  }

  /** One chunk more into an upload that is under way. */
  lemma ReceiveUnderWay(slot: Slot, content: Bytes, c: nat, meta: Meta, order: seq<nat>, x: nat)
    requires content != [] && c > 0 && |content| <= MAX_INT64
    requires x < Count(|content|, c) && UnderWay(slot, content, c, meta, order)
    ensures var next := Received(slot, content, c, meta, x);
      UnderWay(next, content, c, meta, order + [x]) && SlotUpload(slot, ChunkAt(content, c, meta, x)).0 ==
        if x + 1 == Count(|content|, c) then Finish(next, next.chunk.value, meta).0 else next
  {
    UploadIsReceived(slot, content, c, meta, x);
    StaysUnderWay(slot, content, c, meta, order, x);
  }

  lemma StaysUnderWay(slot: Slot, content: Bytes, c: nat, meta: Meta, order: seq<nat>, x: nat)
    requires content != [] && c > 0 && |content| <= MAX_INT64
    requires x < Count(|content|, c) && UnderWay(slot, content, c, meta, order)
    ensures UnderWay(Received(slot, content, c, meta, x), content, c, meta, order + [x])
  {
    NonZeroAppend(order, x);
    PartsOf(content, c, meta, x);
    HoldsMore(slot.pieces, content, c, Arrivals(order), x);
    hide NonZero, Count, Opened, Piece, ChunkAt, Holds;
    assert Arrivals(order + [x]) == if x == 0 then Arrivals(order) else Arrivals(order) + [x];
  }

  lemma HoldsMore(pieces: map<int, Bytes>, content: Bytes, c: nat, stored: seq<nat>, x: nat)
    requires content != [] && c > 0 && x < Count(|content|, c)
    requires Holds(pieces, content, c, stored) && stored != [] && stored[0] == 0
    ensures x == 0 ==> Holds(pieces[0 := Piece(content, c, 0)], content, c, stored)
    ensures Holds(pieces[|stored| := Piece(content, c, x)], content, c, stored + [x])
  {
    hide Piece, Count;
  }

  lemma PartsOf(content: Bytes, c: nat, meta: Meta, i: nat)
    requires content != [] && c > 0 && i < Count(|content|, c)
    ensures ChunkAt(content, c, meta, i).meta == meta && ChunkAt(content, c, meta, i).data == Piece(content, c, i)
  {}

  lemma UploadIsReceived(slot: Slot, content: Bytes, c: nat, meta: Meta, x: nat)
    requires content != [] && c > 0 && |content| <= MAX_INT64 && x < Count(|content|, c)
    requires slot.chunk.Some? && slot.chunk.value.meta == meta
    ensures var next := Received(slot, content, c, meta, x);
      SlotUpload(slot, ChunkAt(content, c, meta, x)).0 ==
        if x + 1 == Count(|content|, c) then Finish(next, next.chunk.value, meta).0 else next
  {
    ChunkHeader(content, c, meta, x);
    hide GetChunkInfo, Complete, ChunkAt, Finish, Header;
  }

  /** The first chunk opens the upload. */
  lemma ReceiveFirst(content: Bytes, c: nat, meta: Meta)
    requires content != [] && c > 0 && |content| <= MAX_INT64
    ensures Count(|content|, c) >= 1
    ensures var first := ChunkAt(content, c, meta, 0);
      var started :=
        Slot(Some(Opened(|content|, c, meta)), map[0 := first.data], None, Some(Row(first.size, Uploading, meta)));
      && UnderWay(started, content, c, meta, [0])
      && SlotUpload(EMPTY_SLOT, first).0 ==
           if Count(|content|, c) == 1 then Finish(started, started.chunk.value, meta).0 else started
  {
    CountBounds(|content|, c);
    FirstUpload(content, c, meta);
    StartedUnderWay(content, c, meta);
    hide SlotUpload, Finish, UnderWay, ChunkAt, Opened;
  }

  lemma StartedUnderWay(content: Bytes, c: nat, meta: Meta)
    requires content != [] && c > 0 && |content| <= MAX_INT64 && Count(|content|, c) >= 1
    ensures var first := ChunkAt(content, c, meta, 0);
      var row := Row(first.size, Uploading, meta);
      UnderWay(Slot(Some(Opened(|content|, c, meta)), map[0 := first.data], None, Some(row)), content, c, meta, [0])
  {
    PartsOf(content, c, meta, 0);
    assert NonZero([0]) == [] by { assert [0][..0] == []; }
    hide Piece, ChunkAt, Count, NonZero, Opened;
    assert Arrivals([0]) == [0];
    assert Opened(|content|, c, meta).last == 0 by { OpenedLast(|content|, c, meta); }
  }

  lemma OpenedLast(total: nat, c: nat, meta: Meta)
    requires total > 0 && c > 0 && total <= MAX_INT64
    ensures Opened(total, c, meta).last == 0
  {}

  lemma FirstUpload(content: Bytes, c: nat, meta: Meta)
    requires content != [] && c > 0 && |content| <= MAX_INT64 && Count(|content|, c) >= 1
    ensures var first := ChunkAt(content, c, meta, 0);
      var started :=
        Slot(Some(Opened(|content|, c, meta)), map[0 := first.data], None, Some(Row(first.size, Uploading, meta)));
      SlotUpload(EMPTY_SLOT, first).0 ==
        if Count(|content|, c) == 1 then Finish(started, started.chunk.value, meta).0 else started
  {
    ChunkHeader(content, c, meta, 0);
    SizeFits(|content|, c);
    hide GetChunkInfo, Complete, Header, Finish, ChunkAt, TotalChunks;
    var first := ChunkAt(content, c, meta, 0);
    var info := ChunkInfo(0, Min(c, |content|) - 1, |content|);
    assert GetChunkInfo(first.header) == Some(info);
    assert OpenEntry(None, info, meta) == Some(Opened(|content|, c, meta));
    assert first.meta == meta by { PartsOf(content, c, meta, 0); }
    assert map[][0 := first.data] == map[0 := first.data];
  }

  // ---------------------------------------------------------------- whole uploads

  /**
   * The first chunk comes first, the last one comes last and only then; in between anything may arrive, any number of
   * times.
   */
  ghost predicate FirstToLast(order: seq<nat>, n: nat) {
    && order != [] && order[0] == 0 && order[|order| - 1] + 1 == n
    && forall i :: 0 <= i < |order| - 1 ==> order[i] + 1 < n
  }

  lemma {:induction false} RunUnderWay(content: Bytes, c: nat, meta: Meta, order: seq<nat>)
    requires content != [] && c > 0 && |content| <= MAX_INT64
    requires order != [] && order[0] == 0 && forall i :: 0 <= i < |order| ==> order[i] + 1 < Count(|content|, c)
    ensures UnderWay(RunSlot(EMPTY_SLOT, Chunks(content, c, meta, order)), content, c, meta, order)
    decreases |order|
  {
    hide SlotUpload, UnderWay, Chunks, RunSlot, ChunkAt, Finish, Opened, Received, Count, Min;
    var n := |order| - 1;
    if n == 0 {
      ReceiveFirst(content, c, meta);
      FirstRun(content, c, meta, order);
      assert order == [0];
    } else {
      RunUnderWay(content, c, meta, order[..n]);
      RunPrefix(content, c, meta, order);
      ReceiveUnderWay(RunSlot(EMPTY_SLOT, Chunks(content, c, meta, order[..n])), content, c, meta, order[..n],
        order[n]);
      assert order == order[..n] + [order[n]];
    }
  }

  lemma FirstRun(content: Bytes, c: nat, meta: Meta, order: seq<nat>)
    requires content != [] && c > 0 && order == [0] && 0 < Count(|content|, c)
    ensures RunSlot(EMPTY_SLOT, Chunks(content, c, meta, order)) ==
      SlotUpload(EMPTY_SLOT, ChunkAt(content, c, meta, 0)).0
  {
    RunPrefix(content, c, meta, order);
    NothingRun(content, c, meta, order);
  }

  lemma RunPrefix(content: Bytes, c: nat, meta: Meta, order: seq<nat>)
    requires content != [] && c > 0 && Numbers(order, Count(|content|, c)) && order != []
    ensures var n := |order| - 1;
      RunSlot(EMPTY_SLOT, Chunks(content, c, meta, order)) ==
        SlotUpload(RunSlot(EMPTY_SLOT, Chunks(content, c, meta, order[..n])), ChunkAt(content, c, meta, order[n])).0
  {
    hide ChunkAt, SlotUpload, Count;
    var n := |order| - 1;
    var chunks := Chunks(content, c, meta, order);
    assert chunks[..n] == Chunks(content, c, meta, order[..n]);
    assert chunks[n] == ChunkAt(content, c, meta, order[n]);
  }

  /** The state in which the last chunk's merge finds the upload. */
  lemma BeforeMerge(content: Bytes, c: nat, meta: Meta, order: seq<nat>) returns (slot: Slot)
    requires content != [] && c > 0 && |content| <= MAX_INT64 && FirstToLast(order, Count(|content|, c))
    ensures Numbers(order, Count(|content|, c)) && UnderWay(slot, content, c, meta, order)
    ensures RunSlot(EMPTY_SLOT, Chunks(content, c, meta, order)) == Finish(slot, slot.chunk.value, meta).0
  {
    hide RunSlot, Chunks, Count, SlotUpload, UnderWay, ChunkAt, Finish, Opened, Received;
    var n := |order| - 1;
    RunPrefix(content, c, meta, order);
    if n == 0 {
      ReceiveFirst(content, c, meta);
      assert order == [0];
      var first := ChunkAt(content, c, meta, 0);
      slot := Slot(Some(Opened(|content|, c, meta)), map[0 := first.data], None,
        Some(Row(first.size, Uploading, meta)));
      NothingRun(content, c, meta, order);
    } else {
      RunUnderWay(content, c, meta, order[..n]);
      var before := RunSlot(EMPTY_SLOT, Chunks(content, c, meta, order[..n]));
      HasEntry(before, content, c, meta, order[..n]);
      ReceiveUnderWay(before, content, c, meta, order[..n], order[n]);
      assert order == order[..n] + [order[n]];
      slot := Received(before, content, c, meta, order[n]);
    }
  }

  lemma NothingRun(content: Bytes, c: nat, meta: Meta, order: seq<nat>)
    requires content != [] && c > 0 && order != []
    ensures RunSlot(EMPTY_SLOT, Chunks(content, c, meta, order[..0])) == EMPTY_SLOT
  {}

  /** The bytes of a list of chunk numbers, one after the other. */
  function Joined(content: Bytes, c: nat, numbers: seq<nat>): Bytes
    requires content != [] && c > 0 && forall i :: 0 <= i < |numbers| ==> numbers[i] < Count(|content|, c)
  {
    if numbers == [] then [] else Piece(content, c, numbers[0]) + Joined(content, c, numbers[1..])
  }

  lemma {:induction false} MergeJoins(pieces: map<int, Bytes>, content: Bytes, c: nat, stored: seq<nat>, i: nat, n: nat)
    requires content != [] && c > 0 && Holds(pieces, content, c, stored) && i <= n && i <= |stored|
    ensures Merge(pieces, i, n) ==
      (Joined(content, c, stored[i..if n <= |stored| then n else |stored|]),
       if n <= |stored| then None else Some(|stored|))
    decreases n - i
  {
    var m := if n <= |stored| then n else |stored|;
    if i < m {
      MergeJoins(pieces, content, c, stored, i + 1, n);
      assert stored[i..m][1..] == stored[i + 1..m];
      hide Piece, Count;
    } else {
      assert stored[i..m] == [];
    }
  }

  ghost predicate Fits(total: nat, c: nat)
    requires c > 0
  {
    total + Min(c, total) - 1 <= MAX_INT64
  }

  /**
   * What the first header makes of the number of chunks: right while the rounding sum fits 64 bits, and no chunks
   * otherwise.
   */
  lemma TotalChunksExact(total: nat, c: nat)
    requires total > 0 && c > 0 && total <= MAX_INT64
    ensures Fits(total, c) ==> TotalChunks(total, Min(c, total)) == Count(total, c)
    ensures !Fits(total, c) ==> TotalChunks(total, Min(c, total)) <= 0
  {
    var size := Min(c, total);
    RoundingSum(total, size);
    if Fits(total, c) {
      if c > total { OneChunk(total, c); }
    } else {
      NegativeQuotient(total + size - 1 - 0x1_0000_0000_0000_0000, size);
    }
  }

  lemma RoundingSum(total: nat, size: nat)
    requires 0 < size <= total <= MAX_INT64
    ensures var sum := Wrap64(Wrap64(total + size) - 1);
      if total + size - 1 <= MAX_INT64 then sum == total + size - 1
        else sum == total + size - 1 - 0x1_0000_0000_0000_0000 && sum < 0
  {}

  lemma NegativeQuotient(a: int, b: int)
    requires a < 0 < b
    ensures TruncDiv(a, b) <= 0
  {}

  lemma OneChunk(total: nat, c: nat)
    requires 0 < total < c
    ensures Count(total, c) == 1 && (total + total - 1) / total == 1
  {
    assert total + c - 1 == 1 * c + (total - 1);
    assert total + total - 1 == 1 * total + (total - 1);
  }

  /**
   * What an upload leaves behind, for any arrivals between the first chunk and the last. The server joins chunks in
   * the order of their non-zero arrivals; with fewer arrivals than chunks the merge fails and the upload stays open.
   */
  lemma ArrivalLaw(content: Bytes, c: nat, meta: Meta, order: seq<nat>)
    requires content != [] && c > 0 && FirstToLast(order, Count(|content|, c)) && Fits(|content|, c)
    ensures Numbers(order, Count(|content|, c)) && Numbers(Arrivals(order), Count(|content|, c))
    ensures var n := Count(|content|, c);
      var slot := RunSlot(EMPTY_SLOT, Chunks(content, c, meta, order));
      if |Arrivals(order)| >= n then
        slot == Slot(None, map[], Some(Joined(content, c, Arrivals(order)[..n])), Some(Row(|content|, Uploaded, meta)))
      else
        slot.chunk.Some? && slot.file == Some(Joined(content, c, Arrivals(order)))
  {
    var slot := BeforeMerge(content, c, meta, order);
    var n := Count(|content|, c);
    CountBounds(|content|, c);
    TotalChunksExact(|content|, c);
    OpenedTotal(|content|, c, meta);
    var stored := Arrivals(order);
    MergeJoins(slot.pieces, content, c, stored, 0, n);
    assert stored[0..|stored|] == stored;
    hide RunSlot, Chunks, Joined, Merge, Count, TotalChunks, NonZero;
  }

  lemma OpenedTotal(total: nat, c: nat, meta: Meta)
    requires total > 0 && c > 0 && total <= MAX_INT64
    ensures Opened(total, c, meta).total == total
      && Opened(total, c, meta).totalChunks == TotalChunks(total, Min(c, total))
  {}

  /** 0, 1, .. n-1 from `i` on. */
  function UpFrom(i: nat, n: nat): (s: seq<nat>)
    requires i <= n
    ensures |s| == n - i && forall k :: 0 <= k < |s| ==> s[k] == i + k
    decreases n - i
  {
    if i == n then [] else [i] + UpFrom(i + 1, n)
  }

  lemma {:induction false} JoinedInOrder(content: Bytes, c: nat, i: nat)
    requires content != [] && c > 0 && i <= Count(|content|, c)
    ensures Joined(content, c, UpFrom(i, Count(|content|, c))) == content[Min(i * c, |content|)..]
    decreases Count(|content|, c) - i
  {
    var n := Count(|content|, c);
    if i < n {
      JoinedInOrder(content, c, i + 1);
      PieceThenRest(content, c, i);
      assert UpFrom(i, n)[1..] == UpFrom(i + 1, n);
      hide Count, UpFrom, Piece, Min;
    } else {
      CountBounds(|content|, c);
      hide Count;
    }
  }

  lemma PieceThenRest(content: Bytes, c: nat, i: nat)
    requires content != [] && c > 0 && i < Count(|content|, c)
    ensures Piece(content, c, i) + content[Min((i + 1) * c, |content|)..] == content[Min(i * c, |content|)..]
  {
    Below(|content|, c, i);
    MulLess(i, i + 1, c);
    hide Count;
    Rejoin(content, i * c, Min((i + 1) * c, |content|));
  }

  lemma Rejoin(content: Bytes, a: nat, b: nat)
    requires a <= b <= |content|
    ensures content[a..b] + content[b..] == content[a..]
  {}

  /** The arrivals of an upload that sends its chunks in order, with the first one re-sent any number of times. */
  ghost predicate InOrder(order: seq<nat>, n: nat) { FirstToLast(order, n) && Arrivals(order) == UpFrom(0, n) }

  /**
   * Reassembly. For any content and chunk size, sending the chunks in order, the first one as often as one likes
   * before the last, makes the stored file equal to the content exactly when content and first chunk together do not
   * overflow the server's 64-bit rounding sum; and then the upload is closed and its row says so.
   */
  lemma ReassemblyIff(content: Bytes, c: nat, meta: Meta, order: seq<nat>)
    requires content != [] && c > 0 && InOrder(order, Count(|content|, c))
    ensures Numbers(order, Count(|content|, c))
    ensures var slot := RunSlot(EMPTY_SLOT, Chunks(content, c, meta, order));
      && (slot.file == Some(content) <==> Fits(|content|, c))
      && (Fits(|content|, c) ==> slot == Slot(None, map[], Some(content), Some(Row(|content|, Uploaded, meta))))
  {
    var n := Count(|content|, c);
    assert Numbers(order, n);
    if Fits(|content|, c) {
      ArrivalLaw(content, c, meta, order);
      JoinedInOrder(content, c, 0);
      assert UpFrom(0, n)[..n] == UpFrom(0, n);
    } else if |content| <= MAX_INT64 {
      NoChunksMerged(content, c, meta, order);
    } else {
      NothingAccepted(content, c, meta, order);
    }
  }

  lemma NoChunksMerged(content: Bytes, c: nat, meta: Meta, order: seq<nat>)
    requires content != [] && c > 0 && FirstToLast(order, Count(|content|, c)) && !Fits(|content|, c)
      && |content| <= MAX_INT64
    ensures Numbers(order, Count(|content|, c)) && RunSlot(EMPTY_SLOT, Chunks(content, c, meta, order)).file == Some([])
  {
    var slot := BeforeMerge(content, c, meta, order);
    TotalChunksExact(|content|, c);
    OpenedTotal(|content|, c, meta);
    hide RunSlot, Chunks, Count, TotalChunks;
  }

  /** A total beyond 64 bits makes every header unreadable. */
  lemma {:induction false} NothingAccepted(content: Bytes, c: nat, meta: Meta, order: seq<nat>)
    requires content != [] && c > 0 && |content| > MAX_INT64 && Numbers(order, Count(|content|, c))
    ensures RunSlot(EMPTY_SLOT, Chunks(content, c, meta, order)) == EMPTY_SLOT
    decreases |order|
  {
    if order == [] {
    } else {
      var x := order[|order| - 1];
      NothingAccepted(content, c, meta, order[..|order| - 1]);
      RunPrefix(content, c, meta, order);
      Unreadable(EMPTY_SLOT, content, c, meta, x);
      hide RunSlot, Chunks, Count, SlotUpload, ChunkAt;
    }
  }

  lemma Unreadable(slot: Slot, content: Bytes, c: nat, meta: Meta, x: nat)
    requires content != [] && c > 0 && |content| > MAX_INT64 && x < Count(|content|, c)
    ensures SlotUpload(slot, ChunkAt(content, c, meta, x)).0 == slot
  {
    Below(|content|, c, x);
    MulLess(x, x + 1, c);
    HeaderRoundTrip(x * c, Min((x + 1) * c, |content|) - 1, |content|);
    hide Count, Header, GetChunkInfo, Complete, Piece, Finish;
  }

  // ---------------------------------------------------------------- when arrival order is the right order

  /** A content that shows which chunk is at byte `k`: all zeros but there. */
  function Probe(total: nat, k: nat): (content: Bytes)
    ensures |content| == total && forall i :: 0 <= i < total ==> content[i] == if i == k then 1 else 0
  {
    seq(total, i => if i == k then 1 else 0)
  }

  lemma {:induction false} JoinedAtMost(content: Bytes, c: nat, numbers: seq<nat>)
    requires content != [] && c > 0 && forall i :: 0 <= i < |numbers| ==> numbers[i] < Count(|content|, c)
    ensures |Joined(content, c, numbers)| <= |numbers| * c
    decreases |numbers|
  {
    if numbers != [] {
      PieceSize(content, c, numbers[0]);
      JoinedAtMost(content, c, numbers[1..]);
      OneMoreTimes(|numbers| - 1, c);
      hide Piece, Count;
    }
  }

  lemma OneMoreTimes(a: nat, c: nat)
    ensures (a + 1) * c == a * c + c
  {}

  lemma PieceSize(content: Bytes, c: nat, i: nat)
    requires content != [] && c > 0 && i < Count(|content|, c)
    ensures 0 < |Piece(content, c, i)| <= c && (i + 1 < Count(|content|, c) ==> |Piece(content, c, i)| == c)
    ensures i * c < |content| && Piece(content, c, i)[0] == content[i * c]
  {
    Below(|content|, c, i);
    OneMoreTimes(i, c);
    hide Count;
  }

  /** Behind `k` full chunks, at byte k * c, stands the first byte of the next one. */
  lemma {:induction false} JoinedAt(content: Bytes, c: nat, numbers: seq<nat>, k: nat)
    requires content != [] && c > 0 && forall i :: 0 <= i < |numbers| ==> numbers[i] < Count(|content|, c)
    requires k < |numbers| && forall i :: 0 <= i < k ==> numbers[i] + 1 < Count(|content|, c)
    ensures numbers[k] * c < |content|
    ensures k * c < |Joined(content, c, numbers)| && Joined(content, c, numbers)[k * c] == content[numbers[k] * c]
    decreases k
  {
    PieceSize(content, c, numbers[0]);
    hide Piece, Count;
    Below(|content|, c, numbers[k]);
    if k > 0 {
      JoinedAt(content, c, numbers[1..], k - 1);
      Behind(Piece(content, c, numbers[0]), Joined(content, c, numbers[1..]), c, k);
    }
  }

  lemma Behind(first: Bytes, rest: Bytes, c: nat, k: nat)
    requires |first| == c && k > 0 && (k - 1) * c < |rest|
    ensures k * c < |first + rest| && (first + rest)[k * c] == rest[(k - 1) * c]
  {
    OneMoreTimes(k - 1, c);
  }

  /** Different chunks start at different bytes. */
  lemma StartsApart(a: nat, b: nat, c: nat)
    requires c > 0 && a != b
    ensures a * c != b * c
  {
    if a < b { MulLess(a + 1, b, c); OneMoreTimes(a, c); } else { MulLess(b + 1, a, c); OneMoreTimes(b, c); }
  }

  /** Of an upload from first to last, only the last arrival is the last chunk. */
  lemma {:induction false} EarlierArrivals(order: seq<nat>, n: nat)
    requires order != [] && forall i :: 0 <= i < |order| - 1 ==> order[i] + 1 < n
    ensures forall i :: 0 <= i < |NonZero(order)| - 1 ==> NonZero(order)[i] + 1 < n
    ensures order[|order| - 1] == 0 ==> forall i :: 0 <= i < |NonZero(order)| ==> NonZero(order)[i] + 1 < n
    decreases |order|
  {
    var last := |order| - 1;
    if last > 0 {
      AllBelow(order[..last], n);
    } else {
      assert NonZero(order[..0]) == [];
    }
  }

  lemma {:induction false} AllBelow(order: seq<nat>, n: nat)
    requires forall i :: 0 <= i < |order| ==> order[i] + 1 < n
    ensures forall i :: 0 <= i < |NonZero(order)| ==> NonZero(order)[i] + 1 < n
    decreases |order|
  {
    if order != [] { AllBelow(order[..|order| - 1], n); }
  }

  /** Every arrival before the last of `Arrivals` is of a chunk before the last chunk. */
  lemma ArrivalsBelow(order: seq<nat>, n: nat)
    requires FirstToLast(order, n)
    ensures forall i :: 0 <= i < |Arrivals(order)| - 1 ==> Arrivals(order)[i] + 1 < n
  {
    EarlierArrivals(order, n);
    if n == 1 {
      assert |order| == 1;
      assert order == [0] && NonZero([0][..0]) == [];
    }
  }

  /** Every content of this length survives the upload. */
  ghost predicate AlwaysRebuilt(total: nat, c: nat, meta: Meta, order: seq<nat>)
    requires total > 0 && c > 0 && Numbers(order, Count(total, c))
  {
    forall content: Bytes | |content| == total ::
      RunSlot(EMPTY_SLOT, Chunks(content, c, meta, order)).file == Some(content)
  }

  /** Too few arrivals: the file is short, whatever its content. */
  lemma TooFewArrivals(content: Bytes, c: nat, meta: Meta, order: seq<nat>)
    requires content != [] && c > 0 && FirstToLast(order, Count(|content|, c)) && Fits(|content|, c)
    requires |Arrivals(order)| < Count(|content|, c)
    ensures Numbers(order, Count(|content|, c))
      && RunSlot(EMPTY_SLOT, Chunks(content, c, meta, order)).file != Some(content)
  {
    hide RunSlot, Chunks, Count, Joined, Arrivals, NonZero, Fits, FirstToLast;
    ArrivalLaw(content, c, meta, order);
    TooShort(content, c, Arrivals(order));
  }

  lemma TooShort(content: Bytes, c: nat, numbers: seq<nat>)
    requires content != [] && c > 0 && Numbers(numbers, Count(|content|, c)) && |numbers| < Count(|content|, c)
    ensures Joined(content, c, numbers) != content
  {
    hide Joined, Count;
    JoinedAtMost(content, c, numbers);
    CountBounds(|content|, c);
    MulLess(|numbers|, Count(|content|, c) - 1, c);
  }

  /** A chunk out of its place: some content shows it. */
  lemma OutOfPlace(total: nat, c: nat, meta: Meta, order: seq<nat>, k: nat) returns (content: Bytes)
    requires total > 0 && c > 0 && FirstToLast(order, Count(total, c)) && Fits(total, c)
    requires Count(total, c) <= |Arrivals(order)| && k < Count(total, c) && Arrivals(order)[k] != k
    ensures |content| == total && Numbers(order, Count(total, c))
    ensures RunSlot(EMPTY_SLOT, Chunks(content, c, meta, order)).file != Some(content)
  {
    var n := Count(total, c);
    content := Probe(total, k * c);
    hide RunSlot, Chunks, Joined, Arrivals, NonZero, Probe, Count, Fits;
    ArrivalLaw(content, c, meta, order);
    ArrivalsBelow(order, n);
    hide FirstToLast;
    ProbeShows(content, c, Arrivals(order)[..n], k);
  }

  lemma ProbeShows(content: Bytes, c: nat, numbers: seq<nat>, k: nat)
    requires content != [] && c > 0 && Numbers(numbers, Count(|content|, c)) && k < |numbers| && numbers[k] != k
    requires k < Count(|content|, c) && forall i :: 0 <= i < k ==> numbers[i] + 1 < Count(|content|, c)
    requires content == Probe(|content|, k * c)
    ensures Joined(content, c, numbers) != content
  {
    hide Joined, Count;
    Below(|content|, c, k);
    JoinedAt(content, c, numbers, k);
    StartsApart(numbers[k], k, c);
    DiffersAt(content, Joined(content, c, numbers), k * c, numbers[k] * c);
  }

  lemma DiffersAt(content: Bytes, other: Bytes, a: nat, b: nat)
    requires a < |content| && b < |content| && a < |other| && other[a] == content[b] && a != b
    requires content == Probe(|content|, a)
    ensures other != content
  {}

  /** Uploads that send the first chunk first and the last one last, and then no more. */
  lemma RebuiltUpToLast(total: nat, c: nat, meta: Meta, order: seq<nat>)
    requires total > 0 && c > 0 && FirstToLast(order, Count(total, c)) && Fits(total, c)
    ensures Numbers(order, Count(total, c))
    ensures AlwaysRebuilt(total, c, meta, order) <==> InOrder(order, Count(total, c))
  {
    var n := Count(total, c);
    CountBounds(total, c);
    assert Numbers(order, n);
    hide RunSlot, Chunks, Count, Fits;
    if InOrder(order, n) {
      forall content: Bytes | |content| == total
        ensures RunSlot(EMPTY_SLOT, Chunks(content, c, meta, order)).file == Some(content)
      {
        ReassemblyIff(content, c, meta, order);
      }
    } else if |Arrivals(order)| < n {
      var content := Probe(total, 0);
      TooFewArrivals(content, c, meta, order);
      assert !AlwaysRebuilt(total, c, meta, order);
    } else {
      var k := Misplaced(order, n);
      var content := OutOfPlace(total, c, meta, order, k);
      assert !AlwaysRebuilt(total, c, meta, order);
    }
  }

  // ---------------------------------------------------------------- last chunks that come early or again

  /** The first chunk is sent first, and not again once the last one has been sent, for the first time, at `k`. */
  ghost predicate Sent(order: seq<nat>, n: nat, k: nat) {
    && Numbers(order, n) && k < |order| && order[0] == 0 && order[k] + 1 == n
    && (forall i :: 0 <= i < k ==> order[i] + 1 < n)
    && forall i :: k < i < |order| ==> order[i] != 0
  }

  lemma SentStarts(order: seq<nat>, n: nat, k: nat)
    requires Sent(order, n, k)
    ensures FirstToLast(order[..k + 1], n)
  {}

  /** An upload that is closed takes nothing more. */
  lemma ClosedStays(slot: Slot, content: Bytes, c: nat, meta: Meta, x: nat)
    requires content != [] && c > 0 && |content| <= MAX_INT64 && 0 < x < Count(|content|, c) && slot.chunk.None?
    ensures SlotUpload(slot, ChunkAt(content, c, meta, x)).0 == slot
  {
    ChunkHeader(content, c, meta, x);
    hide GetChunkInfo, Complete, ChunkAt, Finish, Header, Count;
  }

  /** The last chunk of an upload under way: it closes, or the merge fails and leaves too short a file. */
  lemma LastChunk(slot: Slot, content: Bytes, c: nat, meta: Meta, order: seq<nat>)
    requires content != [] && c > 0 && Fits(|content|, c) && Numbers(order, Count(|content|, c))
    requires UnderWay(slot, content, c, meta, order)
    ensures var n := Count(|content|, c);
      var after := Finish(slot, slot.chunk.value, meta).0;
      if n <= |Arrivals(order)| then
        && Numbers(Arrivals(order)[..n], n) && after.chunk.None?
        && after.file == Some(Joined(content, c, Arrivals(order)[..n]))
      else UnderWay(after, content, c, meta, order)
  {
    var n := Count(|content|, c);
    var stored := Arrivals(order);
    TotalChunksExact(|content|, c);
    OpenedTotal(|content|, c, meta);
    MergeJoins(slot.pieces, content, c, stored, 0, n);
    assert stored[0..|stored|] == stored;
    if |stored| < n { ShortFile(content, c, stored); }
    hide Joined, Merge, Count, TotalChunks, NonZero, Piece, Opened, Fits;
  }

  lemma ShortFile(content: Bytes, c: nat, numbers: seq<nat>)
    requires content != [] && c > 0 && Numbers(numbers, Count(|content|, c)) && |numbers| < Count(|content|, c)
    ensures |Joined(content, c, numbers)| < |content|
  {
    hide Joined, Count;
    JoinedAtMost(content, c, numbers);
    CountBounds(|content|, c);
    MulLess(|numbers|, Count(|content|, c) - 1, c);
  }

  /** What the server has made of `order`: an upload under way, or one closed after some of its chunks. */
  ghost predicate ClosedAfter(slot: Slot, content: Bytes, c: nat, order: seq<nat>, s: nat)
    requires content != [] && c > 0
  {
    var n := Count(|content|, c);
    && s <= |order| && n <= |Arrivals(order[..s])| && Numbers(Arrivals(order[..s])[..n], n)
    && slot.chunk.None? && slot.file == Some(Joined(content, c, Arrivals(order[..s])[..n]))
  }

  ghost predicate Outcome(slot: Slot, content: Bytes, c: nat, meta: Meta, order: seq<nat>, k: nat)
    requires content != [] && c > 0 && |content| <= MAX_INT64
  {
    UnderWay(slot, content, c, meta, order) || exists s: nat :: k < s && ClosedAfter(slot, content, c, order, s)
  }

  /** One more chunk, not the first one. */
  lemma OutcomeStep(slot: Slot, content: Bytes, c: nat, meta: Meta, order: seq<nat>, k: nat, x: nat)
    requires content != [] && c > 0 && Fits(|content|, c) && 0 < x < Count(|content|, c)
    requires k <= |order| && Numbers(order, Count(|content|, c)) && Outcome(slot, content, c, meta, order, k)
    ensures Outcome(SlotUpload(slot, ChunkAt(content, c, meta, x)).0, content, c, meta, order + [x], k)
  {
    var after := SlotUpload(slot, ChunkAt(content, c, meta, x)).0;
    hide SlotUpload, ChunkAt, UnderWay, Arrivals, Joined, Finish, Received, Fits, Count;
    if UnderWay(slot, content, c, meta, order) {
      assert slot.chunk.Some? by { HasEntry(slot, content, c, meta, order); }
      ReceiveUnderWay(slot, content, c, meta, order, x);
      var next := Received(slot, content, c, meta, x);
      if x + 1 == Count(|content|, c) {
        LastChunk(next, content, c, meta, order + [x]);
        assert (order + [x])[..|order| + 1] == order + [x];
        assert UnderWay(after, content, c, meta, order + [x])
          || ClosedAfter(after, content, c, order + [x], |order| + 1);
      }
    } else {
      var s: nat :| k < s && ClosedAfter(slot, content, c, order, s);
      ClosedStays(slot, content, c, meta, x);
      assert (order + [x])[..s] == order[..s];
      assert ClosedAfter(after, content, c, order + [x], s);
    }
  }

  lemma HasEntry(slot: Slot, content: Bytes, c: nat, meta: Meta, order: seq<nat>)
    requires content != [] && c > 0 && |content| <= MAX_INT64 && UnderWay(slot, content, c, meta, order)
    ensures slot.chunk.Some?
  {}

  lemma {:induction false} OutcomeOf(content: Bytes, c: nat, meta: Meta, order: seq<nat>, k: nat)
    requires content != [] && c > 0 && Fits(|content|, c) && Sent(order, Count(|content|, c), k)
    ensures Outcome(RunSlot(EMPTY_SLOT, Chunks(content, c, meta, order)), content, c, meta, order, k)
    decreases |order|
  {
    var n := |order| - 1;
    hide RunSlot, Chunks, UnderWay, Arrivals, Joined, Finish, Count, ChunkAt, SlotUpload;
    if n == k {
      assert order[..k + 1] == order;
      SentStarts(order, Count(|content|, c), k);
      var slot := BeforeMerge(content, c, meta, order);
      LastChunk(slot, content, c, meta, order);
      assert order[..|order|] == order;
      hide FirstToLast;
      var after := RunSlot(EMPTY_SLOT, Chunks(content, c, meta, order));
      assert UnderWay(after, content, c, meta, order) || ClosedAfter(after, content, c, order, |order|);
    } else {
      OutcomeOf(content, c, meta, order[..n], k);
      RunPrefix(content, c, meta, order);
      assert order == order[..n] + [order[n]];
      OutcomeStep(RunSlot(EMPTY_SLOT, Chunks(content, c, meta, order[..n])), content, c, meta, order[..n], k, order[n]);
    }
  }

  /** Once the last chunk has found enough arrivals, later chunks change nothing. */
  lemma {:induction false} ClosedForGood(content: Bytes, c: nat, meta: Meta, order: seq<nat>, k: nat)
    requires content != [] && c > 0 && Fits(|content|, c) && Sent(order, Count(|content|, c), k)
    requires Count(|content|, c) <= |Arrivals(order[..k + 1])|
    ensures RunSlot(EMPTY_SLOT, Chunks(content, c, meta, order)) ==
      RunSlot(EMPTY_SLOT, Chunks(content, c, meta, order[..k + 1]))
    ensures RunSlot(EMPTY_SLOT, Chunks(content, c, meta, order)).chunk == None
    decreases |order|
  {
    var n := |order| - 1;
    hide RunSlot, Chunks, UnderWay, Arrivals, Joined, Finish, Count, ChunkAt, SlotUpload;
    if n == k {
      assert order[..k + 1] == order;
      SentStarts(order, Count(|content|, c), k);
      var slot := BeforeMerge(content, c, meta, order);
      LastChunk(slot, content, c, meta, order);
    } else {
      assert order[..n][..k + 1] == order[..k + 1];
      ClosedForGood(content, c, meta, order[..n], k);
      RunPrefix(content, c, meta, order);
      ClosedStays(RunSlot(EMPTY_SLOT, Chunks(content, c, meta, order[..n])), content, c, meta, order[n]);
    }
  }

  lemma {:induction false} ArrivalsPrefix(order: seq<nat>, a: nat, b: nat)
    requires a <= b <= |order|
    ensures Arrivals(order[..a]) <= Arrivals(order[..b])
    decreases b
  {
    if a < b {
      ArrivalsPrefix(order, a, b - 1);
      NonZeroAppend(order[..b - 1], order[b - 1]);
      assert order[..b] == order[..b - 1] + [order[b - 1]];
    }
  }

  /** The last chunk is the latest arrival. */
  lemma LastArrival(order: seq<nat>, n: nat)
    requires FirstToLast(order, n) && n > 1
    ensures var a := Arrivals(order); a[|a| - 1] + 1 == n
  {
    var last := |order| - 1;
    NonZeroAppend(order[..last], order[last]);
    assert order == order[..last] + [order[last]];
  }

  /** The last chunk came before all others were there: it stays misplaced, whatever is sent later. */
  lemma EarlyLastCorrupts(total: nat, c: nat, meta: Meta, order: seq<nat>, k: nat) returns (content: Bytes)
    requires total > 0 && c > 0 && Fits(total, c) && Sent(order, Count(total, c), k)
    requires |Arrivals(order[..k + 1])| < Count(total, c)
    ensures |content| == total && RunSlot(EMPTY_SLOT, Chunks(content, c, meta, order)).file != Some(content)
  {
    var n := Count(total, c);
    var first := Arrivals(order[..k + 1]);
    var at := |first| - 1;
    content := Probe(total, at * c);
    SentStarts(order, n, k);
    ArrivalsBelow(order[..k + 1], n);
    LastArrival(order[..k + 1], n);
    OutcomeOf(content, c, meta, order, k);
    var slot := RunSlot(EMPTY_SLOT, Chunks(content, c, meta, order));
    hide RunSlot, Chunks, Arrivals, Joined, Probe, Count, Sent, FirstToLast, Fits;
    if UnderWay(slot, content, c, meta, order) {
    } else {
      hide UnderWay;
      var s: nat :| k < s && ClosedAfter(slot, content, c, order, s);
      ArrivalsPrefix(order, k + 1, s);
      ProbeShows(content, c, Arrivals(order[..s])[..n], at);
    }
  }

  /**
   * Arrival order, for any upload that sends the first chunk first and not again after the last: every content of the
   * given length is rebuilt if and only if, up to the first sending of the last chunk, the chunks arrive in order and
   * once each, the first re-sent at will. What is sent after that changes nothing.
   */
  lemma RebuiltIffInOrder(total: nat, c: nat, meta: Meta, order: seq<nat>, k: nat)
    requires total > 0 && c > 0 && Fits(total, c) && Sent(order, Count(total, c), k)
    ensures AlwaysRebuilt(total, c, meta, order) <==> InOrder(order[..k + 1], Count(total, c))
  {
    var n := Count(total, c);
    var start := order[..k + 1];
    SentStarts(order, n, k);
    hide RunSlot, Chunks, Count, Fits, FirstToLast;
    RebuiltUpToLast(total, c, meta, start);
    if n <= |Arrivals(start)| {
      hide InOrder, Arrivals;
      forall content: Bytes | |content| == total
        ensures RunSlot(EMPTY_SLOT, Chunks(content, c, meta, order)) ==
          RunSlot(EMPTY_SLOT, Chunks(content, c, meta, start))
      {
        ClosedForGood(content, c, meta, order, k);
      }
    } else {
      var content := EarlyLastCorrupts(total, c, meta, order, k);
      assert !AlwaysRebuilt(total, c, meta, order);
    }
  }

  /** Enough arrivals, but not in order: some chunk is not under its own number. */
  lemma Misplaced(order: seq<nat>, n: nat) returns (k: nat)
    requires FirstToLast(order, n) && n <= |Arrivals(order)| && !InOrder(order, n)
    ensures k < n && Arrivals(order)[k] != k
  {
    ArrivalsBelow(order, n);
    hide Arrivals, NonZero;
    if |Arrivals(order)| == n {
      assert Arrivals(order) != UpFrom(0, n);
      k :| 0 <= k < n && Arrivals(order)[k] != UpFrom(0, n)[k];
    } else {
      k := n - 1;
    }
  }

  /**
   * A failing upload: three chunks of one byte, the middle one sent twice. The file has the middle byte twice and the
   * last one not at all, and yet the upload is closed and its row says that all is there.
   */
  lemma RetriedChunkCorrupts(meta: Meta)
    ensures var content: Bytes, order: seq<nat> := [1, 2, 3], [0, 1, 1, 2];
      && Numbers(order, Count(|content|, 1))
      && RunSlot(EMPTY_SLOT, Chunks(content, 1, meta, order)) ==
        Slot(None, map[], Some([1, 2, 2]), Some(Row(3, Uploaded, meta)))
  {
    var content: Bytes, order: seq<nat> := [1, 2, 3], [0, 1, 1, 2];
    assert Count(3, 1) == 3 && Fits(3, 1);
    ArrivalLaw(content, 1, meta, order);
    RetriedArrivals();
    RetriedJoined();
    hide RunSlot, Chunks, Joined, Arrivals, NonZero, Count;
    assert [0, 1, 1, 2][..3] == [0, 1, 1];
  }

  lemma RetriedArrivals()
    ensures Arrivals([0, 1, 1, 2]) == [0, 1, 1, 2]
  {
    var a: seq<nat>, b: seq<nat>, d: seq<nat> := [0], [0, 1], [0, 1, 1];
    assert NonZero(a) == [] by { assert a[..0] == []; }
    assert NonZero(b) == [1] by { assert b[..1] == a; }
    assert NonZero(d) == [1, 1] by { assert d[..2] == b; }
    assert [0, 1, 1, 2][..3] == d;
  }

  lemma RetriedJoined()
    ensures var content: Bytes := [1, 2, 3]; Count(3, 1) == 3 && Joined(content, 1, [0, 1, 1]) == [1, 2, 2]
  {
    var content: Bytes := [1, 2, 3];
    assert Count(3, 1) == 3;
    assert Piece(content, 1, 0) == [1] && Piece(content, 1, 1) == [2];
    var one: seq<nat>, two: seq<nat>, three: seq<nat> := [1], [1, 1], [0, 1, 1];
    assert Joined(content, 1, one) == [2] by { assert one[1..] == []; }
    assert Joined(content, 1, two) == [2, 2] by { assert two[1..] == one; }
    assert three[1..] == two;
  }

  /**
   * The same beside any other traffic: if the calls for one file, among whatever else the server is sent, are an
   * in-order upload, the file is its content.
   */
  lemma InterleavedReassembly(calls: seq<Call>, id: FileId, content: Bytes, c: nat, meta: Meta, order: seq<nat>)
    requires content != [] && c > 0 && InOrder(order, Count(|content|, c)) && Fits(|content|, c)
      && Numbers(order, Count(|content|, c))
    requires Only(calls, id) == Chunks(content, c, meta, order)
    ensures RunSlot(EMPTY_SLOT, Only(calls, id)).file == Some(content)
  {
    ReassemblyIff(content, c, meta, order);
  }

  /**
   * On the server itself: after any traffic whose calls for a new file `id` are an in-order upload, the file is its
   * content.
   */
  method UploadAmongOthers(m: Manager, calls: seq<Call>, ghost id: FileId, ghost content: Bytes, ghost c: nat,
    ghost meta: Meta, ghost order: seq<nat>)
    requires m.SlotOf(id) == EMPTY_SLOT && forall call <- calls :: IsChunk(call.chunk.header)
    requires content != [] && c > 0 && InOrder(order, Count(|content|, c)) && Fits(|content|, c)
      && Numbers(order, Count(|content|, c))
    requires Only(calls, id) == Chunks(content, c, meta, order)
    modifies m
    ensures m.SlotOf(id).file == Some(content)
  {
    hide RunSlot, Only, Chunks, Count, InOrder, Fits;
    UploadAll(m, calls);
    InterleavedReassembly(calls, id, content, c, meta, order);
  }
}

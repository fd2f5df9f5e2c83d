/**
 * The chunk branch of Upload: one shared table of uploads in progress, a store of numbered pieces, the merged files
 * and the database rows, each keyed by the file id.
 */
module ChunkUpload {
  import opened Options
  import opened Arith
  import opened Strconv
  import opened ContentRange

  type FileId = string
  type Bytes = seq<bv8>

  datatype Meta = Meta(contentType: string, filename: string, userPath: string)

  datatype UploadChunk = UploadChunk(last: int, total: int, chunksize: int, totalChunks: int, meta: Meta)

  datatype Status = Uploading | Uploaded

  datatype Row = Row(bytes: int, status: Status, meta: Meta)

  datatype File = File(bytes: int, status: Status, meta: Meta)

  datatype Reply = Stored(file: File) | InvalidChunkInfo | ChunkDataNotFound | MergeFailed(missing: int)

  /** Everything the upload of one file reads or writes. */
  datatype Slot = Slot(chunk: Option<UploadChunk>, pieces: map<int, Bytes>, file: Option<Bytes>, row: Option<Row>)

  const EMPTY_SLOT := Slot(None, map[], None, None)

  // ---------------------------------------------------------------- 64-bit arithmetic

  function Wrap64(n: int): int { (n - MIN_INT64) % 0x1_0000_0000_0000_0000 + MIN_INT64 }

  function ChunkSize(end: int): int { Wrap64(end + 1) }

  function TotalChunks(total: int, chunksize: int): int
    requires chunksize != 0
  {
    TruncDiv(Wrap64(Wrap64(total + chunksize) - 1), chunksize)
  }

  // ---------------------------------------------------------------- one upload, as a function of its slot

  /** Pieces i, i+1, .. n-1 in index order, up to the first missing one. */
  function Merge(pieces: map<int, Bytes>, i: int, n: int): (Bytes, Option<int>)
    decreases n - i
  {
    if i >= n then ([], None)
    else if i !in pieces then ([], Some(i))
    else
      var (rest, missing) := Merge(pieces, i + 1, n);
      (pieces[i] + rest, missing)
  }

  /** saveFileToDatabase: a record that exists keeps its metadata. */
  function SaveRow(row: Option<Row>, file: File): Row {
    if row.Some? then row.value.(bytes := file.bytes, status := file.status)
    else Row(file.bytes, file.status, file.meta)
  }

  /** The entry LoadOrStore leaves for a first chunk: the one that is there, or a new one. */
  function OpenEntry(chunk: Option<UploadChunk>, info: ChunkInfo, meta: Meta): Option<UploadChunk>
    requires info.start == 0 && 0 <= info.end <= MAX_INT64
  {
    if chunk.Some? then chunk
    else
      var size := ChunkSize(info.end);
      Some(UploadChunk(0, info.total, size, TotalChunks(info.total, size), meta))
  }

  /** A chunk with its header and data; `size` and `meta` are what makeFile derives from the request. */
  datatype Chunk = Chunk(header: string, data: Bytes, size: int, meta: Meta)

  /** The entry a chunk meets, its index, and the metadata its file gets: a first chunk's own, or the cached. */
  function Entry(slot: Slot, info: ChunkInfo, meta: Meta): Option<UploadChunk>
    requires 0 <= info.end <= MAX_INT64
  {
    if info.start == 0 then OpenEntry(slot.chunk, info, meta)
    else if slot.chunk.None? then None
    else Some(slot.chunk.value.(last := slot.chunk.value.last + 1))
  }

  function Index(info: ChunkInfo, entry: UploadChunk): int { if info.start == 0 then 0 else entry.last }

  function FileMeta(info: ChunkInfo, entry: UploadChunk, meta: Meta): Meta {
    if info.start == 0 then meta else entry.meta
  }

  /** The chunk is stored under its index; a first chunk also creates or touches the row. */
  function StoreChunk(slot: Slot, info: ChunkInfo, entry: UploadChunk, c: Chunk): Slot {
    slot.(chunk := Some(entry),
          pieces := slot.pieces[Index(info, entry) := c.data],
          row := if info.start == 0 then Some(SaveRow(slot.row, File(c.size, Uploading, c.meta))) else slot.row)
  }

  /** The last chunk: merge, forget the upload, and mark the row uploaded. */
  function Finish(slot: Slot, entry: UploadChunk, meta: Meta): (Slot, Reply) {
    var (bytes, missing) := Merge(slot.pieces, 0, entry.totalChunks);
    if missing.Some? then (slot.(file := Some(bytes)), MergeFailed(missing.value))
    else
      var file := File(entry.total, Uploaded, meta);
      (Slot(None, map[], Some(bytes), Some(SaveRow(slot.row, file))), Stored(file))
  }

  function SlotUpload(slot: Slot, c: Chunk): (Slot, Reply) {
    var parsed := GetChunkInfo(c.header);
    if parsed.None? then (slot, InvalidChunkInfo)
    else
      var info := parsed.value;
      PositionsNotNegative(c.header);
      var entry := Entry(slot, info, c.meta);
      if entry.None? then (slot, ChunkDataNotFound)
      else
        var stored := StoreChunk(slot, info, entry.value, c);
        var meta := FileMeta(info, entry.value, c.meta);
        if Complete(c.header) then Finish(stored, entry.value, meta)
        else (stored, Stored(File(Wrap64(Index(info, entry.value) * entry.value.chunksize), Uploading, meta)))
  }

  // ---------------------------------------------------------------- the code

  class Manager {
    var uploadChunks: map<FileId, UploadChunk>
    var pieces: map<FileId, map<int, Bytes>>    // storage: the chunk files of each path
    var files: map<FileId, Bytes>               // storage: the merged files
    var rows: map<FileId, Row>                  // the attachment table

    constructor ()
      ensures forall id :: SlotOf(id) == EMPTY_SLOT
    {
      uploadChunks, pieces, files, rows := map[], map[], map[], map[];
    }

    function SlotOf(id: FileId): Slot
      reads this
    {
      Slot(
        if id in uploadChunks then Some(uploadChunks[id]) else None,
        if id in pieces then pieces[id] else map[],
        if id in files then Some(files[id]) else None,
        if id in rows then Some(rows[id]) else None)
    }

    /** MergeChunks: copies the chunk files in index order; the chunk directory goes only when all were there. */
    method MergeChunks(id: FileId, totalChunks: int) returns (missing: Option<int>)
      modifies this`files, this`pieces
      ensures missing == Merge(old(SlotOf(id)).pieces, 0, totalChunks).1
      ensures files == old(files)[id := Merge(old(SlotOf(id)).pieces, 0, totalChunks).0]
      ensures pieces == if missing.None? then old(pieces) - {id} else old(pieces)
    {
      var dir := if id in pieces then pieces[id] else map[];
      var merged: Bytes := [];
      var i := 0;
      assert merged + Merge(dir, i, totalChunks).0 == Merge(dir, i, totalChunks).0;
      while i < totalChunks
        invariant 0 <= i
        invariant merged + Merge(dir, i, totalChunks).0 == Merge(dir, 0, totalChunks).0
        invariant Merge(dir, i, totalChunks).1 == Merge(dir, 0, totalChunks).1
      {
        if i !in dir {
          assert merged + [] == merged;
          files := files[id := merged];
          return Some(i);
        }
        ghost var rest := Merge(dir, i + 1, totalChunks).0;
        assert merged + (dir[i] + rest) == (merged + dir[i]) + rest;
        merged := merged + dir[i];
        i := i + 1;
      }
      assert merged + [] == merged;
      files := files[id := merged];
      pieces := pieces - {id};
      return None;
    }

    method SaveFileToDatabase(id: FileId, file: File)
      modifies this`rows
      ensures rows == old(rows)[id := SaveRow(old(SlotOf(id)).row, file)]
    {
      if id in rows {
        rows := rows[id := rows[id].(bytes := file.bytes, status := file.status)];
      } else {
        rows := rows[id := Row(file.bytes, file.status, file.meta)];
      }
    }

    /** The upload's entry: LoadOrStore for a first chunk, then Load, then the new index for any other chunk. */
    method OpenUpload(id: FileId, info: ChunkInfo, meta: Meta) returns (chunkdata: Option<UploadChunk>)
      requires 0 <= info.end <= MAX_INT64
      modifies this`uploadChunks
      ensures chunkdata == Entry(old(SlotOf(id)), info, meta)
      ensures uploadChunks == if chunkdata.Some? then old(uploadChunks)[id := chunkdata.value] else old(uploadChunks)
    {
      if info.start == 0 {
        var chunksize := ChunkSize(info.end);
        var totalChunks := TotalChunks(info.total, chunksize);
        if id !in uploadChunks {
          uploadChunks := uploadChunks[id := UploadChunk(0, info.total, chunksize, totalChunks, meta)];
        }
      }
      if id !in uploadChunks {
        return None;
      }
      if info.start != 0 {
        uploadChunks := uploadChunks[id := uploadChunks[id].(last := uploadChunks[id].last + 1)];
      }
      return Some(uploadChunks[id]);
    }

    /** The chunk goes to storage under its index; a first chunk also goes to the database. */
    method PlaceChunk(id: FileId, info: ChunkInfo, chunkdata: UploadChunk, c: Chunk)
      requires id in uploadChunks && uploadChunks[id] == chunkdata
      modifies this`pieces, this`rows
      ensures SlotOf(id) == StoreChunk(old(SlotOf(id)), info, chunkdata, c)
      ensures forall other :: other != id ==> SlotOf(other) == old(SlotOf(other))
    {
      var chunkIndex := if info.start == 0 then 0 else chunkdata.last;
      pieces := pieces[id := (if id in pieces then pieces[id] else map[])[chunkIndex := c.data]];
      if info.start == 0 {
        SaveFileToDatabase(id, File(c.size, Uploading, c.meta));
      }
    }

    /** The chunk branch of Upload. It works on its own file's slot as SlotUpload says and on no other. */
    method Upload(id: FileId, c: Chunk) returns (reply: Reply)
      requires IsChunk(c.header)
      modifies this
      ensures (SlotOf(id), reply) == SlotUpload(old(SlotOf(id)), c)
      ensures forall other :: other != id ==> SlotOf(other) == old(SlotOf(other))
    {
      var parsed := GetChunkInfo(c.header);
      if parsed.None? {
        return InvalidChunkInfo;
      }
      var info := parsed.value;
      PositionsNotNegative(c.header);
      var entry := OpenUpload(id, info, c.meta);
      if entry.None? {
        return ChunkDataNotFound;
      }
      PlaceChunk(id, info, entry.value, c);
      var meta := if info.start == 0 then c.meta else entry.value.meta;
      if Complete(c.header) {
        reply := CompleteUpload(id, entry.value, meta);
      } else {
        var index := if info.start == 0 then 0 else entry.value.last;
        reply := Stored(File(Wrap64(index * entry.value.chunksize), Uploading, meta));
      }
    }

    method CompleteUpload(id: FileId, chunkdata: UploadChunk, meta: Meta) returns (reply: Reply)
      modifies this
      ensures (SlotOf(id), reply) == Finish(old(SlotOf(id)), chunkdata, meta)
      ensures forall other :: other != id ==> SlotOf(other) == old(SlotOf(other))
    {
      var missing := MergeChunks(id, chunkdata.totalChunks);
      if missing.Some? {
        return MergeFailed(missing.value);
      }
      uploadChunks := uploadChunks - {id};
      var file := File(chunkdata.total, Uploaded, meta);
      SaveFileToDatabase(id, file);
      return Stored(file);
    }
  }
}

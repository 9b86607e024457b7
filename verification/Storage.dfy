/**
 * The storage service as the flush path sees it: the messages, the two codecs, and a server
 * that holds a content-addressed chunk store and, for the blocks of every file, position maps.
 * The server is an arbitrary function from its state and a request to a new state and a reply;
 * what is expected of it is stated as the predicate Honest.
 */
module Storage {
  import opened Bytes

  /** OutOfRange stands for Go's index panic; the other errors are values the source returns. */
  datatype Error = Rpc(code: int) | NotFound | MissingArchive | Marshalling | Chunking | OutOfRange

  datatype ChunkEntry = ChunkEntry(hash: Bytes, data: Bytes, compressed: bool, compressedLength: int)

  datatype InsertRecord = InsertRecord(hashloc: int, inserted: bool, compressedLength: int)

  datatype HashLocPair = HashLocPair(
    hash: Bytes, hashloc: int, len: int, pos: int, dup: bool, inserted: bool, nlen: int, offset: int)

  datatype SparseDataChunk = SparseDataChunk(
    fpos: int, len: int, ar: map<int, HashLocPair>, doop: int, compressedLength: int)

  datatype SparseRequest =
    | Plain(chunk: SparseDataChunk, fileHandle: int, fileLocation: int, pvolumeID: int)
    | Packed(compressedChunk: Bytes, uncompressedLen: int, fileHandle: int, fileLocation: int, pvolumeID: int)

  /** A file of the service. */
  datatype FileKey = FileKey(name: string, vol: int)

  /** The libraries: hashing, LZ4 (None is an error return) and protobuf marshalling. */
  datatype Codec = Codec(
    hash: Bytes -> Bytes,
    compress: Bytes -> Option<Bytes>,
    decompress: (Bytes, int) -> Option<Bytes>,
    marshal: SparseDataChunk -> Option<Bytes>,
    unmarshal: Bytes -> Option<SparseDataChunk>)

  ghost predicate Lossless(c: Codec) {
    && (forall x :: c.compress(x).Some? ==> c.decompress(c.compress(x).value, |x|) == Some(x))
    && (forall m :: c.marshal(m).Some? ==> c.unmarshal(c.marshal(m).value) == Some(m))
  }

  ghost predicate CollisionFree(c: Codec) {
    forall x, y :: c.hash(x) == c.hash(y) ==> x == y
  }

  /** What the server takes a chunk entry to hold. */
  function EntryContent(c: Codec, e: ChunkEntry): Option<Bytes> {
    if e.compressed then c.decompress(e.data, e.compressedLength) else Some(e.data)
  }

  function RequestContent(c: Codec, r: SparseRequest): Option<SparseDataChunk> {
    match r
    case Plain(chunk, _, _, _) => Some(chunk)
    case Packed(packed, len, _, _, _) =>
      match c.decompress(packed, len)
      case None => None
      case Some(plain) => c.unmarshal(plain)
  }

  // ----- The server -----

  datatype ServerState = ServerState(
    store: map<int, Bytes>,
    index: map<Bytes, int>,
    blocks: map<FileKey, map<int, SparseDataChunk>>)

  /** The position maps of one file, by block offset. */
  function MapsOf(s: ServerState, file: FileKey): map<int, SparseDataChunk> {
    if file in s.blocks then s.blocks[file] else map[]
  }

  /**
   * The index leads from a hash to a location that stores data of that hash, and the position maps only name stored
   * data.
   */
  ghost predicate StoreOk(c: Codec, s: ServerState) {
    && (forall h :: h in s.index ==> s.index[h] != -1 && s.index[h] in s.store && c.hash(s.store[s.index[h]]) == h)
    && (forall file, off :: off in MapsOf(s, file) ==> Readable(s.store, MapsOf(s, file)[off].ar))
  }

  ghost predicate Readable(store: map<int, Bytes>, ar: map<int, HashLocPair>) {
    forall p :: p in ar ==> ar[p].hashloc in store
  }

  /** Locations and index entries are only ever added. */
  ghost predicate Grows(s: ServerState, t: ServerState) {
    && (forall l :: l in s.store ==> l in t.store && t.store[l] == s.store[l])
    && (forall h :: h in s.index ==> h in t.index && t.index[h] == s.index[h])
  }

  function Lookup(index: map<Bytes, int>, h: Bytes): int {
    if h in index then index[h] else -1
  }

  /** The three calls; `owner` is the file that the service gave a handle of a volume out for. */
  datatype Network = Network(
    check: (ServerState, seq<Bytes>) -> (ServerState, Result<seq<int>, Error>),
    write: (ServerState, seq<ChunkEntry>) -> (ServerState, Result<seq<InsertRecord>, Error>),
    sparse: (ServerState, SparseRequest) -> (ServerState, Result<(), Error>),
    owner: (int, int) -> FileKey)

  ghost predicate HonestCheck(c: Codec, s: ServerState, hashes: seq<Bytes>, t: ServerState, reply: Result<seq<int>,
      Error>) {
    && Grows(s, t) && StoreOk(c, t) && t.blocks == s.blocks
    && (reply.Success? ==> reply.value == seq(|hashes|, i requires 0 <= i < |hashes| => Lookup(t.index, hashes[i])))
  }

  /** A record answers -1 when its chunk was not stored; otherwise it names where data of that hash is. */
  ghost predicate HonestWrite(c: Codec, s: ServerState, chunks: seq<ChunkEntry>, t: ServerState,
      reply: Result<seq<InsertRecord>, Error>) {
    && Grows(s, t) && StoreOk(c, t) && t.blocks == s.blocks
    && (reply.Success? ==>
          && |reply.value| == |chunks|
          && forall k :: 0 <= k < |chunks| && reply.value[k].hashloc != -1 ==>
               reply.value[k].hashloc == Lookup(t.index, chunks[k].hash))
  }

  /**
   * A position map that only names stored data replaces the one at its offset; after an error it may have done so or
   * not.
   */
  ghost predicate HonestSparse(c: Codec, s: ServerState, file: FileKey, sdc: SparseDataChunk, at: int, t: ServerState,
      reply: Result<(), Error>) {
    && Grows(s, t) && StoreOk(c, t)
    && (t.blocks == s.blocks[file := MapsOf(s, file)[at := sdc]] || (reply.Failure? && t.blocks == s.blocks))
  }

  ghost predicate Honest(c: Codec, net: Network) {
    && (forall s, hashes {:trigger net.check(s, hashes)} :: StoreOk(c, s) ==>
          HonestCheck(c, s, hashes, net.check(s, hashes).0, net.check(s, hashes).1))
    && (forall s, chunks {:trigger net.write(s, chunks)} ::
          StoreOk(c, s) && (forall e :: e in chunks ==>
            (EntryContent(c, e).Some? && c.hash(EntryContent(c, e).value) == e.hash)) ==>
          HonestWrite(c, s, chunks, net.write(s, chunks).0, net.write(s, chunks).1))
    && (forall s, r {:trigger net.sparse(s, r)} ::
          StoreOk(c, s) && RequestContent(c, r).Some? && Readable(s.store, RequestContent(c, r).value.ar) ==>
          HonestSparse(c, s, net.owner(r.fileHandle, r.pvolumeID), RequestContent(c, r).value, r.fileLocation,
              net.sparse(s, r).0, net.sparse(s, r).1))
  }

  /** A server that answers every call and stores every chunk it is sent. */
  ghost predicate Answers(c: Codec, net: Network) {
    && (forall s, hashes {:trigger net.check(s, hashes)} :: StoreOk(c, s) ==> net.check(s, hashes).1.Success?)
    && (forall s, chunks {:trigger net.write(s, chunks)} ::
          StoreOk(c, s) && (forall e :: e in chunks ==>
            (EntryContent(c, e).Some? && c.hash(EntryContent(c, e).value) == e.hash)) ==>
          net.write(s, chunks).1.Success? && forall r :: r in net.write(s, chunks).1.value ==> r.hashloc != -1)
    && (forall s, r {:trigger net.sparse(s, r)} ::
          StoreOk(c, s) && RequestContent(c, r).Some? && Readable(s.store, RequestContent(c, r).value.ar) ==>
          net.sparse(s, r).1.Success?)
  }

  /** The connection to the service: each call takes the server from one state to the next. */
  class Remote {
    const net: Network
    var state: ServerState

    constructor (net: Network, state: ServerState)
      ensures this.net == net && this.state == state
    {
      this.net := net;
      this.state := state;
    }

    method CheckHashes(hashes: seq<Bytes>) returns (reply: Result<seq<int>, Error>)
      modifies this
      ensures (state, reply) == net.check(old(state), hashes)
    {
      var (next, answer) := net.check(state, hashes);
      state, reply := next, answer;
    }

    method WriteChunks(chunks: seq<ChunkEntry>) returns (reply: Result<seq<InsertRecord>, Error>)
      modifies this
      ensures (state, reply) == net.write(old(state), chunks)
    {
      var (next, answer) := net.write(state, chunks);
      state, reply := next, answer;
    }

    method WriteSparseDataChunk(request: SparseRequest) returns (reply: Result<(), Error>)
      modifies this
      ensures (state, reply) == net.sparse(old(state), request)
    {
      var (next, answer) := net.sparse(state, request);
      state, reply := next, answer;
    }
  }

  // ----- Reading a block back -----

  ghost predicate Least(ar: map<int, HashLocPair>, p: int) {
    p in ar && forall q :: q in ar ==> p <= q
  }

  lemma {:induction false} HasLeast(ar: map<int, HashLocPair>)
    requires ar != map[]
    ensures exists p :: Least(ar, p)
    decreases |ar|
  {
    assert ar.Keys == {} ==> forall q :: q !in ar;
    assert (forall q :: q !in ar) ==> ar == map[];
    var q :| q in ar.Keys;
    var rest := ar - {q};
    if rest == map[] {
      assert forall x :: x in ar && x != q ==> x in rest;
      assert Least(ar, q);
    } else {
      assert rest.Keys == ar.Keys - {q};
      HasLeast(rest);
      var p :| Least(rest, p);
      assert forall x :: x in ar && x != q ==> x in rest;
      assert Least(ar, if p <= q then p else q);
    }
  }

  /** What a location holds. */
  function DataAt(store: map<int, Bytes>, loc: int): Bytes {
    if loc in store then store[loc] else []
  }

  /** The stored data of a position map's entries, in increasing position. */
  ghost function ReadPairs(store: map<int, Bytes>, ar: map<int, HashLocPair>): Bytes
    decreases |ar|
  {
    if ar == map[] then []
    else
      HasLeast(ar);
      var p :| Least(ar, p);
      assert (ar - {p}).Keys == ar.Keys - {p};
      DataAt(store, ar[p].hashloc) + ReadPairs(store, ar - {p})
  }

  /** The least position's entry comes first. */
  lemma ReadStep(store: map<int, Bytes>, ar: map<int, HashLocPair>, p: int)
    requires Least(ar, p)
    ensures |ar - {p}| < |ar|
    ensures ReadPairs(store, ar) == DataAt(store, ar[p].hashloc) + ReadPairs(store, ar - {p})
  {
    assert (ar - {p}).Keys == ar.Keys - {p};
    assert forall q :: Least(ar, q) ==> q == p;
  }

  /** A file as the server returns it: for every block written, the bytes its position map leads to. */
  ghost function Blocks(s: ServerState, file: FileKey): map<int, Bytes> {
    map off | off in MapsOf(s, file) :: ReadPairs(s.store, MapsOf(s, file)[off].ar)
  }

  /** Every other file reads the same. */
  ghost predicate OthersKept(s: ServerState, t: ServerState, file: FileKey) {
    forall other :: other != file ==> Blocks(t, other) == Blocks(s, other)
  }

  lemma {:induction false} ReadPairsStable(store: map<int, Bytes>, more: map<int, Bytes>, ar: map<int, HashLocPair>)
    requires Readable(store, ar)
    requires forall l :: l in store ==> l in more && more[l] == store[l]
    ensures ReadPairs(store, ar) == ReadPairs(more, ar)
    decreases |ar|
  {
    if ar != map[] {
      HasLeast(ar);
      var p :| Least(ar, p);
      ReadStep(store, ar, p);
      ReadStep(more, ar, p);
      hide ReadPairs;
      ReadPairsStable(store, more, ar - {p});
    }
  }

  /** A file whose position maps stay reads the same after the store has grown. */
  lemma SameMapsSameBlocks(c: Codec, s: ServerState, t: ServerState, file: FileKey)
    requires StoreOk(c, s) && Grows(s, t) && MapsOf(t, file) == MapsOf(s, file)
    ensures Blocks(t, file) == Blocks(s, file)
  {
    forall off | off in MapsOf(s, file)
      ensures ReadPairs(s.store, MapsOf(s, file)[off].ar) == ReadPairs(t.store, MapsOf(s, file)[off].ar)
    {
      ReadPairsStable(s.store, t.store, MapsOf(s, file)[off].ar);
    }
  }

  /** A store that only grows reads back every block of every file as before: chunks others add are never seen. */
  lemma GrowthKeepsBlocks(c: Codec, s: ServerState, t: ServerState)
    requires StoreOk(c, s) && Grows(s, t) && t.blocks == s.blocks
    ensures forall file :: Blocks(t, file) == Blocks(s, file)
  {
    forall file ensures Blocks(t, file) == Blocks(s, file) {
      SameMapsSameBlocks(c, s, t, file);
    }
  }

  /** A new position map changes what is read of its own file at its own offset only. */
  lemma ReplacedBlock(c: Codec, s: ServerState, t: ServerState, file: FileKey, at: int, sdc: SparseDataChunk)
    requires StoreOk(c, s) && Grows(s, t) && t.blocks == s.blocks[file := MapsOf(s, file)[at := sdc]]
    ensures Blocks(t, file) == Blocks(s, file)[at := ReadPairs(t.store, sdc.ar)]
    ensures OthersKept(s, t, file)
  {
    assert MapsOf(t, file) == MapsOf(s, file)[at := sdc];
    forall off | off in MapsOf(s, file)
      ensures ReadPairs(s.store, MapsOf(s, file)[off].ar) == ReadPairs(t.store, MapsOf(s, file)[off].ar)
    {
      ReadPairsStable(s.store, t.store, MapsOf(s, file)[off].ar);
    }
    assert Blocks(t, file) == Blocks(s, file)[at := ReadPairs(t.store, sdc.ar)];
    forall other | other != file ensures Blocks(t, other) == Blocks(s, other) {
      SameMapsSameBlocks(c, s, t, other);
    }
  }
}

/** A server that stores by content and keeps every promise of Honest: the hypotheses about the service can be met. */
module HonestServer {
  import opened Bytes
  import opened Storage

  /** A location above all those in use. */
  ghost function Above(used: set<int>): (l: int)
    ensures l >= 0 && forall x :: x in used ==> x < l
  {
    if used == {} then 0
    else
      assert (forall y :: y !in used) ==> used == {};
      var x :| x in used;
      var rest := Above(used - {x});
      assert forall y :: y in used ==> y == x || y in used - {x};
      if x < rest then rest else x + 1
  }

  ghost predicate WellFormed(c: Codec, e: ChunkEntry) {
    EntryContent(c, e).Some? && c.hash(EntryContent(c, e).value) == e.hash
  }

  /** A chunk whose hash is known is not stored again. */
  ghost function WriteOne(c: Codec, s: ServerState, e: ChunkEntry): (ServerState, InsertRecord)
    requires EntryContent(c, e).Some?
  {
    if e.hash in s.index then (s, InsertRecord(s.index[e.hash], false, |e.data|))
    else
      var loc := Above(s.store.Keys);
      (s.(store := s.store[loc := EntryContent(c, e).value], index := s.index[e.hash := loc]),
          InsertRecord(loc, true, |e.data|))
  }

  ghost function WriteAll(c: Codec, s: ServerState, chunks: seq<ChunkEntry>): (ServerState, seq<InsertRecord>)
    requires forall e :: e in chunks ==> EntryContent(c, e).Some?
  {
    if chunks == [] then (s, [])
    else
      var n := |chunks| - 1;
      var (t, recs) := WriteAll(c, s, chunks[..n]);
      var (u, rec) := WriteOne(c, t, chunks[n]);
      (u, recs + [rec])
  }

  /** One insertion keeps the store in order, and the chunk is where the record says. */
  lemma WriteOneIsHonest(c: Codec, s: ServerState, e: ChunkEntry)
    requires StoreOk(c, s) && WellFormed(c, e)
    ensures var (t, rec) := WriteOne(c, s, e);
      && Grows(s, t) && StoreOk(c, t) && t.blocks == s.blocks
      && e.hash in t.index && rec.hashloc == t.index[e.hash]
  {
    var (t, rec) := WriteOne(c, s, e);
    assert Grows(s, t);
    forall file, off | off in MapsOf(t, file) ensures Readable(t.store, MapsOf(t, file)[off].ar) {
      assert Readable(s.store, MapsOf(s, file)[off].ar);
    }
  }

  /** Every record says where the index leads for its chunk. */
  ghost predicate Recorded(t: ServerState, chunks: seq<ChunkEntry>, recs: seq<InsertRecord>) {
    |recs| == |chunks| &&
    forall k :: 0 <= k < |chunks| ==> chunks[k].hash in t.index && recs[k].hashloc == t.index[chunks[k].hash]
  }

  lemma RecordedMore(t: ServerState, u: ServerState, chunks: seq<ChunkEntry>, recs: seq<InsertRecord>, e: ChunkEntry,
      rec: InsertRecord)
    requires Recorded(t, chunks, recs) && Grows(t, u) && e.hash in u.index && rec.hashloc == u.index[e.hash]
    ensures Recorded(u, chunks + [e], recs + [rec])
  {
  }

  lemma {:induction false} WriteAllStores(c: Codec, s: ServerState, chunks: seq<ChunkEntry>)
    requires StoreOk(c, s) && (forall e :: e in chunks ==> WellFormed(c, e))
    ensures forall e :: e in chunks ==> EntryContent(c, e).Some?
    ensures var (t, recs) := WriteAll(c, s, chunks);
      Grows(s, t) && StoreOk(c, t) && t.blocks == s.blocks && Recorded(t, chunks, recs)
  {
    if chunks != [] {
      var n := |chunks| - 1;
      assert chunks == chunks[..n] + [chunks[n]];
      WriteAllStores(c, s, chunks[..n]);
      var (t, recs) := WriteAll(c, s, chunks[..n]);
      WriteOneIsHonest(c, t, chunks[n]);
      var (u, rec) := WriteOne(c, t, chunks[n]);
      hide StoreOk, WriteOne, WellFormed, Recorded;
      RecordedMore(t, u, chunks[..n], recs, chunks[n], rec);
    }
  }

  lemma WriteAllIsHonest(c: Codec, s: ServerState, chunks: seq<ChunkEntry>)
    requires StoreOk(c, s) && (forall e :: e in chunks ==> WellFormed(c, e))
    ensures forall e :: e in chunks ==> EntryContent(c, e).Some?
    ensures var (t, recs) := WriteAll(c, s, chunks); HonestWrite(c, s, chunks, t, Success(recs))
  {
    WriteAllStores(c, s, chunks);
  }

  /** The server: it answers from its index, stores what is new, and puts position maps at their offsets. */
  ghost function ServerFor(c: Codec, owner: (int, int) -> FileKey): Network {
    Network(
      (s: ServerState, hashes: seq<Bytes>) =>
        (s, Success(seq(|hashes|, i requires 0 <= i < |hashes| => Lookup(s.index, hashes[i])))),
      (s: ServerState, chunks: seq<ChunkEntry>) =>
        if forall e :: e in chunks ==> EntryContent(c, e).Some?
        then (WriteAll(c, s, chunks).0, Success(WriteAll(c, s, chunks).1))
        else (s, Failure(Rpc(1))),
      (s: ServerState, r: SparseRequest) =>
        match RequestContent(c, r)
        case Some(sdc) =>
          var file := owner(r.fileHandle, r.pvolumeID);
          (s.(blocks := s.blocks[file := MapsOf(s, file)[r.fileLocation := sdc]]), Success(()))
        case None => (s, Failure(Rpc(1))),
      owner)
  }

  lemma TheServerIsHonest(c: Codec, owner: (int, int) -> FileKey)
    ensures Honest(c, ServerFor(c, owner))
  {
    var net := ServerFor(c, owner);
    forall s, chunks {:trigger net.write(s, chunks)} | StoreOk(c, s) &&
        forall e :: e in chunks ==> EntryContent(c, e).Some? && c.hash(EntryContent(c, e).value) == e.hash
      ensures HonestWrite(c, s, chunks, net.write(s, chunks).0, net.write(s, chunks).1)
    {
      WriteAllIsHonest(c, s, chunks);
    }
    forall s, r {:trigger net.sparse(s, r)} | StoreOk(c, s) && RequestContent(c, r).Some? &&
        Readable(s.store, RequestContent(c, r).value.ar)
      ensures HonestSparse(c, s, owner(r.fileHandle, r.pvolumeID), RequestContent(c, r).value, r.fileLocation,
          net.sparse(s, r).0, net.sparse(s, r).1)
    {
      MapIsKept(c, s, owner(r.fileHandle, r.pvolumeID), RequestContent(c, r).value, r.fileLocation);
    }
  }

  lemma TheServerAnswers(c: Codec, owner: (int, int) -> FileKey)
    ensures Answers(c, ServerFor(c, owner))
  {
    var net := ServerFor(c, owner);
    forall s, chunks {:trigger net.write(s, chunks)} | StoreOk(c, s) &&
        forall e :: e in chunks ==> EntryContent(c, e).Some? && c.hash(EntryContent(c, e).value) == e.hash
      ensures net.write(s, chunks).1.Success? && forall r :: r in net.write(s, chunks).1.value ==> r.hashloc != -1
    {
      WriteAllStores(c, s, chunks);
    }
  }

  lemma MapIsKept(c: Codec, s: ServerState, file: FileKey, sdc: SparseDataChunk, at: int)
    requires StoreOk(c, s) && Readable(s.store, sdc.ar)
    ensures StoreOk(c, s.(blocks := s.blocks[file := MapsOf(s, file)[at := sdc]]))
  {
    var t := s.(blocks := s.blocks[file := MapsOf(s, file)[at := sdc]]);
    forall other, off | off in MapsOf(t, other) ensures Readable(t.store, MapsOf(t, other)[off].ar) {
      assert other != file || off != at ==> off in MapsOf(s, other);
    }
  }

  // ----- A codec -----

  function OfBool(b: bool): int { if b then 1 else 0 }

  ghost function OfPair(p: HashLocPair): seq<int> {
    [p.hashloc, p.len, p.pos, OfBool(p.dup), OfBool(p.inserted), p.nlen, p.offset, |p.hash|]
    + seq(|p.hash|, i requires 0 <= i < |p.hash| => p.hash[i] as int)
  }

  /** A position map as numbers, its entries in increasing position. */
  ghost function OfMap(ar: map<int, HashLocPair>): seq<int>
    decreases |ar|
  {
    if ar == map[] then []
    else
      HasLeast(ar);
      var p :| Least(ar, p);
      assert (ar - {p}).Keys == ar.Keys - {p};
      [p] + OfPair(ar[p]) + OfMap(ar - {p})
  }

  ghost function OfChunk(m: SparseDataChunk): seq<int> {
    [m.fpos, m.len, m.doop, m.compressedLength] + OfMap(m.ar)
  }

  lemma PairsDiffer(p: HashLocPair, q: HashLocPair, a: seq<int>, b: seq<int>)
    requires OfPair(p) + a == OfPair(q) + b
    ensures p == q && a == b
  {
    var x := OfPair(p) + a;
    var y := OfPair(q) + b;
    assert forall i :: 0 <= i < 8 ==> OfPair(p)[i] == x[i] == y[i] == OfPair(q)[i];
    assert OfPair(p)[7] == |p.hash| && OfPair(q)[7] == |q.hash|;
    forall i | 0 <= i < |p.hash| ensures p.hash[i] == q.hash[i] {
      assert OfPair(p)[8 + i] == x[8 + i] == y[8 + i] == OfPair(q)[8 + i];
    }
    assert p.hash == q.hash;
    assert OfPair(p)[..7] == OfPair(q)[..7];
    assert OfPair(p)[0] == p.hashloc && OfPair(p)[1] == p.len && OfPair(p)[2] == p.pos && OfPair(p)[5] == p.nlen;
    assert OfPair(p)[3] == OfBool(p.dup) && OfPair(p)[4] == OfBool(p.inserted) && OfPair(p)[6] == p.offset;
    assert x[|OfPair(p)|..] == a && y[|OfPair(q)|..] == b;
  }

  lemma FirstPair(ar: map<int, HashLocPair>, p: int)
    requires Least(ar, p)
    ensures |ar - {p}| < |ar|
    ensures OfMap(ar) == [p] + (OfPair(ar[p]) + OfMap(ar - {p}))
  {
    assert (ar - {p}).Keys == ar.Keys - {p};
    assert forall q :: Least(ar, q) ==> q == p;
    assert [p] + OfPair(ar[p]) + OfMap(ar - {p}) == [p] + (OfPair(ar[p]) + OfMap(ar - {p}));
  }

  lemma {:induction false} MapsDiffer(a: map<int, HashLocPair>, b: map<int, HashLocPair>)
    requires OfMap(a) == OfMap(b)
    ensures a == b
    decreases |a|
  {
    if a != map[] && b != map[] {
      HasLeast(a);
      HasLeast(b);
      var p :| Least(a, p);
      var q :| Least(b, q);
      FirstPair(a, p);
      FirstPair(b, q);
      hide OfMap, OfPair;
      assert OfMap(a)[0] == p && OfMap(b)[0] == q;
      assert OfMap(a)[1..] == OfPair(a[p]) + OfMap(a - {p}) && OfMap(b)[1..] == OfPair(b[q]) + OfMap(b - {q});
      PairsDiffer(a[p], b[q], OfMap(a - {p}), OfMap(b - {q}));
      MapsDiffer(a - {p}, b - {q});
      assert a == (a - {p})[p := a[p]] && b == (b - {q})[q := b[q]];
    }
  }

  /** A number in unary: its sign, as many ones as it says, and a zero. */
  ghost function Unary(n: int): Bytes
    decreases if n < 0 then -n else n
  {
    if n == 0 then [0] else [if n < 0 then 2 else 1] + Unary(if n < 0 then n + 1 else n - 1)
  }

  ghost function OfInts(xs: seq<int>): Bytes {
    if xs == [] then [] else Unary(xs[0]) + OfInts(xs[1..])
  }

  lemma {:induction false} UnaryDiffer(m: int, n: int, a: Bytes, b: Bytes)
    requires Unary(m) + a == Unary(n) + b
    ensures m == n && a == b
    decreases if m < 0 then -m else m
  {
    var x := Unary(m) + a;
    var y := Unary(n) + b;
    assert x[0] == Unary(m)[0] && y[0] == Unary(n)[0];
    if m == 0 {
      assert x[1..] == a && y[1..] == b;
    } else {
      var m1 := if m < 0 then m + 1 else m - 1;
      var n1 := if n < 0 then n + 1 else n - 1;
      assert x[1..] == Unary(m1) + a && y[1..] == Unary(n1) + b;
      UnaryDiffer(m1, n1, a, b);
    }
  }

  lemma {:induction false} IntsDiffer(a: seq<int>, b: seq<int>)
    requires OfInts(a) == OfInts(b)
    ensures a == b
  {
    if a != [] && b != [] {
      UnaryDiffer(a[0], b[0], OfInts(a[1..]), OfInts(b[1..]));
      IntsDiffer(a[1..], b[1..]);
      assert a == [a[0]] + a[1..] && b == [b[0]] + b[1..];
    }
  }

  ghost function Marshal(m: SparseDataChunk): Bytes {
    OfInts(OfChunk(m))
  }

  lemma MarshalDiffers(m: SparseDataChunk, n: SparseDataChunk)
    requires Marshal(m) == Marshal(n)
    ensures m == n
  {
    IntsDiffer(OfChunk(m), OfChunk(n));
    assert forall i :: 0 <= i < 4 ==> OfChunk(m)[i] == OfChunk(n)[i];
    assert OfChunk(m)[0] == m.fpos && OfChunk(m)[1] == m.len && OfChunk(m)[2] == m.doop;
    assert OfChunk(m)[4..] == OfMap(m.ar) && OfChunk(n)[4..] == OfMap(n.ar);
    MapsDiffer(m.ar, n.ar);
  }

  ghost function Unmarshal(x: Bytes): Option<SparseDataChunk> {
    if exists m :: Marshal(m) == x then
      var m :| Marshal(m) == x;
      Some(m)
    else None
  }

  /** Codec, server and store: all that a file is opened with can be had at once, with compression on or off. */
  lemma HypothesesCanBeMet(owner: (int, int) -> FileKey) returns (c: Codec, net: Network, s: ServerState)
    ensures Lossless(c) && CollisionFree(c) && Honest(c, net) && StoreOk(c, s) && net.owner == owner
    ensures Answers(c, net)
    ensures (forall x :: c.compress(x).Some?) && (forall m :: c.marshal(m).Some?)
  {
    c := Codec(x => x, x => Some(x), (x, n) => Some(x), m => Some(Marshal(m)), x => Unmarshal(x));
    forall m ensures Unmarshal(Marshal(m)) == Some(m) {
      var n := Unmarshal(Marshal(m)).value;
      MarshalDiffers(m, n);
    }
    net := ServerFor(c, owner);
    s := ServerState(map[], map[], map[]);
    TheServerIsHonest(c, owner);
    TheServerAnswers(c, owner);
  }
}

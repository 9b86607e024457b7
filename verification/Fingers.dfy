/** What the two batch exchanges with the server do to the fingers of a buffer, as functions of their values. */
module Fingers {
  import opened Bytes
  import opened Storage

  datatype FingerValue = FingerValue(
    hash: Bytes, data: Bytes, start: int, len: int, dedup: bool, archive: int, compressedLength: int)

  function HashesOf(fs: seq<FingerValue>): seq<Bytes> {
    seq(|fs|, i requires 0 <= i < |fs| => fs[i].hash)
  }

  // ----- CheckHashes -----

  /** The last of the first n fingers with hash h, or -1. */
  function LastWith(fs: seq<FingerValue>, n: nat, h: Bytes): (i: int)
    requires n <= |fs|
    ensures -1 <= i < n
    ensures i >= 0 ==> fs[i].hash == h
    ensures forall j :: i < j < n ==> fs[j].hash != h
  {
    if n == 0 then -1 else if fs[n - 1].hash == h then n - 1 else LastWith(fs, n - 1, h)
  }

  /** Finger s's location after the reply's first n entries were handled. */
  function ArchiveAfter(fs: seq<FingerValue>, locs: seq<int>, n: nat, s: nat): int
    requires n <= |fs| && n <= |locs| && s < |fs|
  {
    var i := LastWith(fs, n, fs[s].hash);
    if i < 0 then fs[s].archive else locs[i]
  }

  /**
   * Its flag: entry s is tested after it was written and, when its hash occurred before, while the earlier entry is
   * still there.
   */
  function DedupAfter(fs: seq<FingerValue>, locs: seq<int>, n: nat, s: nat): bool
    requires n <= |fs| && n <= |locs| && s < |fs|
  {
    fs[s].dedup || (s < n && (locs[s] != -1 || (var p := LastWith(fs, s, fs[s].hash); p >= 0 && locs[p] != -1)))
  }

  /** The fingers after the reply's first n entries were handled. */
  function LocatedBy(fs: seq<FingerValue>, locs: seq<int>, n: nat): (r: seq<FingerValue>)
    requires n <= |fs| && n <= |locs|
    ensures |r| == |fs|
  {
    seq(|fs|, s requires 0 <= s < |fs| =>
      fs[s].(archive := ArchiveAfter(fs, locs, n, s), dedup := DedupAfter(fs, locs, n, s)))
  }

  function Located(fs: seq<FingerValue>, locs: seq<int>): (r: seq<FingerValue>)
    ensures |r| == |fs|
  {
    LocatedBy(fs, locs, if |locs| <= |fs| then |locs| else |fs|)
  }

  ghost predicate Consistent(fs: seq<FingerValue>, locs: seq<int>)
    requires |locs| == |fs|
  {
    forall i, j :: 0 <= i < |fs| && 0 <= j < |fs| && fs[i].hash == fs[j].hash ==> locs[i] == locs[j]
  }

  /** The grouped loop gives each finger its own entry of the reply exactly when equal hashes got equal locations. */
  lemma LookupIsPerFingerIffConsistent(fs: seq<FingerValue>, locs: seq<int>)
    requires |locs| == |fs|
    ensures (forall s :: 0 <= s < |fs| ==> Located(fs, locs)[s].archive == locs[s]) <==> Consistent(fs, locs)
  {
    if forall s :: 0 <= s < |fs| ==> Located(fs, locs)[s].archive == locs[s] {
      forall i, j | 0 <= i < |fs| && 0 <= j < |fs| && fs[i].hash == fs[j].hash ensures locs[i] == locs[j] {
        assert Located(fs, locs)[i].archive == locs[LastWith(fs, |fs|, fs[i].hash)] == Located(fs, locs)[j].archive;
      }
    }
  }

  /** Under consistent locations a fresh finger is flagged a duplicate exactly when its location is known. */
  lemma FlagMeansKnown(fs: seq<FingerValue>, locs: seq<int>, s: nat)
    requires |locs| == |fs| && s < |fs| && Consistent(fs, locs) && !fs[s].dedup
    ensures Located(fs, locs)[s] == fs[s].(archive := locs[s], dedup := locs[s] != -1)
  {
    LookupIsPerFingerIffConsistent(fs, locs);
    var p := LastWith(fs, s, fs[s].hash);
    assert p >= 0 ==> locs[p] == locs[s];
  }

  /**
   * Two fingers of one hash, the first found at `loc` and the second not: both end without a location, flagged as
   * duplicates.
   */
  lemma InconsistentReply(h: Bytes, x: Bytes, loc: int)
    requires loc != -1
    ensures var f := FingerValue(h, x, 0, |x|, false, 0, 0);
            var r := Located([f, f], [loc, -1]);
            r[0].archive == -1 && r[0].dedup && r[1].archive == -1 && r[1].dedup
  {
    var f := FingerValue(h, x, 0, |x|, false, 0, 0);
    assert LastWith([f, f], 2, h) == 1;
    assert LastWith([f, f], 1, h) == 0;
  }

  // ----- WriteChunks -----

  /** hl: the indices of the fingers among the first n that are not flagged, in order. */
  function Unflagged(fs: seq<FingerValue>, n: nat): (hl: seq<nat>)
    requires n <= |fs|
    ensures |hl| <= n
    ensures forall k :: 0 <= k < |hl| ==> hl[k] < n && !fs[hl[k]].dedup
    ensures forall j, k :: 0 <= j < k < |hl| ==> hl[j] < hl[k]
  {
    if n == 0 then [] else Unflagged(fs, n - 1) + if fs[n - 1].dedup then [] else [n - 1]
  }

  /** Unflagged finger i is the Rank(fs, i)-th entry of hl. */
  function Rank(fs: seq<FingerValue>, i: nat): nat
    requires i <= |fs|
  {
    |Unflagged(fs, i)|
  }

  lemma {:induction false} RankOf(fs: seq<FingerValue>, i: nat, n: nat)
    requires i < n <= |fs| && !fs[i].dedup
    ensures Rank(fs, i) < |Unflagged(fs, n)| && Unflagged(fs, n)[Rank(fs, i)] == i
    decreases n
  {
    if i < n - 1 { RankOf(fs, i, n - 1); }
  }

  lemma RankAt(fs: seq<FingerValue>, k: nat)
    requires k < |Unflagged(fs, |fs|)|
    ensures Rank(fs, Unflagged(fs, |fs|)[k]) == k
  {
    var hl := Unflagged(fs, |fs|);
    RankOf(fs, hl[k], |fs|);
    var r := Rank(fs, hl[k]);
    assert hl[r] == hl[k];
  }

  /** The entry sent for one finger: compressed only when that was asked for, worked, and did not make it longer. */
  function EntryOf(c: Codec, compress: bool, f: FingerValue): ChunkEntry {
    if compress && |f.data| > 10 then
      match c.compress(f.data)
      case Some(buf) =>
        if |buf| > |f.data| then ChunkEntry(f.hash, f.data, false, 0) else ChunkEntry(f.hash, buf, true, |f.data|)
      case None => ChunkEntry(f.hash, f.data, false, 0)
    else ChunkEntry(f.hash, f.data, false, 0)
  }

  function EntriesOf(c: Codec, compress: bool, fs: seq<FingerValue>): (es: seq<ChunkEntry>)
    ensures |es| == |Unflagged(fs, |fs|)|
  {
    var hl := Unflagged(fs, |fs|);
    seq(|hl|, k requires 0 <= k < |hl| => EntryOf(c, compress, fs[hl[k]]))
  }

  /**
   * Each entry holds its finger's hash and exactly its data, so what a batch stores does not depend on the setting.
   */
  lemma CompressionKeepsContent(c: Codec, compress: bool, fs: seq<FingerValue>, k: nat)
    requires Lossless(c) && k < |Unflagged(fs, |fs|)|
    ensures var e := EntriesOf(c, compress, fs)[k];
            var f := fs[Unflagged(fs, |fs|)[k]];
            e.hash == f.hash && EntryContent(c, e) == Some(f.data)
    ensures EntryContent(c, EntriesOf(c, compress, fs)[k]) == EntryContent(c, EntriesOf(c, !compress, fs)[k])
  {
  }

  /** A chunk is sent compressed exactly when that was asked for and does not make it longer. */
  lemma CompressedIff(c: Codec, compress: bool, fs: seq<FingerValue>, k: nat)
    requires k < |Unflagged(fs, |fs|)|
    ensures var e := EntriesOf(c, compress, fs)[k]; var data := fs[Unflagged(fs, |fs|)[k]].data;
      && |e.data| <= |data|
      && (e.compressed <==>
            compress && |data| > 10 && c.compress(data).Some? && |c.compress(data).value| <= |data|)
      && (e.compressed ==> c.compress(data) == Some(e.data) && e.compressedLength == |data|)
      && (!e.compressed ==> e.data == data)
  {
  }

  function Recorded(f: FingerValue, r: InsertRecord): FingerValue {
    f.(archive := r.hashloc, dedup := !r.inserted, compressedLength := r.compressedLength)
  }

  /**
   * The fingers after the reply's first n records were handled: record k goes to finger hl[k], all others keep what
   * they have.
   */
  function Stored(fs: seq<FingerValue>, recs: seq<InsertRecord>, n: nat): (r: seq<FingerValue>)
    requires n <= |recs|
    ensures |r| == |fs|
  {
    seq(|fs|, i requires 0 <= i < |fs| =>
      if !fs[i].dedup && Rank(fs, i) < n then Recorded(fs[i], recs[Rank(fs, i)]) else fs[i])
  }

  ghost predicate Missing(fs: seq<FingerValue>, recs: seq<InsertRecord>, k: nat)
    requires k < |recs| && k < |Unflagged(fs, |fs|)|
  {
    recs[k].hashloc == -1 && |fs[Unflagged(fs, |fs|)[k]].data| > 0
  }

  ghost predicate NoneMissing(fs: seq<FingerValue>, recs: seq<InsertRecord>, n: nat) {
    n <= |recs| && n <= |Unflagged(fs, |fs|)| && forall k :: 0 <= k < n ==> !Missing(fs, recs, k)
  }

  /**
   * Record k lands on the finger whose data was chunk k: its location is the record's, it is a duplicate exactly if
   * the server did not insert it, and its compressed length is the record's.  Flagged fingers are untouched.
   */
  lemma RecordsAlign(c: Codec, compress: bool, fs: seq<FingerValue>, recs: seq<InsertRecord>)
    requires Lossless(c) && |recs| == |EntriesOf(c, compress, fs)|
    ensures forall i :: 0 <= i < |fs| && fs[i].dedup ==> Stored(fs, recs, |recs|)[i] == fs[i]
    ensures forall i :: 0 <= i < |fs| && !fs[i].dedup ==>
              && Rank(fs, i) < |recs|
              && EntryContent(c, EntriesOf(c, compress, fs)[Rank(fs, i)]) == Some(fs[i].data)
              && var g, rec := Stored(fs, recs, |recs|)[i], recs[Rank(fs, i)];
                && g.archive == rec.hashloc && (g.dedup <==> !rec.inserted)
                && g.compressedLength == rec.compressedLength
                && g.data == fs[i].data && g.hash == fs[i].hash && g.start == fs[i].start && g.len == fs[i].len
  {
    forall i | 0 <= i < |fs| && !fs[i].dedup
      ensures Rank(fs, i) < |recs| && EntryContent(c, EntriesOf(c, compress, fs)[Rank(fs, i)]) == Some(fs[i].data)
    {
      RankOf(fs, i, |fs|);
      CompressionKeepsContent(c, compress, fs, Rank(fs, i));
    }
  }

  // ----- The position map -----

  function PairOf(f: FingerValue): HashLocPair {
    HashLocPair(f.hash, f.archive, f.len, f.start, f.dedup, !f.dedup, f.len, 0)
  }

  /**
   * The map built from the first n fingers, keyed by their starts; a later finger replaces an earlier one of the same
   * start.
   */
  function PairsOf(fs: seq<FingerValue>, n: nat): map<int, HashLocPair>
    requires n <= |fs|
  {
    if n == 0 then map[] else PairsOf(fs, n - 1)[fs[n - 1].start := PairOf(fs[n - 1])]
  }

  /** The duplicate bytes among the first n fingers, summed in int32. */
  function DoopOf(fs: seq<FingerValue>, n: nat): int
    requires n <= |fs|
  {
    if n == 0 then 0
    else if fs[n - 1].dedup then Int32(DoopOf(fs, n - 1) + Int32(fs[n - 1].len))
    else DoopOf(fs, n - 1)
  }

  function CompressedSum(fs: seq<FingerValue>, n: nat): int
    requires n <= |fs|
  {
    if n == 0 then 0 else Int32(CompressedSum(fs, n - 1) + fs[n - 1].compressedLength)
  }

  function SparseOf(fs: seq<FingerValue>, at: int, length: int): SparseDataChunk {
    SparseDataChunk(at, length, PairsOf(fs, |fs|), DoopOf(fs, |fs|), CompressedSum(fs, |fs|))
  }

  /** The request that carries a position map: packed when compression is on and works, plain otherwise. */
  function RequestOf(c: Codec, compress: bool, sdc: SparseDataChunk, fileHandle: int, at: int,
      pvolumeID: int): Result<SparseRequest, Error>
  {
    if !compress then Success(Plain(sdc, fileHandle, at, pvolumeID))
    else
      match c.marshal(sdc)
      case None => Failure(Marshalling)
      case Some(out) =>
        match c.compress(out)
        case None => Success(Plain(sdc, fileHandle, at, pvolumeID))
        case Some(packed) => Success(Packed(packed, |out|, fileHandle, at, pvolumeID))
  }

  /** However it is sent, the server decodes the position map that was built. */
  lemma RequestKeepsMap(c: Codec, compress: bool, sdc: SparseDataChunk, fileHandle: int, at: int, pvolumeID: int)
    requires Lossless(c)
    ensures var r := RequestOf(c, compress, sdc, fileHandle, at, pvolumeID);
            r.Success? ==>
              && RequestContent(c, r.value) == Some(sdc) && r.value.fileLocation == at
              && r.value.fileHandle == fileHandle && r.value.pvolumeID == pvolumeID
  {
  }

  /** It is packed exactly when compression is on and works; only a map that cannot be marshalled is not sent. */
  lemma PackedIff(c: Codec, compress: bool, sdc: SparseDataChunk, fileHandle: int, at: int, pvolumeID: int)
    ensures var r := RequestOf(c, compress, sdc, fileHandle, at, pvolumeID);
      && (r.Failure? <==> compress && c.marshal(sdc).None?)
      && (r.Success? ==> (r.value.Packed? <==> compress && c.compress(c.marshal(sdc).value).Some?))
      && (r.Success? && r.value.Packed? ==>
            c.compress(c.marshal(sdc).value) == Some(r.value.compressedChunk)
            && r.value.uncompressedLen == |c.marshal(sdc).value|)
  {
  }

  // ----- Tiling -----

  /** The fingers lie end to end over `data`, none of them empty. */
  ghost predicate Tile(fs: seq<FingerValue>, data: Bytes) {
    if fs == [] then data == []
    else
      var f := fs[|fs| - 1];
      && f.len == |f.data| > 0 && f.len <= |data|
      && f.start == |data| - f.len
      && f.data == data[f.start..]
      && Tile(fs[..|fs| - 1], data[..f.start])
  }

  function LengthSum(fs: seq<FingerValue>, n: nat, dup: bool): int
    requires n <= |fs|
  {
    if n == 0 then 0 else LengthSum(fs, n - 1, dup) + if fs[n - 1].dedup == dup then fs[n - 1].len else 0
  }

  lemma {:induction false} PairsOfPrefix(fs: seq<FingerValue>, n: nat, m: nat)
    requires n <= m <= |fs|
    ensures PairsOf(fs[..m], n) == PairsOf(fs, n)
    ensures DoopOf(fs[..m], n) == DoopOf(fs, n)
    ensures forall dup :: LengthSum(fs[..m], n, dup) == LengthSum(fs, n, dup)
  {
    if n > 0 { PairsOfPrefix(fs, n - 1, m); }
  }

  /**
   * The fingers partition the buffer: the first starts at 0, each starts where the one before it ends, and
   * the last one ends the buffer.
   */
  lemma {:induction false} StartsAscend(fs: seq<FingerValue>, data: Bytes)
    requires Tile(fs, data)
    ensures fs == [] <==> data == []
    ensures fs != [] ==> fs[0].start == 0 && fs[|fs| - 1].start + fs[|fs| - 1].len == |data|
    ensures forall i :: 0 <= i < |fs| - 1 ==> fs[i].start + fs[i].len == fs[i + 1].start
    ensures forall i, j :: 0 <= i < j < |fs| ==> 0 <= fs[i].start < fs[i].start + fs[i].len <= fs[j].start < |data|
    ensures forall i :: 0 <= i < |fs| ==> 0 <= fs[i].start < fs[i].start + fs[i].len <= |data|
    decreases |fs|
  {
    if fs != [] {
      var n := |fs| - 1;
      StartsAscend(fs[..n], data[..fs[n].start]);
      assert forall i :: 0 <= i < n ==> fs[i] == fs[..n][i];
    }
  }

  /** Each finger holds the buffer's bytes from its start on. */
  lemma {:induction false} FingerHolds(fs: seq<FingerValue>, data: Bytes, i: nat)
    requires Tile(fs, data) && i < |fs|
    ensures 0 <= fs[i].start <= fs[i].start + fs[i].len <= |data|
    ensures fs[i].data == data[fs[i].start..fs[i].start + fs[i].len]
    decreases |fs|
  {
    var n := |fs| - 1;
    if i == n {
      assert data[fs[n].start..] == data[fs[n].start..fs[n].start + fs[n].len];
    } else {
      var front := data[..fs[n].start];
      FingerHolds(fs[..n], front, i);
      assert fs[i] == fs[..n][i];
      assert front[fs[i].start..fs[i].start + fs[i].len] == data[fs[i].start..fs[i].start + fs[i].len];
    }
  }

  /** The lengths, of duplicates and of inserted fingers together, sum to the length of the data. */
  lemma {:induction false} LengthsSum(fs: seq<FingerValue>, data: Bytes)
    requires Tile(fs, data)
    ensures LengthSum(fs, |fs|, true) + LengthSum(fs, |fs|, false) == |data|
    ensures LengthSum(fs, |fs|, true) >= 0 && LengthSum(fs, |fs|, false) >= 0
    decreases |fs|
  {
    if fs != [] {
      var n := |fs| - 1;
      LengthsSum(fs[..n], data[..fs[n].start]);
      PairsOfPrefix(fs, n, n);
    }
  }

  /** The starts are distinct, so every finger has its own entry in the map. */
  lemma {:induction false} EntriesTile(fs: seq<FingerValue>, data: Bytes)
    requires Tile(fs, data)
    ensures |PairsOf(fs, |fs|)| == |fs|
    ensures forall p :: p in PairsOf(fs, |fs|) ==> 0 <= p < |data|
    ensures forall i :: 0 <= i < |fs| ==>
      fs[i].start in PairsOf(fs, |fs|) && PairsOf(fs, |fs|)[fs[i].start] == PairOf(fs[i])
    decreases |fs|
  {
    if fs != [] {
      var n := |fs| - 1;
      var f := fs[n];
      var rest := fs[..n];
      EntriesTile(rest, data[..f.start]);
      StartsAscend(fs, data);
      PairsOfPrefix(fs, n, n);
      assert PairsOf(rest, |rest|) == PairsOf(fs, n);
      assert forall i :: 0 <= i < n ==> fs[i] == rest[i];
      hide Tile, PairOf;
      assert f.start !in PairsOf(fs, n);
    }
  }

  /** The int32 sum of duplicate bytes is the true sum, and with the inserted bytes it makes up the whole length. */
  lemma {:induction false} DoopIsExact(fs: seq<FingerValue>, data: Bytes)
    requires Tile(fs, data) && |data| < TWO_TO_THE_31
    ensures DoopOf(fs, |fs|) == LengthSum(fs, |fs|, true)
    ensures DoopOf(fs, |fs|) + LengthSum(fs, |fs|, false) == |data|
    decreases |fs|
  {
    LengthsSum(fs, data);
    if fs != [] {
      var n := |fs| - 1;
      var rest := fs[..n];
      DoopIsExact(rest, data[..fs[n].start]);
      PairsOfPrefix(fs, n, n);
    }
  }

  // ----- What the map counts -----

  /** The Len of the entries below position n that say they are duplicates. */
  function DupBytes(ar: map<int, HashLocPair>, n: nat): int {
    if n == 0 then 0 else DupBytes(ar, n - 1) + if n - 1 in ar && ar[n - 1].dup then ar[n - 1].len else 0
  }

  /** And of those that say they are inserted. */
  function InsertedBytes(ar: map<int, HashLocPair>, n: nat): int {
    if n == 0 then 0 else InsertedBytes(ar, n - 1) + if n - 1 in ar && ar[n - 1].inserted then ar[n - 1].len else 0
  }

  lemma {:induction false} SameBelow(a: map<int, HashLocPair>, b: map<int, HashLocPair>, n: nat)
    requires forall p :: 0 <= p < n ==> (p in a <==> p in b) && (p in a && p in b ==> a[p] == b[p])
    ensures DupBytes(a, n) == DupBytes(b, n) && InsertedBytes(a, n) == InsertedBytes(b, n)
  {
    if n > 0 { SameBelow(a, b, n - 1); }
  }

  lemma {:induction false} NothingBetween(ar: map<int, HashLocPair>, m: nat, n: nat)
    requires m <= n && forall p :: m <= p < n ==> p !in ar
    ensures DupBytes(ar, n) == DupBytes(ar, m) && InsertedBytes(ar, n) == InsertedBytes(ar, m)
  {
    if m < n { NothingBetween(ar, m, n - 1); }
  }

  /** A finger's entry says that it is a duplicate exactly if the finger is flagged. */
  lemma {:induction false} EntriesCount(fs: seq<FingerValue>, data: Bytes)
    requires Tile(fs, data)
    ensures forall i :: 0 <= i < |fs| ==>
      var p := fs[i].start; var ar := PairsOf(fs, |fs|);
      p in ar && (ar[p].dup <==> fs[i].dedup) && (ar[p].inserted <==> !fs[i].dedup)
    ensures DupBytes(PairsOf(fs, |fs|), |data|) == LengthSum(fs, |fs|, true)
    ensures InsertedBytes(PairsOf(fs, |fs|), |data|) == LengthSum(fs, |fs|, false)
    decreases |fs|
  {
    EntriesTile(fs, data);
    if fs != [] {
      var n := |fs| - 1;
      EntriesCount(fs[..n], data[..fs[n].start]);
      EntriesTile(fs[..n], data[..fs[n].start]);
      PairsOfPrefix(fs, n, n);
      CountLast(PairsOf(fs, n), fs[n].start, PairOf(fs[n]), |data|);
    }
  }

  /** An entry behind all others adds its length to one of the sums. */
  lemma CountLast(ar: map<int, HashLocPair>, p: nat, pair: HashLocPair, n: nat)
    requires p < n && forall q :: q in ar ==> q < p
    ensures DupBytes(ar[p := pair], n) == DupBytes(ar, p) + if pair.dup then pair.len else 0
    ensures InsertedBytes(ar[p := pair], n) == InsertedBytes(ar, p) + if pair.inserted then pair.len else 0
  {
    var all := ar[p := pair];
    SameBelow(ar, all, p);
    NothingBetween(all, p + 1, n);
  }

  /**
   * What the map that is sent says of the whole buffer: Doop is the Len of its Dup entries, the Len of its
   * Inserted entries is the rest of the buffer, and it names the place it is sent for.
   */
  lemma MapCounts(c: Codec, compress: bool, fs: seq<FingerValue>, data: Bytes, fileHandle: int, at: int, length: int,
      pvolumeID: int)
    requires Lossless(c) && Tile(fs, data) && |data| < TWO_TO_THE_31
    ensures var r := RequestOf(c, compress, SparseOf(fs, at, length), fileHandle, at, pvolumeID);
      r.Success? ==>
        && RequestContent(c, r.value).Some?
        && var sdc := RequestContent(c, r.value).value;
        && sdc.fpos == r.value.fileLocation && sdc.len == length
        && DupBytes(sdc.ar, |data|) == sdc.doop && InsertedBytes(sdc.ar, |data|) == |data| - sdc.doop
        && forall i :: 0 <= i < |fs| ==>
             var p := fs[i].start; p in sdc.ar && sdc.ar[p].dup == fs[i].dedup && sdc.ar[p].inserted == !fs[i].dedup
  {
    RequestKeepsMap(c, compress, SparseOf(fs, at, length), fileHandle, at, pvolumeID);
    EntriesCount(fs, data);
    DoopIsExact(fs, data);
    hide Lossless, RequestOf, RequestContent, Tile;
  }

  /** After both exchanges a finger is flagged exactly if it was known or its record says it was not inserted. */
  lemma FlaggedIff(c: Codec, compress: bool, fs: seq<FingerValue>, locs: seq<int>, recs: seq<InsertRecord>, i: nat)
    requires Lossless(c) && |locs| == |fs| && Consistent(fs, locs) && i < |fs| && !fs[i].dedup
    requires |recs| == |EntriesOf(c, compress, Located(fs, locs))|
    ensures var gs := Located(fs, locs);
      && (locs[i] == -1 ==> Rank(gs, i) < |recs|)
      && (Stored(gs, recs, |recs|)[i].dedup <==> locs[i] != -1 || !recs[Rank(gs, i)].inserted)
  {
    FlagMeansKnown(fs, locs, i);
    RecordsAlign(c, compress, Located(fs, locs), recs);
    hide Located, Stored, EntriesOf, EntryContent, Lossless;
  }

  /** The compressed lengths that the first k records report. */
  function CompressedIn(recs: seq<InsertRecord>, k: nat): int
    requires k <= |recs|
  {
    if k == 0 then 0 else CompressedIn(recs, k - 1) + recs[k - 1].compressedLength
  }

  lemma AddsInInt32(a: int, b: int)
    ensures Int32(Int32(a) + b) == Int32(a + b)
  {
    var m := 2 * TWO_TO_THE_31;
    var x := a + TWO_TO_THE_31;
    assert x == m * (x / m) + x % m;
    var y := x % m + b;
    assert (y + m * (x / m)) % m == y % m by { ShiftedMod(y, x / m); }
  }

  lemma {:induction false} ShiftedMod(y: int, k: int)
    ensures (y + 2 * TWO_TO_THE_31 * k) % (2 * TWO_TO_THE_31) == y % (2 * TWO_TO_THE_31)
    decreases if k < 0 then -k else k
  {
    if k > 0 {
      ShiftedMod(y, k - 1);
    } else if k < 0 {
      ShiftedMod(y, k + 1);
    }
  }

  /** One more finger: its record counts, or it has none and adds nothing. */
  lemma CompressedNext(hs: seq<FingerValue>, recs: seq<InsertRecord>, i: nat, k: nat, l: nat)
    requires i < |hs| && k <= l <= |recs| && CompressedSum(hs, i) == Int32(CompressedIn(recs, k))
    requires if l == k then hs[i].compressedLength == 0
      else l == k + 1 && hs[i].compressedLength == recs[k].compressedLength
    ensures CompressedSum(hs, i + 1) == Int32(CompressedIn(recs, l))
  {
    hide Int32;
    AddsInInt32(CompressedIn(recs, k), hs[i].compressedLength);
  }

  lemma {:induction false} CompressedUpTo(fs: seq<FingerValue>, recs: seq<InsertRecord>, n: nat)
    requires n <= |fs| && |recs| == |Unflagged(fs, |fs|)|
    requires forall i :: 0 <= i < |fs| ==> fs[i].compressedLength == 0
    ensures Rank(fs, n) <= |recs|
    ensures CompressedSum(Stored(fs, recs, |recs|), n) == Int32(CompressedIn(recs, Rank(fs, n)))
  {
    RankBounds(fs, n);
    hide Rank, Stored, Unflagged;
    if n > 0 {
      CompressedUpTo(fs, recs, n - 1);
      RankNext(fs, recs, n - 1);
      hide Int32, CompressedSum, CompressedIn;
      CompressedNext(Stored(fs, recs, |recs|), recs, n - 1, Rank(fs, n - 1), Rank(fs, n));
    }
  }

  lemma RankBounds(fs: seq<FingerValue>, n: nat)
    requires n <= |fs|
    ensures Rank(fs, 0) == 0 && Rank(fs, n) <= |Unflagged(fs, |fs|)|
  {
    RankGrows(fs, n, |fs|);
  }

  lemma RankNext(fs: seq<FingerValue>, recs: seq<InsertRecord>, i: nat)
    requires i < |fs| && |recs| == |Unflagged(fs, |fs|)| && fs[i].compressedLength == 0
    ensures Rank(fs, i + 1) == Rank(fs, i) + if fs[i].dedup then 0 else 1
    ensures !fs[i].dedup ==> Rank(fs, i) < |recs|
    ensures Stored(fs, recs, |recs|)[i].compressedLength ==
            if fs[i].dedup then 0 else recs[Rank(fs, i)].compressedLength
  {
    if !fs[i].dedup { RankOf(fs, i, |fs|); }
  }

  lemma {:induction false} RankGrows(fs: seq<FingerValue>, n: nat, m: nat)
    requires n <= m <= |fs|
    ensures Rank(fs, n) <= Rank(fs, m)
  {
    if n < m { RankGrows(fs, n, m - 1); }
  }

  /** The map's CompressedLength is the int32 sum of what the records reported, each counted once. */
  lemma CompressedLengthIsReported(fs: seq<FingerValue>, recs: seq<InsertRecord>, at: int, length: int)
    requires |recs| == |Unflagged(fs, |fs|)| && forall i :: 0 <= i < |fs| ==> fs[i].compressedLength == 0
    ensures SparseOf(Stored(fs, recs, |recs|), at, length).compressedLength == Int32(CompressedIn(recs, |recs|))
  {
    CompressedUpTo(fs, recs, |fs|);
  }

  /**
   * The position map says of itself that it is `length` bytes long, which is the buffer's limit read again
   * at the end: its entries make up that length exactly if the limit is still the one that was sent.
   */
  lemma LenIsExactIff(fs: seq<FingerValue>, data: Bytes, at: int, length: int)
    requires Tile(fs, data) && |data| < TWO_TO_THE_31
    ensures var sdc := SparseOf(fs, at, length);
      sdc.doop + LengthSum(fs, |fs|, false) == sdc.len <==> length == |data|
  {
    DoopIsExact(fs, data);
  }

  /** Every finger's location holds its data. */
  ghost predicate InPlace(fs: seq<FingerValue>, store: map<int, Bytes>) {
    forall i :: 0 <= i < |fs| ==> fs[i].archive in store && store[fs[i].archive] == fs[i].data
  }

  ghost predicate FlaggedInPlace(fs: seq<FingerValue>, store: map<int, Bytes>) {
    forall i :: 0 <= i < |fs| && fs[i].dedup ==> fs[i].archive in store && store[fs[i].archive] == fs[i].data
  }

  /** An entry behind all others is read last. */
  lemma {:induction false} ReadLast(store: map<int, Bytes>, ar: map<int, HashLocPair>, p: int, pair: HashLocPair)
    requires forall q :: q in ar ==> q < p
    ensures ReadPairs(store, ar[p := pair]) == ReadPairs(store, ar) + DataAt(store, pair.hashloc)
    decreases |ar|
  {
    var all := ar[p := pair];
    if ar == map[] {
      assert Least(all, p);
      ReadStep(store, all, p);
      assert all - {p} == map[];
    } else {
      HasLeast(ar);
      var q :| Least(ar, q);
      ReadStep(store, ar, q);
      ReadLast(store, ar - {q}, p, pair);
      FirstAndLast(store, ar, p, pair, q);
    }
  }

  lemma FirstAndLast(store: map<int, Bytes>, ar: map<int, HashLocPair>, p: int, pair: HashLocPair, q: int)
    requires Least(ar, q) && q < p
    requires ReadPairs(store, (ar - {q})[p := pair]) == ReadPairs(store, ar - {q}) + DataAt(store, pair.hashloc)
    ensures ReadPairs(store, ar[p := pair]) == ReadPairs(store, ar) + DataAt(store, pair.hashloc)
  {
    var all := ar[p := pair];
    assert Least(all, q);
    hide ReadPairs, Least, DataAt;
    ReadStep(store, all, q);
    ReadStep(store, ar, q);
    RemoveOther(ar, p, pair, q);
    var first, rest, last := DataAt(store, ar[q].hashloc), ReadPairs(store, ar - {q}), DataAt(store, pair.hashloc);
    assert first + (rest + last) == (first + rest) + last;
  }

  lemma RemoveOther(ar: map<int, HashLocPair>, p: int, pair: HashLocPair, q: int)
    requires p != q
    ensures ar[p := pair] - {q} == (ar - {q})[p := pair]
  {
  }

  /** Reading the position map of fingers that tile a buffer gives the buffer back. */
  lemma {:induction false} ReadsBack(store: map<int, Bytes>, fs: seq<FingerValue>, data: Bytes)
    requires Tile(fs, data) && InPlace(fs, store)
    ensures Readable(store, PairsOf(fs, |fs|))
    ensures ReadPairs(store, PairsOf(fs, |fs|)) == data
    decreases |fs|
  {
    if fs != [] {
      var n := |fs| - 1;
      var f := fs[n];
      var rest := fs[..n];
      ReadsBack(store, rest, data[..f.start]);
      EntriesTile(rest, data[..f.start]);
      PairsOfPrefix(fs, n, n);
      ReadLast(store, PairsOf(fs, n), f.start, PairOf(f));
      assert data == data[..f.start] + data[f.start..];
    }
  }

  /**
   * What the position map says of a buffer is true: the entry at p is about the bytes from p on, as many as
   * its Len and Nlen say, which are stored at its Hashloc and have its Hash; it is a duplicate or inserted, not both.
   */
  lemma {:induction false} EntriesDescribe(c: Codec, store: map<int, Bytes>, fs: seq<FingerValue>, data: Bytes)
    requires Tile(fs, data) && InPlace(fs, store) && forall i :: 0 <= i < |fs| ==> fs[i].hash == c.hash(fs[i].data)
    ensures forall p :: p in PairsOf(fs, |fs|) ==> Describes(c, store, PairsOf(fs, |fs|)[p], p, data)
    decreases |fs|
  {
    if fs != [] {
      var n := |fs| - 1;
      var f := fs[n];
      var rest := fs[..n];
      assert forall i :: 0 <= i < n ==> rest[i] == fs[i];
      EntriesDescribe(c, store, rest, data[..f.start]);
      PairsOfPrefix(fs, n, n);
      assert Describes(c, store, PairOf(f), f.start, data);
      forall p | p in PairsOf(fs, n) ensures Describes(c, store, PairsOf(fs, n)[p], p, data) {
        DescribesLonger(c, store, PairsOf(fs, n)[p], p, data, f.start);
      }
    }
  }

  ghost predicate Describes(c: Codec, store: map<int, Bytes>, e: HashLocPair, p: int, data: Bytes) {
    && e.pos == p && e.offset == 0 && e.nlen == e.len > 0 && e.inserted == !e.dup
    && 0 <= p && p + e.len <= |data|
    && e.hashloc in store && store[e.hashloc] == data[p..p + e.len] && e.hash == c.hash(store[e.hashloc])
  }

  lemma DescribesLonger(c: Codec, store: map<int, Bytes>, e: HashLocPair, p: int, data: Bytes, n: int)
    requires 0 <= n <= |data| && Describes(c, store, e, p, data[..n])
    ensures Describes(c, store, e, p, data)
  {
    assert data[..n][p..p + e.len] == data[p..p + e.len];
  }

  // ----- Both exchanges together -----

  /** Fingers as the hashers leave them: hashed, and nothing known about them yet. */
  ghost predicate Hashed(c: Codec, fs: seq<FingerValue>) {
    forall i :: 0 <= i < |fs| ==> fs[i].hash == c.hash(fs[i].data) && !fs[i].dedup
  }

  lemma EntriesWellFormed(c: Codec, compress: bool, fs: seq<FingerValue>)
    requires Lossless(c) && forall i :: 0 <= i < |fs| ==> fs[i].hash == c.hash(fs[i].data)
    ensures forall e :: e in EntriesOf(c, compress, fs) ==>
      EntryContent(c, e).Some? && c.hash(EntryContent(c, e).value) == e.hash
  {
    var es := EntriesOf(c, compress, fs);
    forall k | 0 <= k < |es|
      ensures EntryContent(c, es[k]).Some? && c.hash(EntryContent(c, es[k]).value) == es[k].hash
    {
      CompressionKeepsContent(c, compress, fs, k);
    }
  }

  /** Fingers that are hashed and hold something. */
  ghost predicate Prepared(c: Codec, fs: seq<FingerValue>) {
    forall i :: 0 <= i < |fs| ==> fs[i].hash == c.hash(fs[i].data) && fs[i].data != []
  }

  /** An honest CheckHashes leaves finger i with its location, flagged if it has one, and there its data is. */
  lemma CheckedFinger(c: Codec, s: ServerState, fs: seq<FingerValue>, t: ServerState, locs: seq<int>, i: nat)
    requires CollisionFree(c) && Hashed(c, fs) && i < |fs|
    requires HonestCheck(c, s, HashesOf(fs), t, Success(locs))
    ensures |locs| == |fs| && Located(fs, locs)[i] == fs[i].(archive := locs[i], dedup := locs[i] != -1)
    ensures locs[i] != -1 ==> locs[i] in t.store && t.store[locs[i]] == fs[i].data
  {
    assert forall k :: 0 <= k < |fs| ==> locs[k] == Lookup(t.index, fs[k].hash);
    FlagMeansKnown(fs, locs, i);
    if locs[i] != -1 {
      assert c.hash(t.store[locs[i]]) == c.hash(fs[i].data);
    }
  }

  /** What an honest CheckHashes tells: the flagged fingers are on the server already. */
  lemma CheckedFingers(c: Codec, s: ServerState, fs: seq<FingerValue>, t: ServerState, locs: seq<int>)
    requires CollisionFree(c) && Hashed(c, fs)
    requires HonestCheck(c, s, HashesOf(fs), t, Success(locs))
    ensures SamePieces(fs, Located(fs, locs)) && FlaggedInPlace(Located(fs, locs), t.store)
    ensures forall i :: 0 <= i < |fs| && Located(fs, locs)[i].dedup ==> Located(fs, locs)[i].archive != -1
  {
    hide CollisionFree, HonestCheck, Hashed, Located;
    forall i | 0 <= i < |fs|
      ensures Located(fs, locs)[i].(archive := fs[i].archive, dedup := fs[i].dedup) == fs[i]
      ensures var g := Located(fs, locs)[i];
        g.dedup ==> g.archive != -1 && g.archive in t.store && t.store[g.archive] == g.data
    {
      CheckedFinger(c, s, fs, t, locs, i);
    }
  }

  ghost predicate SamePieces(fs: seq<FingerValue>, gs: seq<FingerValue>) {
    |gs| == |fs| && forall i :: 0 <= i < |fs| ==>
      gs[i].data == fs[i].data && gs[i].start == fs[i].start && gs[i].len == fs[i].len && gs[i].hash == fs[i].hash
  }

  /** An honest WriteChunks whose records all have a location puts an unflagged finger in place. */
  lemma RecordPlaces(c: Codec, compress: bool, gs: seq<FingerValue>, s: ServerState, t: ServerState,
      recs: seq<InsertRecord>, i: nat)
    requires Lossless(c) && CollisionFree(c) && Prepared(c, gs) && i < |gs| && !gs[i].dedup
    requires HonestWrite(c, s, EntriesOf(c, compress, gs), t, Success(recs)) && NoneMissing(gs, recs, |recs|)
    ensures var h := Stored(gs, recs, |recs|)[i];
      h.archive != -1 && h.archive in t.store && t.store[h.archive] == h.data
  {
    var es := EntriesOf(c, compress, gs);
    var k := Rank(gs, i);
    RankOf(gs, i, |gs|);
    assert !Missing(gs, recs, k);
    CompressionKeepsContent(c, compress, gs, k);
    hide EntryContent, EntryOf, Unflagged;
    assert recs[k].hashloc == Lookup(t.index, es[k].hash);
    assert c.hash(t.store[recs[k].hashloc]) == c.hash(gs[i].data);
  }

  /** Fingers that were flagged keep what they have. */
  lemma KeepsFlagged(gs: seq<FingerValue>, recs: seq<InsertRecord>, i: nat)
    requires i < |gs|
    ensures var h := Stored(gs, recs, |recs|)[i]; h.data == gs[i].data && (gs[i].dedup ==> h == gs[i])
  {
  }

  lemma HonestWriteGrows(c: Codec, s: ServerState, chunks: seq<ChunkEntry>, t: ServerState,
      reply: Result<seq<InsertRecord>, Error>)
    requires HonestWrite(c, s, chunks, t, reply)
    ensures forall l :: l in s.store ==> l in t.store && t.store[l] == s.store[l]
  {
  }

  /** It puts all fingers in place when the flagged ones were. */
  lemma RecordsPlace(c: Codec, compress: bool, gs: seq<FingerValue>, s: ServerState, t: ServerState,
      recs: seq<InsertRecord>)
    requires Lossless(c) && CollisionFree(c) && Prepared(c, gs) && FlaggedInPlace(gs, s.store)
    requires HonestWrite(c, s, EntriesOf(c, compress, gs), t, Success(recs)) && NoneMissing(gs, recs, |recs|)
    ensures InPlace(Stored(gs, recs, |recs|), t.store)
    ensures forall i :: 0 <= i < |gs| && !gs[i].dedup ==> Stored(gs, recs, |recs|)[i].archive != -1
  {
    hide EntriesOf, Stored, HonestWrite, Lossless, CollisionFree, NoneMissing, Prepared;
    HonestWriteGrows(c, s, EntriesOf(c, compress, gs), t, Success(recs));
    var hs := Stored(gs, recs, |recs|);
    forall i | 0 <= i < |gs|
      ensures hs[i].archive in t.store && t.store[hs[i].archive] == hs[i].data
      ensures !gs[i].dedup ==> hs[i].archive != -1
    {
      KeepsFlagged(gs, recs, i);
      if !gs[i].dedup { RecordPlaces(c, compress, gs, s, t, recs, i); }
    }
  }

  /** After both exchanges every finger has a location other than -1, and that location holds its own data. */
  lemma BatchesLocateEveryFinger(c: Codec, compress: bool, fs: seq<FingerValue>,
      s0: ServerState, s1: ServerState, locs: seq<int>, s2: ServerState, recs: seq<InsertRecord>)
    requires Lossless(c) && CollisionFree(c) && Hashed(c, fs) && Prepared(c, fs)
    requires HonestCheck(c, s0, HashesOf(fs), s1, Success(locs))
    requires HonestWrite(c, s1, EntriesOf(c, compress, Located(fs, locs)), s2, Success(recs))
    requires NoneMissing(Located(fs, locs), recs, |recs|)
    ensures InPlace(Stored(Located(fs, locs), recs, |recs|), s2.store)
    ensures forall i :: 0 <= i < |fs| ==> Stored(Located(fs, locs), recs, |recs|)[i].archive != -1
  {
    hide EntriesOf, Stored, Located, HonestCheck, HonestWrite, Lossless, CollisionFree, Hashed, NoneMissing, InPlace,
        FlaggedInPlace;
    var gs := Located(fs, locs);
    CheckedFingers(c, s0, fs, s1, locs);
    assert Prepared(c, gs);
    hide Prepared;
    RecordsPlace(c, compress, gs, s1, s2, recs);
    forall i | 0 <= i < |fs| ensures Stored(gs, recs, |recs|)[i].archive != -1 {
      KeepsFlagged(gs, recs, i);
    }
  }

  /** Tiling is about data, starts and lengths; what the server answered does not matter to it. */
  lemma {:induction false} TileKept(fs: seq<FingerValue>, gs: seq<FingerValue>, data: Bytes)
    requires Tile(fs, data) && |gs| == |fs|
    requires forall i :: 0 <= i < |fs| ==>
      gs[i].data == fs[i].data && gs[i].start == fs[i].start && gs[i].len == fs[i].len
    ensures Tile(gs, data)
    decreases |fs|
  {
    if fs != [] {
      var n := |fs| - 1;
      TileKept(fs[..n], gs[..n], data[..fs[n].start]);
    }
  }

  lemma {:induction false} TilesNonEmpty(fs: seq<FingerValue>, data: Bytes)
    requires Tile(fs, data)
    ensures forall i :: 0 <= i < |fs| ==> fs[i].data != []
    decreases |fs|
  {
    if fs != [] {
      var n := |fs| - 1;
      TilesNonEmpty(fs[..n], data[..fs[n].start]);
      assert forall i :: 0 <= i < n ==> fs[i] == fs[..n][i];
    }
  }

  /**
   * Writing the position map of fingers that hold a buffer makes the server return that buffer for its block of
   * the handle's file, and changes no other block and no other file.
   */
  lemma MapWritten(c: Codec, compress: bool, net: Network, s: ServerState, fs: seq<FingerValue>, data: Bytes,
      request: SparseRequest, length: int)
    requires Lossless(c) && Honest(c, net) && StoreOk(c, s)
    requires Tile(fs, data) && InPlace(fs, s.store)
    requires RequestOf(c, compress, SparseOf(fs, request.fileLocation, length), request.fileHandle,
        request.fileLocation, request.pvolumeID) == Success(request)
    ensures var (t, reply) := net.sparse(s, request); var file := net.owner(request.fileHandle, request.pvolumeID);
            && Grows(s, t) && StoreOk(c, t) && OthersKept(s, t, file)
            && (Blocks(t, file) == Blocks(s, file)[request.fileLocation := data]
                || (reply.Failure? && Blocks(t, file) == Blocks(s, file)))
  {
    var at := request.fileLocation;
    var file := net.owner(request.fileHandle, request.pvolumeID);
    var sdc := SparseOf(fs, at, length);
    RequestKeepsMap(c, compress, sdc, request.fileHandle, at, request.pvolumeID);
    ReadsBack(s.store, fs, data);
    var t := net.sparse(s, request).0;
    assert HonestSparse(c, s, file, sdc, at, t, net.sparse(s, request).1);
    if t.blocks == s.blocks[file := MapsOf(s, file)[at := sdc]] {
      ReadsBack(t.store, fs, data);
      ReplacedBlock(c, s, t, file, at, sdc);
    } else {
      GrowthKeepsBlocks(c, s, t);
    }
  }
}

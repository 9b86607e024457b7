/** The methods that cut a buffer into fingers and send them to the server. */
module Flush {
  import opened Bytes
  import opened Storage
  import opened Fingers

  class Finger {
    var hash: Bytes
    const data: Bytes
    const start: int
    const len: int
    var dedup: bool
    var archive: int
    var compressedLength: int

    constructor (data: Bytes, start: int, len: int)
      ensures Value() == FingerValue([], data, start, len, false, 0, 0)
    {
      this.data, this.start, this.len := data, start, len;
      hash, dedup, archive, compressedLength := [], false, 0, 0;
    }

    function Value(): FingerValue
      reads this
    {
      FingerValue(hash, data, start, len, dedup, archive, compressedLength)
    }
  }

  ghost function Values(fs: seq<Finger>): (r: seq<FingerValue>)
    reads fs
    ensures |r| == |fs|
    ensures forall i :: 0 <= i < |fs| ==> r[i] == fs[i].Value()
  {
    seq(|fs|, i requires 0 <= i < |fs| reads fs => fs[i].Value())
  }

  ghost predicate Distinct(fs: seq<Finger>) {
    forall i, j :: 0 <= i < j < |fs| ==> fs[i] != fs[j]
  }

  // ----- The chunker -----

  datatype ReadError = NoError | Eof | OtherError

  /** One answer of the rabin chunker's Next. */
  datatype Next = Next(len: int, err: ReadError)

  /**
   * The chunker's contract: cuts are positive and stay within the input, and it only ends at the end of the input.
   */
  ghost predicate ChunkerOk(cuts: seq<Next>, pos: int, limit: int) {
    if cuts == [] || cuts[0].err.Eof? || cuts[0].len == 0 then pos == limit
    else if cuts[0].err.OtherError? then true
    else cuts[0].len > 0 && pos + cuts[0].len <= limit && ChunkerOk(cuts[1..], pos + cuts[0].len, limit)
  }

  function ChunkerFails(cuts: seq<Next>): bool {
    if cuts == [] || cuts[0].err.Eof? || cuts[0].len == 0 then false
    else cuts[0].err.OtherError? || ChunkerFails(cuts[1..])
  }

  lemma NextCut(cuts: seq<Next>, i: nat, pos: int, limit: int)
    requires i < |cuts| && !cuts[i].err.Eof? && cuts[i].len != 0 && ChunkerOk(cuts[i..], pos, limit)
    ensures ChunkerFails(cuts[i..]) == (cuts[i].err.OtherError? || ChunkerFails(cuts[i + 1..]))
    ensures cuts[i].err.NoError? ==>
      cuts[i].len > 0 && pos + cuts[i].len <= limit && ChunkerOk(cuts[i + 1..], pos + cuts[i].len, limit)
  {
    assert cuts[i..][1..] == cuts[i + 1..];
  }

  lemma LastCut(cuts: seq<Next>, i: nat, pos: int, limit: int)
    requires i <= |cuts| && (i == |cuts| || cuts[i].err.Eof? || cuts[i].len == 0) && ChunkerOk(cuts[i..], pos, limit)
    ensures pos == limit && !ChunkerFails(cuts[i..])
  {
  }

  lemma NoMoreFingers(data: Bytes, cuts: seq<Next>, i: nat, pos: nat)
    requires i <= |cuts| && (i == |cuts| || cuts[i].err.Eof? || cuts[i].len == 0)
    requires ChunkerOk(cuts[i..], pos, |data|) && !ChunkerFails(cuts[i..])
    ensures FingersFrom(data, pos, cuts[i..]) == []
  {
  }

  /** The chunker's last answer was the one before. */
  predicate Ended(cuts: seq<Next>) {
    cuts == [] || cuts[0].err.Eof? || cuts[0].len == 0
  }

  /** The fingers that the chunker's answers cut the data from `pos` on into. */
  function FingersFrom(data: Bytes, pos: nat, cuts: seq<Next>): seq<FingerValue>
    requires ChunkerOk(cuts, pos, |data|) && !ChunkerFails(cuts)
    decreases |cuts|
  {
    if Ended(cuts) then []
    else
      var end := pos + cuts[0].len;
      [FingerValue([], data[pos..end], pos, cuts[0].len, false, 0, 0)] + FingersFrom(data, end, cuts[1..])
  }

  lemma NextFinger(data: Bytes, cuts: seq<Next>, i: nat, pos: nat)
    requires i < |cuts| && !cuts[i].err.Eof? && cuts[i].len != 0
    requires ChunkerOk(cuts[i..], pos, |data|) && !ChunkerFails(cuts[i..])
    ensures cuts[i].len > 0 && pos + cuts[i].len <= |data|
    ensures ChunkerOk(cuts[i + 1..], pos + cuts[i].len, |data|) && !ChunkerFails(cuts[i + 1..])
    ensures var end := pos + cuts[i].len;
      FingersFrom(data, pos, cuts[i..]) ==
        [FingerValue([], data[pos..end], pos, cuts[i].len, false, 0, 0)] + FingersFrom(data, end, cuts[i + 1..])
  {
    assert cuts[i..][1..] == cuts[i + 1..];
  }

  lemma OneMoreTile(fs: seq<FingerValue>, f: FingerValue, done: Bytes, data: Bytes)
    requires Tile(fs, done) && f.len == |f.data| > 0 && f.start == |done| && data == done + f.data
    ensures Tile(fs + [f], data)
  {
    assert (fs + [f])[..|fs|] == fs;
    assert data[..|done|] == done && data[|done|..] == f.data;
  }

  /** They lie end to end over it. */
  lemma {:induction false} FingersTile(fs: seq<FingerValue>, data: Bytes, pos: nat, cuts: seq<Next>)
    requires ChunkerOk(cuts, pos, |data|) && !ChunkerFails(cuts) && pos <= |data| && Tile(fs, data[..pos])
    ensures Tile(fs + FingersFrom(data, pos, cuts), data)
    decreases |cuts|
  {
    if Ended(cuts) {
      assert fs + [] == fs && data[..pos] == data;
    } else {
      var end := pos + cuts[0].len;
      var f := FingerValue([], data[pos..end], pos, cuts[0].len, false, 0, 0);
      var rest := FingersFrom(data, end, cuts[1..]);
      assert data[..end] == data[..pos] + f.data;
      hide Tile, FingersFrom, ChunkerOk, ChunkerFails;
      OneMoreTile(fs, f, data[..pos], data[..end]);
      FingersTile(fs + [f], data, end, cuts[1..]);
      assert fs + ([f] + rest) == fs + [f] + rest;
    }
  }

  lemma {:induction false} FingersUnflagged(data: Bytes, pos: nat, cuts: seq<Next>)
    requires ChunkerOk(cuts, pos, |data|) && !ChunkerFails(cuts)
    ensures forall f :: f in FingersFrom(data, pos, cuts) ==> !f.dedup && f.compressedLength == 0
    decreases |cuts|
  {
    if !Ended(cuts) { FingersUnflagged(data, pos + cuts[0].len, cuts[1..]); }
  }

  lemma CutsTile(data: Bytes, cuts: seq<Next>)
    requires ChunkerOk(cuts, 0, |data|) && !ChunkerFails(cuts)
    ensures Tile(FingersFrom(data, 0, cuts), data)
    ensures forall f :: f in FingersFrom(data, 0, cuts) ==> !f.dedup && f.compressedLength == 0
  {
    FingersTile([], data, 0, cuts);
    FingersUnflagged(data, 0, cuts);
    assert [] + FingersFrom(data, 0, cuts) == FingersFrom(data, 0, cuts);
  }

  /** What the hash pool makes of fingers. */
  function HashedBy(c: Codec, fs: seq<FingerValue>): (r: seq<FingerValue>)
    ensures |r| == |fs|
  {
    seq(|fs|, i requires 0 <= i < |fs| => fs[i].(hash := c.hash(fs[i].data)))
  }

  // ----- The groups of CheckHashes -----

  /** hm: for every hash its fingers' indices, each once, in order. */
  ghost predicate Groups(hm: map<Bytes, seq<nat>>, fs: seq<FingerValue>, n: nat)
    requires n <= |fs|
  {
    && (forall i :: 0 <= i < n ==> fs[i].hash in hm)
    && (forall h :: h in hm ==> Group(hm[h], fs, n, h))
  }

  ghost predicate Group(val: seq<nat>, fs: seq<FingerValue>, n: nat, h: Bytes)
    requires n <= |fs|
  {
    && (forall k :: 0 <= k < |val| ==> val[k] < n && fs[val[k]].hash == h)
    && (forall j, k :: 0 <= j < k < |val| ==> val[j] < val[k])
    && (forall s :: 0 <= s < n && fs[s].hash == h ==> s in val)
  }

  lemma GroupGrows(val: seq<nat>, fs: seq<FingerValue>, i: nat)
    requires i < |fs| && Group(val, fs, i, fs[i].hash)
    ensures Group(val + [i], fs, i + 1, fs[i].hash)
  {
    var more := val + [i];
    assert more[|val|] == i;
    forall s | 0 <= s <= i && fs[s].hash == fs[i].hash ensures s in more {
      assert s < i ==> s in val;
    }
  }

  lemma GroupStays(val: seq<nat>, fs: seq<FingerValue>, i: nat, h: Bytes)
    requires i < |fs| && Group(val, fs, i, h) && fs[i].hash != h
    ensures Group(val, fs, i + 1, h)
  {
  }

  /** The group of a hash, which is empty when the map does not have it. */
  function GroupIn(hm: map<Bytes, seq<nat>>, h: Bytes): seq<nat> {
    if h in hm then hm[h] else []
  }

  lemma GroupInIsGroup(hm: map<Bytes, seq<nat>>, fs: seq<FingerValue>, n: nat, h: Bytes)
    requires n <= |fs| && Groups(hm, fs, n)
    ensures Group(GroupIn(hm, h), fs, n, h)
    ensures forall i :: 0 <= i < n ==> fs[i].hash in hm
  {
  }

  lemma NoGroups(fs: seq<FingerValue>)
    ensures Groups(map[], fs, 0)
  {
  }

  lemma KeyIsFound(hm: map<Bytes, seq<nat>>, h: Bytes)
    ensures h in hm ==> GroupIn(hm, h) == hm[h]
  {
  }

  lemma GroupsGrow(hm: map<Bytes, seq<nat>>, fs: seq<FingerValue>, i: nat)
    requires i < |fs| && Groups(hm, fs, i)
    ensures var h := fs[i].hash; Groups(hm[h := GroupIn(hm, h) + [i]], fs, i + 1)
  {
    hide Group, GroupIn;
    var h := fs[i].hash;
    GroupInIsGroup(hm, fs, i, h);
    GroupGrows(GroupIn(hm, h), fs, i);
    forall g | g in hm && g != h ensures Group(hm[g], fs, i + 1, g) {
      GroupStays(hm[g], fs, i, g);
    }
  }

  function Flagged(g: seq<FingerValue>, i: nat): seq<FingerValue>
    requires i < |g|
  {
    if g[i].archive != -1 then g[i := g[i].(dedup := true)] else g
  }

  /**
   * Fingers `g` once location `loc` was written to the first t members of finger i's group, i's flag being tested
   * each time.
   */
  ghost function Grouped(g: seq<FingerValue>, i: nat, loc: int, before: bool, val: seq<nat>,
      t: nat): (r: seq<FingerValue>)
    requires t <= |val|
    ensures |r| == |g|
  {
    seq(|g|, s requires 0 <= s < |g| =>
      if s == i then
        g[s].(archive := if i in val[..t] then loc else g[s].archive,
              dedup := g[s].dedup || (i in val[..t] && loc != -1) || (t > 0 && before))
      else g[s].(archive := if s in val[..t] then loc else g[s].archive))
  }

  lemma PrefixGrows(val: seq<nat>, t: nat, x: nat)
    requires t < |val|
    ensures x in val[..t + 1] <==> x in val[..t] || x == val[t]
  {
    assert val[..t + 1] == val[..t] + [val[t]];
  }

  lemma GroupedNextAt(g: seq<FingerValue>, i: nat, loc: int, before: bool, val: seq<nat>, t: nat, x: nat)
    requires i < |g| && x < |g| && t < |val| && val[t] < |g|
    requires if val[0] == i then !before else before == (g[i].archive != -1)
    ensures var h := Grouped(g, i, loc, before, val, t);
      Grouped(g, i, loc, before, val, t + 1)[x] == Flagged(h[val[t] := h[val[t]].(archive := loc)], i)[x]
  {
    PrefixGrows(val, t, x);
    assert t > 0 ==> val[0] in val[..t];
  }

  lemma GroupedNext(g: seq<FingerValue>, i: nat, loc: int, before: bool, val: seq<nat>, t: nat)
    requires i < |g| && t < |val| && val[t] < |g|
    requires if val[0] == i then !before else before == (g[i].archive != -1)
    ensures var h := Grouped(g, i, loc, before, val, t);
            Grouped(g, i, loc, before, val, t + 1) == Flagged(h[val[t] := h[val[t]].(archive := loc)], i)
  {
    var h := Grouped(g, i, loc, before, val, t);
    var next := Flagged(h[val[t] := h[val[t]].(archive := loc)], i);
    assert |next| == |g|;
    hide Grouped, Flagged;
    forall x | 0 <= x < |g| ensures Grouped(g, i, loc, before, val, t + 1)[x] == next[x] {
      GroupedNextAt(g, i, loc, before, val, t, x);
    }
  }

  /** The first member of entry i's group is i itself, or comes no later than the one before i. */
  lemma GroupStarts(fs: seq<FingerValue>, i: nat, val: seq<nat>)
    requires i < |fs| && Group(val, fs, |fs|, fs[i].hash)
    ensures val != []
    ensures LastWith(fs, i, fs[i].hash) < 0 <==> val[0] == i
  {
    var p := LastWith(fs, i, fs[i].hash);
    assert i in val;
    if p >= 0 {
      assert p in val;
    } else {
      assert fs[val[0]].hash == fs[i].hash;
    }
  }

  ghost predicate FoundBefore(fs: seq<FingerValue>, locs: seq<int>, i: nat)
    requires i < |fs| && i < |locs|
  {
    var p := LastWith(fs, i, fs[i].hash);
    p >= 0 && locs[p] != -1
  }

  /** Writing a whole group is one more entry of the reply handled. */
  lemma GroupedLast(fs: seq<FingerValue>, locs: seq<int>, i: nat, val: seq<nat>)
    requires i < |fs| && i < |locs| && Group(val, fs, |fs|, fs[i].hash)
    ensures Grouped(LocatedBy(fs, locs, i), i, locs[i], FoundBefore(fs, locs, i), val, |val|) == LocatedBy(fs, locs,
        i + 1)
  {
    assert val[..|val|] == val;
    assert i in val;
    forall s | 0 <= s < |fs|
      ensures ArchiveAfter(fs, locs, i + 1, s) == if s in val then locs[i] else ArchiveAfter(fs, locs, i, s)
    {
      assert s in val <==> fs[s].hash == fs[i].hash;
    }
  }

  /**
   * How the loop over the records ends: all handled, one too many, or stopped at the first that has no location for
   * data.
   */
  ghost predicate RecordsHandled(fs: seq<FingerValue>, recs: seq<InsertRecord>, gs: seq<FingerValue>, r: Result<(),
      Error>) {
    var m := |Unflagged(fs, |fs|)|;
    || (r == Success(()) && |recs| <= m && HandledTo(fs, recs, gs, |recs|))
    || (r == Failure(OutOfRange) && |recs| > m && HandledTo(fs, recs, gs, m))
    || (r == Failure(MissingArchive) && exists k :: StopsAt(fs, recs, gs, k))
  }

  ghost predicate HandledTo(fs: seq<FingerValue>, recs: seq<InsertRecord>, gs: seq<FingerValue>, n: nat) {
    NoneMissing(fs, recs, n) && gs == Stored(fs, recs, n)
  }

  ghost predicate StopsAt(fs: seq<FingerValue>, recs: seq<InsertRecord>, gs: seq<FingerValue>, k: nat) {
    && NoneMissing(fs, recs, k)
    && k < |recs| && k < |Unflagged(fs, |fs|)| && Missing(fs, recs, k) && gs == Stored(fs, recs, k + 1)
  }

  /**
   * What CheckHashes does, whatever the server is: no fingers, no call; an error changes no finger; a reply that is
   * too long panics.
   */
  ghost predicate CheckOutcome(net: Network, s: ServerState, fs: seq<FingerValue>, t: ServerState,
      gs: seq<FingerValue>, r: Result<(), Error>) {
    if fs == [] then r == Success(()) && t == s && gs == fs
    else
      var (next, reply) := net.check(s, HashesOf(fs));
      t == next &&
      match reply
      case Failure(e) => r == Failure(e) && gs == fs
      case Success(locs) =>
        r == (if |locs| <= |fs| then Success(()) else Failure(OutOfRange)) && gs == Located(fs, locs)
  }

  /** What WriteChunks does, whatever the server is. */
  ghost predicate WriteOutcome(c: Codec, compress: bool, net: Network, s: ServerState, fs: seq<FingerValue>,
      t: ServerState, gs: seq<FingerValue>, r: Result<(), Error>)
  {
    var es := EntriesOf(c, compress, fs);
    if es == [] then r == Success(()) && t == s && gs == fs
    else
      var (next, reply) := net.write(s, es);
      t == next &&
      match reply
      case Failure(e) => r == Failure(e) && gs == fs
      case Success(recs) => RecordsHandled(fs, recs, gs, r)
  }

  /** Every file reads the same. */
  ghost predicate SameFiles(s: ServerState, t: ServerState) {
    forall file :: Blocks(t, file) == Blocks(s, file)
  }

  /** The fingers that CheckHashes flagged are on the server already. */
  lemma AfterCheck(c: Codec, net: Network, s: ServerState, fs: seq<FingerValue>, t: ServerState,
      gs: seq<FingerValue>, r: Result<(), Error>)
    requires CollisionFree(c) && Honest(c, net) && StoreOk(c, s) && Hashed(c, fs)
    requires CheckOutcome(net, s, fs, t, gs, r)
    ensures Grows(s, t) && StoreOk(c, t) && SameFiles(s, t)
    ensures SamePieces(fs, gs)
    ensures r.Success? ==> FlaggedInPlace(gs, t.store)
  {
    if fs != [] {
      var (next, reply) := net.check(s, HashesOf(fs));
      assert HonestCheck(c, s, HashesOf(fs), t, reply);
      GrowthKeepsBlocks(c, s, t);
      if reply.Success? {
        CheckedFingers(c, s, fs, t, reply.value);
      }
    }
  }

  /** After WriteChunks succeeds all of them are. */
  lemma AfterWrite(c: Codec, compress: bool, net: Network, s: ServerState, fs: seq<FingerValue>,
      t: ServerState, gs: seq<FingerValue>, r: Result<(), Error>)
    requires Lossless(c) && CollisionFree(c) && Honest(c, net) && StoreOk(c, s)
    requires Prepared(c, fs) && FlaggedInPlace(fs, s.store)
    requires WriteOutcome(c, compress, net, s, fs, t, gs, r)
    ensures Grows(s, t) && StoreOk(c, t) && SameFiles(s, t)
    ensures r.Success? ==> SamePieces(fs, gs) && InPlace(gs, t.store)
  {
    var es := EntriesOf(c, compress, fs);
    hide Lossless, CollisionFree, Prepared, EntriesOf, Stored, NoneMissing, StoreOk, Grows, Blocks;
    if es == [] {
      AllFlagged(c, compress, fs);
      Unchanged(s);
    } else {
      var (next, reply) := net.write(s, es);
      WriteIsHonest(c, compress, net, s, fs);
      hide Honest, HonestWrite;
      if r.Success? {
        hide InPlace, FlaggedInPlace;
        StoredPieces(fs, reply.value);
        RecordsPlace(c, compress, fs, s, t, reply.value);
      }
    }
  }

  lemma Unchanged(s: ServerState)
    ensures Grows(s, s)
  {
  }

  lemma AllFlagged(c: Codec, compress: bool, fs: seq<FingerValue>)
    requires EntriesOf(c, compress, fs) == []
    ensures forall i :: 0 <= i < |fs| ==> fs[i].dedup
  {
    forall i | 0 <= i < |fs| ensures fs[i].dedup {
      if !fs[i].dedup { RankOf(fs, i, |fs|); }
    }
  }

  lemma StoredPieces(fs: seq<FingerValue>, recs: seq<InsertRecord>)
    ensures SamePieces(fs, Stored(fs, recs, |recs|))
  {
  }

  /** The server's side of WriteChunks: what is stored only grows, and no block changes. */
  lemma WriteIsHonest(c: Codec, compress: bool, net: Network, s: ServerState, fs: seq<FingerValue>)
    requires Lossless(c) && Honest(c, net) && StoreOk(c, s) && Prepared(c, fs)
    ensures var es := EntriesOf(c, compress, fs); var (t, reply) := net.write(s, es);
      HonestWrite(c, s, es, t, reply) && Grows(s, t) && StoreOk(c, t) && SameFiles(s, t)
  {
    EntriesWellFormed(c, compress, fs);
    var (t, reply) := net.write(s, EntriesOf(c, compress, fs));
    GrowthKeepsBlocks(c, s, t);
  }

  lemma StoredNext(fs: seq<FingerValue>, recs: seq<InsertRecord>, k: nat)
    requires k < |recs| && k < |Unflagged(fs, |fs|)|
    ensures var z := Unflagged(fs, |fs|)[k];
            && Stored(fs, recs, k)[z] == fs[z]
            && Stored(fs, recs, k + 1) == Stored(fs, recs, k)[z := Recorded(fs[z], recs[k])]
  {
    var hl := Unflagged(fs, |fs|);
    RankAt(fs, k);
    forall i | 0 <= i < |fs| && !fs[i].dedup && Rank(fs, i) == k ensures i == hl[k] {
      RankOf(fs, i, |fs|);
    }
  }

  lemma NothingHandled(fs: seq<FingerValue>, recs: seq<InsertRecord>)
    ensures HandledTo(fs, recs, fs, 0)
  {
    assert Stored(fs, recs, 0) == fs;
  }

  lemma HandledNext(fs: seq<FingerValue>, recs: seq<InsertRecord>, gs: seq<FingerValue>, k: nat)
    requires HandledTo(fs, recs, gs, k) && k < |recs| && k < |Unflagged(fs, |fs|)|
    ensures |gs| == |fs|
    ensures var z := Unflagged(fs, |fs|)[k];
            var hs := gs[z := Recorded(gs[z], recs[k])];
            && !gs[z].dedup && gs[z].data == fs[z].data
            && if recs[k].hashloc == -1 && |gs[z].data| > 0 then StopsAt(fs, recs, hs, k)
                else HandledTo(fs, recs, hs, k + 1)
  {
    StoredNext(fs, recs, k);
  }

  lemma NothingLocated(fs: seq<FingerValue>, locs: seq<int>)
    ensures LocatedBy(fs, locs, 0) == fs
  {
  }

  lemma GroupFacts(fs: seq<FingerValue>, locs: seq<int>, i: nat, val: seq<nat>)
    requires i < |fs| && i < |locs| && Group(val, fs, |fs|, fs[i].hash)
    ensures var g := LocatedBy(fs, locs, i);
            var before := FoundBefore(fs, locs, i);
            && val != [] && (if val[0] == i then !before else before == (g[i].archive != -1))
            && Grouped(g, i, locs[i], before, val, 0) == g
            && Grouped(g, i, locs[i], before, val, |val|) == LocatedBy(fs, locs, i + 1)
    ensures forall k :: 0 <= k < |val| ==> val[k] < |fs|
  {
    GroupStarts(fs, i, val);
    GroupedLast(fs, locs, i, val);
  }

  // ----- The three exchanges -----

  /** CheckHashes on a server in state s: its next state, and the fingers or the error. */
  ghost function Checked(net: Network, s: ServerState, fs: seq<FingerValue>):
      (ServerState, Result<seq<FingerValue>, Error>)
  {
    if fs == [] then (s, Success(fs))
    else
      var (t, reply) := net.check(s, HashesOf(fs));
      (t, match reply
          case Failure(e) => Failure(e)
          case Success(locs) => if |locs| <= |fs| then Success(Located(fs, locs)) else Failure(OutOfRange))
  }

  /** WriteChunks likewise. */
  ghost function Written(c: Codec, compress: bool, net: Network, s: ServerState, fs: seq<FingerValue>):
      (ServerState, Result<seq<FingerValue>, Error>)
  {
    var es := EntriesOf(c, compress, fs);
    if es == [] then (s, Success(fs))
    else
      var (t, reply) := net.write(s, es);
      (t, match reply
          case Failure(e) => Failure(e)
          case Success(recs) =>
            if !NoneMissing(fs, recs, if |recs| < |es| then |recs| else |es|) then Failure(MissingArchive)
            else if |recs| > |es| then Failure(OutOfRange)
            else Success(Stored(fs, recs, |recs|)))
  }

  /** Where an attempt's fingers go: the handle, the offset and the limit of the buffer, and the volume. */
  datatype Target = Target(fileHandle: int, at: int, length: int, volumeID: int)

  /** The position map and its call. */
  ghost function Mapped(c: Codec, compress: bool, net: Network, s: ServerState, fs: seq<FingerValue>, to: Target):
      (ServerState, Result<(), Error>)
  {
    match RequestOf(c, compress, SparseOf(fs, to.at, to.length), to.fileHandle, to.at, to.volumeID)
    case Failure(e) => (s, Failure(e))
    case Success(request) => net.sparse(s, request)
  }

  /** The three exchanges in order, up to the first that fails. */
  ghost function Exchange(c: Codec, compress: bool, net: Network, s: ServerState, fs: seq<FingerValue>, to: Target):
      (ServerState, Result<(), Error>)
  {
    var (s1, checked) := Checked(net, s, fs);
    if checked.Failure? then (s1, Failure(checked.error))
    else
      var (s2, written) := Written(c, compress, net, s1, checked.value);
      if written.Failure? then (s2, Failure(written.error))
      else Mapped(c, compress, net, s2, written.value, to)
  }

  /** What one attempt comes to that flushes `data`: the chunker's error, or the exchanges. */
  ghost function AttemptOf(c: Codec, compress: bool, net: Network, s: ServerState, data: Bytes, cuts: seq<Next>,
      to: Target): (ServerState, Result<(), Error>)
    requires ChunkerOk(cuts, 0, |data|)
  {
    if ChunkerFails(cuts) then (s, Failure(Chunking))
    else Exchange(c, compress, net, s, HashedBy(c, FingersFrom(data, 0, cuts)), to)
  }

  lemma CheckedIs(net: Network, s: ServerState, fs: seq<FingerValue>, t: ServerState, gs: seq<FingerValue>,
      r: Result<(), Error>)
    requires CheckOutcome(net, s, fs, t, gs, r)
    ensures Checked(net, s, fs) == (t, if r.Success? then Success(gs) else Failure(r.error))
  {
  }

  lemma WrittenIs(c: Codec, compress: bool, net: Network, s: ServerState, fs: seq<FingerValue>, t: ServerState,
      gs: seq<FingerValue>, r: Result<(), Error>)
    requires WriteOutcome(c, compress, net, s, fs, t, gs, r)
    ensures Written(c, compress, net, s, fs) == (t, if r.Success? then Success(gs) else Failure(r.error))
  {
  }

  /** CheckHashes succeeds exactly if the call does, when there is one. */
  lemma CheckedIff(c: Codec, net: Network, s: ServerState, fs: seq<FingerValue>)
    requires Honest(c, net) && StoreOk(c, s)
    ensures StoreOk(c, Checked(net, s, fs).0)
    ensures Checked(net, s, fs).1.Success? <==> fs == [] || net.check(s, HashesOf(fs)).1.Success?
  {
    assert HonestCheck(c, s, HashesOf(fs), net.check(s, HashesOf(fs)).0, net.check(s, HashesOf(fs)).1);
    hide StoreOk, Located;
  }

  /** WriteChunks exactly if the call does, when there is one, and every record has a location. */
  lemma WrittenIff(c: Codec, compress: bool, net: Network, s: ServerState, fs: seq<FingerValue>)
    requires Lossless(c) && Honest(c, net) && StoreOk(c, s) && Prepared(c, fs)
    ensures StoreOk(c, Written(c, compress, net, s, fs).0)
    ensures var es := EntriesOf(c, compress, fs);
      Written(c, compress, net, s, fs).1.Success? <==>
        es == [] || (net.write(s, es).1.Success? && forall r :: r in net.write(s, es).1.value ==> r.hashloc != -1)
  {
    WriteIsHonest(c, compress, net, s, fs);
    var es := EntriesOf(c, compress, fs);
    var reply := net.write(s, es).1;
    if es != [] && reply.Success? {
      NoneMissingIff(c, fs, reply.value);
    }
    hide Lossless, Honest, StoreOk, EntriesOf, Grows, SameFiles, NoneMissing, Stored, Prepared;
  }

  lemma NoneMissingIff(c: Codec, fs: seq<FingerValue>, recs: seq<InsertRecord>)
    requires Prepared(c, fs) && |recs| == |Unflagged(fs, |fs|)|
    ensures NoneMissing(fs, recs, |recs|) <==> forall r :: r in recs ==> r.hashloc != -1
  {
    assert forall k :: 0 <= k < |recs| ==> (Missing(fs, recs, k) <==> recs[k].hashloc == -1);
  }

  /** CheckHashes keeps the fingers in order, and those it flagged are stored. */
  lemma CheckedAreReady(c: Codec, net: Network, s: ServerState, fs: seq<FingerValue>, data: Bytes)
    requires CollisionFree(c) && Honest(c, net) && StoreOk(c, s) && Hashed(c, fs) && Tile(fs, data)
    requires Checked(net, s, fs).1.Success?
    ensures var (s1, checked) := Checked(net, s, fs);
      StoreOk(c, s1) && SamePieces(fs, checked.value) && Prepared(c, checked.value)
      && FlaggedInPlace(checked.value, s1.store)
  {
    var s1, gs := Checked(net, s, fs).0, Checked(net, s, fs).1.value;
    assert CheckOutcome(net, s, fs, s1, gs, Success(()));
    TiledArePrepared(c, fs, data);
    AfterCheck(c, net, s, fs, s1, gs, Success(()));
    PreparedKept(c, fs, gs);
  }

  /** And WriteChunks puts all of them in place. */
  lemma WrittenAreReady(c: Codec, compress: bool, net: Network, s: ServerState, fs: seq<FingerValue>)
    requires Lossless(c) && CollisionFree(c) && Honest(c, net) && StoreOk(c, s)
    requires Prepared(c, fs) && FlaggedInPlace(fs, s.store) && Written(c, compress, net, s, fs).1.Success?
    ensures var (t, written) := Written(c, compress, net, s, fs);
      StoreOk(c, t) && SamePieces(fs, written.value) && InPlace(written.value, t.store)
  {
    var t, hs := Written(c, compress, net, s, fs).0, Written(c, compress, net, s, fs).1.value;
    assert WriteOutcome(c, compress, net, s, fs, t, hs, Success(())) by {
      hide Lossless, CollisionFree, Honest, StoreOk, Prepared, FlaggedInPlace;
    }
    AfterWrite(c, compress, net, s, fs, t, hs, Success(()));
  }

  /**
   * An attempt on a correct server succeeds exactly if every call it makes does: CheckHashes when there are
   * fingers, WriteChunks when some are new, with a location for each, and the position map's, if it can be marshalled.
   */
  lemma SendSucceedsIff(c: Codec, compress: bool, net: Network, s: ServerState, fs: seq<FingerValue>, data: Bytes,
      to: Target)
    requires Lossless(c) && CollisionFree(c) && Honest(c, net) && StoreOk(c, s) && Hashed(c, fs) && Tile(fs, data)
    ensures Exchange(c, compress, net, s, fs, to).1.Success? <==>
      && (fs == [] || net.check(s, HashesOf(fs)).1.Success?)
      && Checked(net, s, fs).1.Success?
      && var (s1, gs) := (Checked(net, s, fs).0, Checked(net, s, fs).1.value);
         var es := EntriesOf(c, compress, gs);
      && (es == [] || (net.write(s1, es).1.Success? && forall r :: r in net.write(s1, es).1.value ==> r.hashloc != -1))
      && Written(c, compress, net, s1, gs).1.Success?
      && var (s2, hs) := (Written(c, compress, net, s1, gs).0, Written(c, compress, net, s1, gs).1.value);
         var request := RequestOf(c, compress, SparseOf(hs, to.at, to.length), to.fileHandle, to.at, to.volumeID);
      && (compress ==> c.marshal(SparseOf(hs, to.at, to.length)).Some?)
      && request.Success? && net.sparse(s2, request.value).1.Success?
  {
    CheckedIff(c, net, s, fs);
    hide Lossless, CollisionFree, Honest, StoreOk, Hashed, Tile, Prepared, EntriesOf, Checked, Written, SparseOf,
        FlaggedInPlace, SamePieces;
    if Checked(net, s, fs).1.Success? {
      CheckedAreReady(c, net, s, fs, data);
      WrittenIff(c, compress, net, Checked(net, s, fs).0, Checked(net, s, fs).1.value);
    }
  }

  /** On a server that answers every call it always succeeds. */
  lemma AnsweredIsSent(c: Codec, compress: bool, net: Network, s: ServerState, fs: seq<FingerValue>, data: Bytes,
      to: Target)
    requires Lossless(c) && CollisionFree(c) && Honest(c, net) && StoreOk(c, s) && Hashed(c, fs) && Tile(fs, data)
    requires Answers(c, net) && (compress ==> forall m :: c.marshal(m).Some?)
    ensures Exchange(c, compress, net, s, fs, to).1 == Success(())
  {
    CheckedIff(c, net, s, fs);
    AnsweredCheck(c, net, s, HashesOf(fs));
    hide CollisionFree, Honest, StoreOk, Hashed, Tile, Prepared, Checked, Written, SparseOf, FlaggedInPlace,
        SamePieces, Answers, Lossless, RequestOf, InPlace;
    var s1, gs := Checked(net, s, fs).0, Checked(net, s, fs).1.value;
    CheckedAreReady(c, net, s, fs, data);
    WrittenIff(c, compress, net, s1, gs);
    AnsweredWrite(c, compress, net, s1, gs);
    WrittenAreReady(c, compress, net, s1, gs);
    var s2, hs := Written(c, compress, net, s1, gs).0, Written(c, compress, net, s1, gs).1.value;
    PiecesTile(fs, gs, hs, data);
    AnsweredMap(c, compress, net, s2, hs, data, to);
  }

  lemma AnsweredCheck(c: Codec, net: Network, s: ServerState, hashes: seq<Bytes>)
    requires Answers(c, net) && StoreOk(c, s)
    ensures net.check(s, hashes).1.Success?
  {
  }

  lemma AnsweredWrite(c: Codec, compress: bool, net: Network, s: ServerState, fs: seq<FingerValue>)
    requires Lossless(c) && Answers(c, net) && StoreOk(c, s) && Prepared(c, fs)
    ensures var es := EntriesOf(c, compress, fs);
      net.write(s, es).1.Success? && forall r :: r in net.write(s, es).1.value ==> r.hashloc != -1
  {
    EntriesWellFormed(c, compress, fs);
  }

  lemma AnsweredMap(c: Codec, compress: bool, net: Network, s: ServerState, fs: seq<FingerValue>, data: Bytes,
      to: Target)
    requires Lossless(c) && Answers(c, net) && StoreOk(c, s) && Tile(fs, data) && InPlace(fs, s.store)
    requires compress ==> forall m :: c.marshal(m).Some?
    ensures Mapped(c, compress, net, s, fs, to).1 == Success(())
  {
    var sdc := SparseOf(fs, to.at, to.length);
    RequestKeepsMap(c, compress, sdc, to.fileHandle, to.at, to.volumeID);
    PackedIff(c, compress, sdc, to.fileHandle, to.at, to.volumeID);
    ReadsBack(s.store, fs, data);
    hide RequestOf, Lossless, StoreOk, RequestContent;
    var request := RequestOf(c, compress, sdc, to.fileHandle, to.at, to.volumeID).value;
    assert RequestContent(c, request) == Some(sdc);
    assert net.sparse(s, request).1.Success? && net.sparse(s, request).1.value == ();
  }

  class Deduper {
    const codec: Codec
    const compress: bool
    const remote: Remote

    constructor (codec: Codec, compress: bool, remote: Remote)
      ensures this.codec == codec && this.compress == compress && this.remote == remote
    {
      this.codec, this.compress, this.remote := codec, compress, remote;
    }

    method CheckHashes(fingers: seq<Finger>) returns (r: Result<(), Error>)
      requires Distinct(fingers)
      modifies remote, fingers
      ensures CheckOutcome(remote.net, old(remote.state), old(Values(fingers)), remote.state, Values(fingers), r)
    {
      var hes, hm := GroupHashes(fingers);
      r := AskAndAssign(fingers, hes, hm);
    }

    /** The loop that collects the hashes and groups the fingers by them. */
    method GroupHashes(fingers: seq<Finger>) returns (hes: seq<Bytes>, hm: map<Bytes, seq<nat>>)
      ensures hes == HashesOf(Values(fingers)) && Groups(hm, Values(fingers), |fingers|)
    {
      hide Groups, GroupIn;
      ghost var fs := Values(fingers);
      hes, hm := [], map[];
      NoGroups(fs);
      for i := 0 to |fingers|
        invariant hes == HashesOf(fs)[..i] && Groups(hm, fs, i)
      {
        GroupsGrow(hm, fs, i);
        var h := fingers[i].hash;
        var val := GroupIn(hm, h);
        hm := hm[h := val + [i]];
        hes := hes + [h];
      }
    }

    /** The call, unless there is nothing to ask, and the loop over its reply. */
    method AskAndAssign(fingers: seq<Finger>, hes: seq<Bytes>, hm: map<Bytes, seq<nat>>)
        returns (r: Result<(), Error>)
      requires Distinct(fingers) && hes == HashesOf(Values(fingers)) && Groups(hm, Values(fingers), |fingers|)
      modifies remote, fingers
      ensures CheckOutcome(remote.net, old(remote.state), old(Values(fingers)), remote.state, Values(fingers), r)
    {
      hide Groups, Located;
      if |hes| > 0 {
        var reply := remote.CheckHashes(hes);
        match reply
        case Failure(e) => return Failure(e);
        case Success(locs) => r := AssignLocations(fingers, hes, hm, locs);
      } else {
        r := Success(());
      }
    }

    /** The loop over the reply's locations. */
    method AssignLocations(fingers: seq<Finger>, hes: seq<Bytes>, hm: map<Bytes, seq<nat>>, locs: seq<int>)
        returns (r: Result<(), Error>)
      requires Distinct(fingers) && hes == HashesOf(Values(fingers)) && Groups(hm, Values(fingers), |fingers|)
      modifies fingers
      ensures r == if |locs| <= |fingers| then Success(()) else Failure(OutOfRange)
      ensures Values(fingers) == Located(old(Values(fingers)), locs)
    {
      hide LocatedBy, Groups;
      ghost var fs := Values(fingers);
      NothingLocated(fs, locs);
      var i := 0;
      while i < |locs|
        invariant 0 <= i <= |locs| && i <= |fs|
        invariant Values(fingers) == LocatedBy(fs, locs, i)
      {
        if i >= |hes| {
          return Failure(OutOfRange);
        }
        var found := AssignEntry(fingers, hes[i], hm, locs, i, fs);
        if !found {
          return Failure(NotFound);
        }
        i := i + 1;
      }
      r := Success(());
    }

    /** One turn of it; the hash is always found. */
    method AssignEntry(fingers: seq<Finger>, h: Bytes, hm: map<Bytes, seq<nat>>, locs: seq<int>, i: nat,
        ghost fs: seq<FingerValue>) returns (found: bool)
      requires Distinct(fingers) && |fs| == |fingers| && i < |fs| && i < |locs| && h == fs[i].hash
      requires Groups(hm, fs, |fs|) && Values(fingers) == LocatedBy(fs, locs, i)
      modifies fingers
      ensures found && Values(fingers) == LocatedBy(fs, locs, i + 1)
    {
      hide LocatedBy, Groups, Group, GroupIn;
      GroupInIsGroup(hm, fs, |fs|, h);
      KeyIsFound(hm, h);
      found := h in hm;
      if found {
        AssignGroup(fingers, hm[h], locs, i, fs);
      }
    }

    /**
     * The inner loop: entry i of the reply is written to every finger of its group, and finger i's flag is tested
     * each time.
     */
    method AssignGroup(fingers: seq<Finger>, val: seq<nat>, locs: seq<int>, i: nat, ghost fs: seq<FingerValue>)
      requires Distinct(fingers) && |fs| == |fingers| && i < |fs| && i < |locs|
      requires Group(val, fs, |fs|, fs[i].hash)
      requires Values(fingers) == LocatedBy(fs, locs, i)
      modifies fingers
      ensures Values(fingers) == LocatedBy(fs, locs, i + 1)
    {
      hide LocatedBy, Grouped, Group, FoundBefore, LastWith, Flagged, Values;
      ghost var g := Values(fingers);
      ghost var before := FoundBefore(fs, locs, i);
      GroupFacts(fs, locs, i, val);
      for t := 0 to |val|
        invariant Values(fingers) == Grouped(g, i, locs[i], before, val, t)
      {
        GroupedNext(g, i, locs[i], before, val, t);
        Assign(fingers, val[t], i, locs[i]);
      }
    }

    /** The inner loop's body: the location goes to finger s, the test and the flag are finger i's. */
    method Assign(fingers: seq<Finger>, s: nat, i: nat, loc: int)
      requires Distinct(fingers) && s < |fingers| && i < |fingers|
      modifies fingers
      ensures Values(fingers) == Flagged(old(Values(fingers))[s := old(fingers[s].Value()).(archive := loc)], i)
    {
      fingers[s].archive := loc;
      assert Values(fingers) == old(Values(fingers))[s := old(fingers[s].Value()).(archive := loc)];
      if fingers[i].archive != -1 {
        fingers[i].dedup := true;
      }
    }

    method WriteChunks(fingers: seq<Finger>) returns (r: Result<(), Error>)
      requires Distinct(fingers)
      modifies remote, fingers
      ensures WriteOutcome(codec, compress, remote.net, old(remote.state), old(Values(fingers)), remote.state,
          Values(fingers), r)
    {
      ghost var fs := Values(fingers);
      var ces: seq<ChunkEntry> := [];
      var hl: seq<nat> := [];
      for i := 0 to |fingers|
        invariant hl == Unflagged(fs, i)
        invariant |ces| == |hl| && forall k :: 0 <= k < |hl| ==> ces[k] == EntryOf(codec, compress, fs[hl[k]])
      {
        if !fingers[i].dedup {
          var f := fingers[i];
          if compress && |f.data| > 10 {
            var buf := codec.compress(f.data);
            if buf.None? || |buf.value| > |f.data| {
              ces := ces + [ChunkEntry(f.hash, f.data, false, 0)];
            } else {
              ces := ces + [ChunkEntry(f.hash, buf.value, true, |f.data|)];
            }
          } else {
            ces := ces + [ChunkEntry(f.hash, f.data, false, 0)];
          }
          hl := hl + [i];
        }
      }
      assert ces == EntriesOf(codec, compress, fs);
      if |ces| > 0 {
        var reply := remote.WriteChunks(ces);
        match reply
        case Failure(e) => return Failure(e);
        case Success(recs) => r := AssignRecords(fingers, hl, recs);
      } else {
        r := Success(());
      }
    }

    /** The loop over the reply's records. */
    method AssignRecords(fingers: seq<Finger>, hl: seq<nat>, recs: seq<InsertRecord>) returns (r: Result<(), Error>)
      requires Distinct(fingers) && hl == Unflagged(Values(fingers), |fingers|)
      modifies fingers
      ensures RecordsHandled(old(Values(fingers)), recs, Values(fingers), r)
    {
      ghost var fs := Values(fingers);
      hide HandledTo, NoneMissing, Missing, StopsAt, Stored, Unflagged, Rank;
      NothingHandled(fs, recs);
      var i := 0;
      while i < |recs|
        invariant 0 <= i <= |recs| && i <= |hl| && HandledTo(fs, recs, Values(fingers), i)
      {
        if i >= |hl| {
          return Failure(OutOfRange);
        }
        HandledNext(fs, recs, Values(fingers), i);
        if !fingers[hl[i]].dedup {
          var missing := Record(fingers, hl[i], recs[i]);
          if missing {
            return Failure(MissingArchive);
          }
        }
        i := i + 1;
      }
      r := Success(());
    }

    method Record(fingers: seq<Finger>, z: nat, rec: InsertRecord) returns (missing: bool)
      requires Distinct(fingers) && z < |fingers|
      modifies fingers
      ensures Values(fingers) == old(Values(fingers))[z := Recorded(old(fingers[z].Value()), rec)]
      ensures missing <==> rec.hashloc == -1 && |fingers[z].data| > 0
    {
      fingers[z].archive := rec.hashloc;
      fingers[z].dedup := !rec.inserted;
      fingers[z].compressedLength := rec.compressedLength;
      missing := fingers[z].archive == -1 && |fingers[z].data| > 0;
    }

    method WriteSparseDataChunk(fingers: seq<Finger>, fileHandle: int, at: int, length: int, volumeID: int)
        returns (r: Result<(), Error>)
      modifies remote
      ensures Values(fingers) == old(Values(fingers))
      ensures match RequestOf(codec, compress, SparseOf(Values(fingers), at, length), fileHandle, at, volumeID)
              case Failure(e) => r == Failure(e) && remote.state == old(remote.state)
              case Success(request) => (remote.state, r) == remote.net.sparse(old(remote.state), request)
    {
      ghost var fs := Values(fingers);
      var pairs: map<int, HashLocPair> := map[];
      var dup := 0;
      var cl := 0;
      for i := 0 to |fingers|
        invariant pairs == PairsOf(fs, i) && dup == DoopOf(fs, i) && cl == CompressedSum(fs, i)
      {
        var f := fingers[i];
        pairs := pairs[f.start := HashLocPair(f.hash, f.archive, f.len, f.start, f.dedup, !f.dedup, f.len, 0)];
        if f.dedup {
          dup := Int32(dup + Int32(f.len));
        }
        cl := Int32(cl + f.compressedLength);
      }
      var sdc := SparseDataChunk(at, length, pairs, dup, cl);
      var request := Plain(sdc, fileHandle, at, volumeID);
      if compress {
        var out := codec.marshal(sdc);
        if out.None? {
          return Failure(Marshalling);
        }
        var chunk := codec.compress(out.value);
        if chunk.Some? {
          request := Packed(chunk.value, |out.value|, fileHandle, at, volumeID);
        }
      }
      r := remote.WriteSparseDataChunk(request);
    }

    /** The loop that cuts buffer[:limit] into fingers. */
    method Cut(buffer: array<byte>, limit: int, cuts: seq<Next>) returns (r: Result<seq<Finger>, Error>)
      requires 0 <= limit <= buffer.Length && limit < TWO_TO_THE_31 && ChunkerOk(cuts, 0, limit)
      ensures r.Failure? <==> ChunkerFails(cuts)
      ensures r.Failure? ==> r.error == Chunking
      ensures r.Success? ==> Values(r.value) == FingersFrom(buffer[..limit], 0, cuts)
      ensures r.Success? ==>
                && fresh(r.value) && Distinct(r.value)
                && Tile(Values(r.value), buffer[..limit])
                && forall i :: 0 <= i < |r.value| ==> !r.value[i].dedup
    {
      hide Tile, ChunkerOk, ChunkerFails, FingersFrom;
      ghost var data := buffer[..limit];
      var fingers: seq<Finger> := [];
      var nextPos := 0;
      var i := 0;
      assert cuts[0..] == cuts;
      while i < |cuts| && !cuts[i].err.Eof? && cuts[i].len != 0
        invariant 0 <= i <= |cuts| && 0 <= nextPos <= limit
        invariant ChunkerOk(cuts[i..], nextPos, limit) && ChunkerFails(cuts[i..]) == ChunkerFails(cuts)
        invariant fresh(fingers) && Distinct(fingers)
        invariant !ChunkerFails(cuts) ==>
                    Values(fingers) + FingersFrom(data, nextPos, cuts[i..]) == FingersFrom(data, 0, cuts)
      {
        NextCut(cuts, i, nextPos, limit);
        if cuts[i].err.OtherError? {
          return Failure(Chunking);
        }
        if !ChunkerFails(cuts) { NextFinger(data, cuts, i, nextPos); }
        var finger := CutOne(buffer, limit, nextPos, cuts[i].len);
        ValuesMore(fingers, finger);
        fingers := fingers + [finger];
        nextPos := Int32(nextPos + Int32(cuts[i].len));
        i := i + 1;
      }
      LastCut(cuts, i, nextPos, limit);
      NoMoreFingers(data, cuts, i, nextPos);
      AllCut(fingers, data, cuts);
      r := Success(fingers);
    }

    method CutOne(buffer: array<byte>, limit: int, nextPos: int, len: int) returns (finger: Finger)
      requires 0 <= nextPos < nextPos + len <= limit <= buffer.Length && limit < TWO_TO_THE_31
      ensures fresh(finger)
      ensures finger.Value() == FingerValue([], buffer[..limit][nextPos..nextPos + len], nextPos, len, false, 0, 0)
    {
      var er := Int32(nextPos + Int32(len));
      finger := new Finger(buffer[nextPos..er], nextPos, len);
      assert buffer[nextPos..er] == buffer[..limit][nextPos..nextPos + len];
    }

    /** The hash pool's jobs. */
    method HashAll(fingers: seq<Finger>, ghost data: Bytes)
      requires Distinct(fingers) && Tile(Values(fingers), data) && forall i :: 0 <= i < |fingers| ==>
          !fingers[i].dedup
      modifies fingers
      ensures Hashed(codec, Values(fingers)) && Tile(Values(fingers), data)
      ensures Values(fingers) == HashedBy(codec, old(Values(fingers)))
    {
      hide Tile;
      ghost var fs := Values(fingers);
      for i := 0 to |fingers|
        invariant forall k :: 0 <= k < |fingers| ==>
                    fingers[k].Value() == if k < i then fs[k].(hash := codec.hash(fingers[k].data)) else fs[k]
      {
        fingers[i].hash := codec.hash(fingers[i].data);
      }
      TileKept(fs, Values(fingers), data);
    }

    /**
     * The three exchanges of one attempt, for the file that the handle was given out for.  An attempt that
     * fails leaves every block of it as it was, or as a success leaves it; other files never change.
     */
    method Send(fingers: seq<Finger>, fileHandle: int, at: int, length: int, volumeID: int, ghost data: Bytes)
        returns (r: Result<(), Error>)
      requires Distinct(fingers) && Hashed(codec, Values(fingers)) && Tile(Values(fingers), data)
      requires Lossless(codec) && CollisionFree(codec) && Honest(codec, remote.net) && StoreOk(codec, remote.state)
      modifies remote, fingers
      ensures (remote.state, r) == Exchange(codec, compress, remote.net, old(remote.state), old(Values(fingers)),
          Target(fileHandle, at, length, volumeID))
      ensures StoreOk(codec, remote.state) && Grows(old(remote.state), remote.state)
      ensures var file := remote.net.owner(fileHandle, volumeID);
        && OthersKept(old(remote.state), remote.state, file)
        && (Blocks(remote.state, file) == Blocks(old(remote.state), file)[at := data]
            || (r.Failure? && Blocks(remote.state, file) == Blocks(old(remote.state), file)))
    {
      hide Lossless, CollisionFree, Honest, StoreOk, Grows, Blocks, Hashed, Tile, Prepared, SamePieces,
          FlaggedInPlace, InPlace;
      hide CheckOutcome, WriteOutcome, RequestOf, SparseOf, Checked, Written;
      ghost var fs, s0 := Values(fingers), remote.state;
      TiledArePrepared(codec, fs, data);
      r := CheckHashes(fingers);
      ghost var gs, s1 := Values(fingers), remote.state;
      AfterCheck(codec, remote.net, s0, fs, s1, gs, r);
      CheckedIs(remote.net, s0, fs, s1, gs, r);
      if r.Failure? {
        return;
      }
      PreparedKept(codec, fs, gs);
      r := WriteChunks(fingers);
      ghost var hs, s2 := Values(fingers), remote.state;
      AfterWrite(codec, compress, remote.net, s1, gs, s2, hs, r);
      WrittenIs(codec, compress, remote.net, s1, gs, s2, hs, r);
      GrowsTwice(s0, s1, s2);
      if r.Failure? {
        return;
      }
      PiecesTile(fs, gs, hs, data);
      r := WriteSparseDataChunk(fingers, fileHandle, at, length, volumeID);
      ghost var request := RequestOf(codec, compress, SparseOf(hs, at, length), fileHandle, at, volumeID);
      if request.Success? {
        RequestKeepsMap(codec, compress, SparseOf(hs, at, length), fileHandle, at, volumeID);
        MapWritten(codec, compress, remote.net, s2, hs, data, request.value, length);
        GrowsTwice(s0, s2, remote.state);
      }
    }
  }

  lemma ValuesMore(fingers: seq<Finger>, finger: Finger)
    ensures Values(fingers + [finger]) == Values(fingers) + [finger.Value()]
  {
  }

  lemma AllCut(fingers: seq<Finger>, data: Bytes, cuts: seq<Next>)
    requires ChunkerOk(cuts, 0, |data|) && !ChunkerFails(cuts)
    requires Values(fingers) + [] == FingersFrom(data, 0, cuts)
    ensures Values(fingers) == FingersFrom(data, 0, cuts) && Tile(Values(fingers), data)
    ensures forall k :: 0 <= k < |fingers| ==> !fingers[k].dedup
  {
    CutsTile(data, cuts);
    hide ChunkerOk, ChunkerFails, FingersFrom, Tile;
    assert Values(fingers) + [] == Values(fingers);
    forall k | 0 <= k < |fingers| ensures !fingers[k].dedup {
      assert Values(fingers)[k] in FingersFrom(data, 0, cuts);
    }
  }

  lemma TiledArePrepared(c: Codec, fs: seq<FingerValue>, data: Bytes)
    requires Hashed(c, fs) && Tile(fs, data)
    ensures Prepared(c, fs)
  {
    TilesNonEmpty(fs, data);
  }

  lemma PreparedKept(c: Codec, fs: seq<FingerValue>, gs: seq<FingerValue>)
    requires Prepared(c, fs) && SamePieces(fs, gs)
    ensures Prepared(c, gs)
  {
  }

  lemma PiecesTile(fs: seq<FingerValue>, gs: seq<FingerValue>, hs: seq<FingerValue>, data: Bytes)
    requires Tile(fs, data) && SamePieces(fs, gs) && SamePieces(gs, hs)
    ensures Tile(hs, data)
  {
    TileKept(fs, hs, data);
  }

  lemma GrowsTwice(s: ServerState, t: ServerState, u: ServerState)
    requires Grows(s, t) && Grows(t, u)
    ensures Grows(s, u)
  {
  }
}

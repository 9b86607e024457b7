/**
 * Contiguous ascending writes from the start of a new file, with Syncs anywhere among them: whenever a Sync
 * returns nil, the server has exactly the bytes written so far, block by block.  Nothing is assumed of
 * the schedule but that no attempt fails: that no job is stale, no dropped block rewritten, no buffer
 * evicted under test and no limit read too early all follow from the order in which the cache evicts and
 * from Sync's wait for its own jobs.
 */
module SequentialUpload {
  import opened Bytes
  import opened FileMachine
  import opened FileInvariants
  import opened NoLostBuffer
  import opened ViewRefinement

  ghost predicate Aligned(chunkSize: int, off: int)
    requires chunkSize > 0
  {
    off >= 0 && BlockOf(chunkSize, off) == off
  }

  lemma BlockOfIsAligned(chunkSize: int, pos: int)
    requires chunkSize > 0 && pos >= 0
    ensures Aligned(chunkSize, BlockOf(chunkSize, pos))
  {
    BlockOfUnique(chunkSize, BlockOf(chunkSize, pos), pos / chunkSize);
  }

  /** The next position is in the same block, or it starts the next one. */
  lemma NextBlock(chunkSize: int, pos: int)
    requires chunkSize > 0 && pos > 0
    ensures var top := BlockOf(chunkSize, pos - 1);
      if pos < top + chunkSize then BlockOf(chunkSize, pos) == top
      else BlockOf(chunkSize, pos) == pos == top + chunkSize
  {
    var k := (pos - 1) / chunkSize;
    if pos < k * chunkSize + chunkSize {
      BlockOfUnique(chunkSize, pos, k);
    } else {
      assert (k + 1) * chunkSize == k * chunkSize + chunkSize;
      BlockOfUnique(chunkSize, pos, k + 1);
    }
  }

  lemma BlocksApart(chunkSize: int, a: int, b: int)
    requires chunkSize > 0 && Aligned(chunkSize, a) && Aligned(chunkSize, b) && a <= b < a + chunkSize
    ensures a == b
  {
    BlockOfUnique(chunkSize, b, a / chunkSize);
  }

  lemma LastBlockIs(chunkSize: int, off: int, pos: int)
    requires chunkSize > 0 && Aligned(chunkSize, off) && off <= pos < off + chunkSize
    ensures BlockOf(chunkSize, pos) == off
  {
    BlockOfUnique(chunkSize, pos, off / chunkSize);
  }

  function Min(a: int, b: int): int {
    if a <= b then a else b
  }

  // ----- The invariant -----

  /** How far the buffer's block is filled once the client has finished the piece at hand. */
  function Filled<Id>(s: State<Id>, b: Id, src: Bytes): int
    requires b in s.bufs
  {
    Min(s.chunkSize, |src| - s.bufs[b].offset)
  }

  ghost predicate Working<Id>(s: State<Id>, b: Id) {
    (s.client.Located? || s.client.Copied?) && s.client.buf == b
  }

  /** Where the source's bytes already stand in the buffer. */
  ghost function Present<Id>(s: State<Id>, b: Id, src: Bytes): int
    requires b in s.bufs
  {
    if s.client.Located? && s.client.buf == b then s.client.at else Filled(s, b, src)
  }

  ghost predicate BlocksOfSource<Id>(s: State<Id>, src: Bytes)
    requires s.chunkSize > 0
  {
    && (forall b :: b in s.bufs ==> Aligned(s.chunkSize, s.bufs[b].offset) && s.bufs[b].offset < |src|)
    && (forall b, c :: b in s.bufs && c in s.bufs && s.bufs[b].offset == s.bufs[c].offset ==> b == c)
  }

  ghost predicate HasBlock<Id>(s: State<Id>, off: int) {
    exists b :: b in s.bufs && s.bufs[b].offset == off
  }

  ghost predicate SourceCovered<Id>(s: State<Id>, src: Bytes)
    requires s.chunkSize > 0
  {
    forall p :: 0 <= p < |src| ==> HasBlock(s, BlockOf(s.chunkSize, p))
  }

  ghost predicate BytesOfSource<Id>(s: State<Id>, src: Bytes) {
    forall b :: b in s.bufs && 0 <= s.bufs[b].offset < |src| ==>
      && Present(s, b, src) <= |s.bufs[b].data| && s.bufs[b].offset + Present(s, b, src) <= |src|
      && (forall k :: 0 <= k < Present(s, b, src) ==> s.bufs[b].data[k] == src[s.bufs[b].offset + k])
      && (!Working(s, b) ==> s.bufs[b].limit == Filled(s, b, src))
  }

  /** The piece at hand is the end of the source, in the last block. */
  ghost predicate PieceAtEnd<Id>(s: State<Id>, src: Bytes) {
    match s.client
    case Located(b, at, bytes) =>
      && b in s.bufs && at == s.bufs[b].limit && s.bufs[b].offset >= 0 && at >= 0
      && s.bufs[b].offset + at + |bytes| == |src| && at + |bytes| <= s.chunkSize
      && bytes == src[s.bufs[b].offset + at..]
    case Copied(b, end) =>
      b in s.bufs && s.bufs[b].offset + end == |src| && s.bufs[b].limit <= end <= s.chunkSize
    case _ => true
  }

  ghost predicate ServerHasSent<Id>(s: State<Id>) {
    && (forall off :: off in s.server ==> HasBlock(s, off))
    && (forall b :: b in s.bufs ==>
          (s.bufs[b].offset in s.server <==> s.bufs[b].sent.Some?)
          && (s.bufs[b].sent.Some? && s.bufs[b].offset in s.server ==>
              s.server[s.bufs[b].offset] == s.bufs[b].sent.value))
  }

  ghost predicate Image<Id>(s: State<Id>, src: Bytes) {
    && s.chunkSize > 0
    && BlocksOfSource(s, src) && SourceCovered(s, src) && BytesOfSource(s, src) && PieceAtEnd(s, src)
        && ServerHasSent(s)
  }

  /** Only Sync's own jobs are outstanding on cached buffers, and only until that Sync ends. */
  ghost predicate CachedIsFree<Id>(s: State<Id>) {
    forall j :: Outstanding(s, j) && s.jobs[j].buf in s.cache ==> s.client.Syncing? && s.jobs[j].sync
  }

  /** Sync's Get calls rotate the cache: what is still to be submitted comes first, the most recent buffer last. */
  ghost function Top<Id>(s: State<Id>): Id
    requires s.cache != []
  {
    if s.client.Syncing? && s.client.todo != [] then s.client.todo[|s.client.todo| - 1] else s.cache[|s.cache| - 1]
  }

  ghost predicate LastBlockOnTop<Id>(s: State<Id>, src: Bytes)
    requires s.chunkSize > 0
  {
    && (s.client.Syncing? ==> s.client.todo <= s.cache)
    && (|src| > 0 ==>
          && s.cache != [] && Top(s) in s.cache && Top(s) in s.bufs
          && s.bufs[Top(s)].offset == BlockOf(s.chunkSize, |src| - 1))
  }

  ghost predicate Ascending<Id>(s: State<Id>, src: Bytes) {
    Image(s, src) && CachedIsFree(s) && LastBlockOnTop(s, src)
  }

  // ----- The steps -----

  /** Any step but a failed attempt; a write goes to the end of what was written before. */
  ghost predicate InOrder<Id>(s: State<Id>, step: Step<Id>, src: Bytes) {
    Enabled(s, step) && NoFailedAttempt(step) && (step.Locate? ==> step.pos == |src|)
  }

  ghost function Grown<Id>(src: Bytes, step: Step<Id>): Bytes {
    if step.Locate? then src + step.bytes else src
  }

  lemma TopIsHit<Id>(s: State<Id>, src: Bytes)
    requires Inv(s) && Ascending(s, src) && |src| > 0 && s.client.Idle?
    ensures var top := s.cache[|s.cache| - 1];
      Peek(s.cache, s.bufs, BlockOf(s.chunkSize, |src| - 1)) == Some(top)
  {
    PeekFinds(s.cache, s.bufs, s.cache[|s.cache| - 1]);
  }

  /** A write in order finds its block on top of the cache, or starts a block that has no buffer yet. */
  lemma InOrderLocate<Id>(s: State<Id>, step: Step<Id>, src: Bytes)
    requires Inv(s) && Ascending(s, src) && InOrder(s, step, src) && step.Locate?
    ensures var off := BlockOf(s.chunkSize, |src|);
      if |src| > 0 && |src| < BlockOf(s.chunkSize, |src| - 1) + s.chunkSize
      then Peek(s.cache, s.bufs, off) == Some(s.cache[|s.cache| - 1])
      else
        off == |src| && !HasBlock(s, off) && off !in s.flushing && off !in s.server &&
        Peek(s.cache, s.bufs, off).None?
  {
    var off := BlockOf(s.chunkSize, |src|);
    if |src| > 0 {
      NextBlock(s.chunkSize, |src|);
      TopIsHit(s, src);
    } else {
      BlockOfUnique(s.chunkSize, 0, 0);
    }
    if off == |src| {
      assert forall b :: b in s.bufs ==> s.bufs[b].offset != off;
    }
  }

  lemma InOrderIsExact<Id>(s: State<Id>, step: Step<Id>, src: Bytes)
    requires Inv(s) && Ascending(s, src) && InOrder(s, step, src)
    ensures Exact(s, step)
  {
    hide BlockOf, Aligned, SourceCovered, HasBlock, BlocksOfSource, BytesOfSource, PieceAtEnd, ServerHasSent;
    if step.Locate? {
      InOrderLocate(s, step, src);
      IdleIsFree(s);
      assert forall j :: 0 <= j < |s.jobs| && s.jobs[j].phase.Holding? ==> Outstanding(s, j);
    }
    if step.Start? {
      assert Outstanding(s, step.job);
    }
  }

  lemma BlocksBelow(chunkSize: int, a: int, b: int)
    requires chunkSize > 0 && Aligned(chunkSize, a) && Aligned(chunkSize, b) && a < b
    ensures a + chunkSize <= b
  {
    if b < a + chunkSize {
      BlocksApart(chunkSize, a, b);
    }
  }

  /** All blocks but the last one are full, and stay as they are when the source grows. */
  lemma OthersAreFull<Id>(s: State<Id>, src: Bytes, b: Id)
    requires s.chunkSize > 0 && BlocksOfSource(s, src) && b in s.bufs
    requires s.bufs[b].offset != BlockOf(s.chunkSize, |src| - 1)
    ensures s.bufs[b].offset + s.chunkSize <= BlockOf(s.chunkSize, |src| - 1)
  {
    var top := BlockOf(s.chunkSize, |src| - 1);
    BlockOfIsAligned(s.chunkSize, |src| - 1);
    if s.bufs[b].offset < top {
      BlocksBelow(s.chunkSize, s.bufs[b].offset, top);
    } else {
      BlocksBelow(s.chunkSize, top, s.bufs[b].offset);
    }
  }

  lemma SameBlock<Id>(s: State<Id>, step: Step<Id>, p: int)
    requires Enabled(s, step) && step.Locate? && step.pos <= p < step.pos + |step.bytes|
    ensures BlockOf(s.chunkSize, p) == BlockOf(s.chunkSize, step.pos)
  {
    assert Covers(step, p);
    PieceStaysInItsBlock(s, step, p);
  }

  lemma GrownEnd<Id>(s: State<Id>, step: Step<Id>, src: Bytes)
    requires InOrder(s, step, src) && step.Locate?
    ensures step.bytes != [] && step.spare !in s.bufs
    ensures s.chunkSize > 0 && BlockOf(s.chunkSize, |src + step.bytes| - 1) == BlockOf(s.chunkSize, |src|)
  {
    SameBlock(s, step, |src + step.bytes| - 1);
  }

  lemma CoverGrows<Id>(s: State<Id>, step: Step<Id>, src: Bytes, t: State<Id>)
    requires Enabled(s, step) && step.Locate? && step.pos == |src| && SourceCovered(s, src)
    requires t.chunkSize == s.chunkSize && HasBlock(t, BlockOf(s.chunkSize, |src|))
    requires forall b :: b in s.bufs ==> b in t.bufs && t.bufs[b].offset == s.bufs[b].offset
    ensures SourceCovered(t, src + step.bytes)
  {
    forall p | 0 <= p < |src + step.bytes| ensures HasBlock(t, BlockOf(t.chunkSize, p)) {
      if p < |src| {
        assert HasBlock(s, BlockOf(s.chunkSize, p));
        var b :| b in s.bufs && s.bufs[b].offset == BlockOf(s.chunkSize, p);
        assert b in t.bufs && t.bufs[b].offset == BlockOf(s.chunkSize, p);
      } else {
        SameBlock(s, step, p);
      }
    }
  }

  lemma BlockHere<Id>(s: State<Id>, b: Id)
    requires b in s.bufs
    ensures HasBlock(s, s.bufs[b].offset)
  {
  }

  lemma MoreBlocks<Id>(s: State<Id>, t: State<Id>)
    requires forall b :: b in s.bufs ==> b in t.bufs && t.bufs[b].offset == s.bufs[b].offset
    ensures forall off :: HasBlock(s, off) ==> HasBlock(t, off)
  {
    forall off | HasBlock(s, off) ensures HasBlock(t, off) {
      var b :| b in s.bufs && s.bufs[b].offset == off;
      assert t.bufs[b].offset == off;
    }
  }

  /** The parts of Image that only depend on which blocks there are. */
  lemma CoverFrame<Id>(s: State<Id>, t: State<Id>, src: Bytes)
    requires s.chunkSize > 0 && t.chunkSize == s.chunkSize && t.bufs.Keys == s.bufs.Keys
    requires forall b :: b in s.bufs ==> t.bufs[b].offset == s.bufs[b].offset
    requires BlocksOfSource(s, src) && SourceCovered(s, src)
    ensures BlocksOfSource(t, src) && SourceCovered(t, src)
  {
    hide BlockOf;
    MoreBlocks(s, t);
  }

  /** The parts of Image that only depend on which blocks there are and what was sent of them. */
  lemma BlocksFrame<Id>(s: State<Id>, t: State<Id>, src: Bytes)
    requires s.chunkSize > 0 && t.chunkSize == s.chunkSize && t.bufs.Keys == s.bufs.Keys && t.server == s.server
    requires forall b :: b in s.bufs ==> t.bufs[b].offset == s.bufs[b].offset && t.bufs[b].sent == s.bufs[b].sent
    requires BlocksOfSource(s, src) && SourceCovered(s, src) && ServerHasSent(s)
    ensures BlocksOfSource(t, src) && SourceCovered(t, src) && ServerHasSent(t)
  {
    CoverFrame(s, t, src);
    MoreBlocks(s, t);
  }

  lemma HitBytes<Id>(s: State<Id>, src: Bytes, top: Id, bytes: Bytes)
    requires Inv(s) && Image(s, src) && s.client.Idle? && top in s.bufs && |src| > 0
    requires s.bufs[top].offset == BlockOf(s.chunkSize, |src| - 1) && |src| < s.bufs[top].offset + s.chunkSize
    requires |src| - s.bufs[top].offset + |bytes| <= s.chunkSize
    ensures var t := s.(client := Located(top, |src| - s.bufs[top].offset, bytes));
      BytesOfSource(t, src + bytes) && PieceAtEnd(t, src + bytes)
  {
    hide BlockOf, Aligned, SourceCovered, HasBlock;
    var more := src + bytes;
    var t := s.(client := Located(top, |src| - s.bufs[top].offset, bytes));
    assert more[s.bufs[top].offset + (|src| - s.bufs[top].offset)..] == bytes;
    forall b | b in s.bufs && b != top
      ensures s.bufs[b].offset + s.chunkSize <= |src|
    {
      OthersAreFull(s, src, b);
    }
  }

  lemma HitEffect<Id>(s: State<Id>, step: Step<Id>, src: Bytes)
    requires Inv(s) && Ascending(s, src) && InOrder(s, step, src) && step.Locate?
    requires |src| > 0 && |src| < BlockOf(s.chunkSize, |src| - 1) + s.chunkSize
    ensures var top := s.cache[|s.cache| - 1];
      && Apply(s, step) == s.(client := Located(top, |src| - s.bufs[top].offset, step.bytes))
      && BlockOf(s.chunkSize, |src|) == s.bufs[top].offset == BlockOf(s.chunkSize, |src| - 1)
      && |src| - s.bufs[top].offset + |step.bytes| <= s.chunkSize
  {
    InOrderLocate(s, step, src);
    NextBlock(s.chunkSize, |src|);
    hide Core, Image, CachedIsFree;
  }

  lemma BlocksOfMore<Id>(s: State<Id>, src: Bytes, more: Bytes)
    requires s.chunkSize > 0 && BlocksOfSource(s, src) && |src| <= |more|
    ensures BlocksOfSource(s, more)
  {
  }

  lemma HitImage<Id>(s: State<Id>, step: Step<Id>, src: Bytes, top: Id)
    requires Inv(s) && Image(s, src) && InOrder(s, step, src) && step.Locate? && |src| > 0 && top in s.bufs
    requires BlockOf(s.chunkSize, |src|) == s.bufs[top].offset == BlockOf(s.chunkSize, |src| - 1)
    requires |src| - s.bufs[top].offset + |step.bytes| <= s.chunkSize
    ensures Image(s.(client := Located(top, |src| - s.bufs[top].offset, step.bytes)), src + step.bytes)
  {
    var t := s.(client := Located(top, |src| - s.bufs[top].offset, step.bytes));
    assert s.client.Idle?;
    hide Enabled, BlockOf, Aligned, SourceCovered, HasBlock, Core;
    BlocksFrame(s, t, src);
    BlocksOfMore(t, src, src + step.bytes);
    BlockHere(t, top);
    CoverGrows(s, step, src, t);
    HitBytes(s, src, top, step.bytes);
    hide BlocksOfSource, ServerHasSent, BytesOfSource, PieceAtEnd;
  }

  /** No job is outstanding on a cached buffer. */
  ghost predicate AllFree<Id>(s: State<Id>) {
    forall j :: Outstanding(s, j) ==> s.jobs[j].buf !in s.cache
  }

  lemma IdleIsFree<Id>(s: State<Id>)
    requires CachedIsFree(s) && !s.client.Syncing?
    ensures AllFree(s)
  {
  }

  lemma TopOfIdle<Id>(s: State<Id>, src: Bytes)
    requires s.chunkSize > 0 && LastBlockOnTop(s, src) && !s.client.Syncing? && |src| > 0
    ensures s.cache != [] && s.cache[|s.cache| - 1] in s.bufs
    ensures s.bufs[s.cache[|s.cache| - 1]].offset == BlockOf(s.chunkSize, |src| - 1)
  {
    hide BlockOf;
  }

  /** A file that differs from a free one in its client only, and has the last block on top. */
  lemma Assemble<Id>(s: State<Id>, t: State<Id>, src: Bytes)
    requires AllFree(s) && t == s.(client := t.client) && !t.client.Syncing? && Image(t, src)
    requires t.cache != [] && t.cache[|t.cache| - 1] in t.bufs
    requires |src| > 0 && t.bufs[t.cache[|t.cache| - 1]].offset == BlockOf(t.chunkSize, |src| - 1)
    ensures Ascending(t, src)
  {
    hide Image, BlockOf;
    assert forall j :: Outstanding(t, j) ==> Outstanding(s, j);
  }

  lemma HitIsFree<Id>(s: State<Id>, step: Step<Id>, src: Bytes)
    requires Ascending(s, src) && InOrder(s, step, src) && step.Locate? && |src| > 0
    ensures Enabled(s, step) && Image(s, src) && s.chunkSize > 0 && AllFree(s) && s.cache != []
    ensures s.cache[|s.cache| - 1] in s.bufs
    ensures s.bufs[s.cache[|s.cache| - 1]].offset == BlockOf(s.chunkSize, |src| - 1)
  {
    IdleIsFree(s);
    TopOfIdle(s, src);
    hide Image, BlockOf, LastBlockOnTop, CachedIsFree, AllFree;
  }

  lemma HitAscending<Id>(s: State<Id>, step: Step<Id>, src: Bytes)
    requires Inv(s) && Ascending(s, src) && InOrder(s, step, src) && step.Locate?
    requires |src| > 0 && |src| < BlockOf(s.chunkSize, |src| - 1) + s.chunkSize
    ensures Ascending(Apply(s, step), src + step.bytes)
  {
    hide Inv, Enabled, Apply, BlockOf, Image, Ascending, AllFree, InOrder;
    HitIsFree(s, step, src);
    HitEffect(s, step, src);
    HitImage(s, step, src, s.cache[|s.cache| - 1]);
    GrownEnd(s, step, src);
    Assemble(s, Apply(s, step), src + step.bytes);
  }

  /** The top stays where a step leaves the cache, the blocks and, during a Sync, what it has still to submit. */
  lemma TopFrame<Id>(s: State<Id>, t: State<Id>, src: Bytes)
    requires s.chunkSize > 0 && LastBlockOnTop(s, src) && t.cache == s.cache && t.chunkSize == s.chunkSize
    requires t.client == s.client || (!t.client.Syncing? && !s.client.Syncing?)
    requires t.bufs.Keys == s.bufs.Keys && forall b :: b in s.bufs ==> t.bufs[b].offset == s.bufs[b].offset
    ensures LastBlockOnTop(t, src)
  {
    hide BlockOf;
  }

  lemma NewBlockBytes<Id>(s: State<Id>, src: Bytes, bytes: Bytes, spare: Id, t: State<Id>)
    requires Inv(s) && Image(s, src) && s.client.Idle? && spare !in s.bufs && bytes != [] && |bytes| <= s.chunkSize
    requires Aligned(s.chunkSize, |src|)
    requires t.chunkSize == s.chunkSize && t.client == Located(spare, 0, bytes)
    requires t.bufs.Keys == s.bufs.Keys + {spare}
    requires forall b :: b in s.bufs ==> t.bufs[b] == s.bufs[b].(flushing := t.bufs[b].flushing)
    requires t.bufs[spare] == Buf(|src|, Zeros(s.chunkSize), 0, false, false, None)
    ensures BytesOfSource(t, src + bytes) && PieceAtEnd(t, src + bytes)
  {
    hide BlockOf, Aligned, SourceCovered, HasBlock;
    var more := src + bytes;
    assert more[|src|..] == bytes;
    forall b | b in s.bufs ensures s.bufs[b].offset + s.chunkSize <= |src| {
      BlocksBelow(s.chunkSize, s.bufs[b].offset, |src|);
    }
  }

  lemma NewBlockImage<Id>(s: State<Id>, step: Step<Id>, src: Bytes, t: State<Id>)
    requires Inv(s) && Ascending(s, src) && InOrder(s, step, src) && step.Locate?
    requires |src| == 0 || |src| == BlockOf(s.chunkSize, |src| - 1) + s.chunkSize
    requires t.chunkSize == s.chunkSize && t.server == s.server && t.client == Located(step.spare, 0, step.bytes)
    requires t.bufs.Keys == s.bufs.Keys + {step.spare}
    requires forall b :: b in s.bufs ==> t.bufs[b] == s.bufs[b].(flushing := t.bufs[b].flushing)
    requires t.bufs[step.spare] == Buf(|src|, Zeros(s.chunkSize), 0, false, false, None)
    ensures Image(t, src + step.bytes)
  {
    hide BlockOf, Aligned, SourceCovered, HasBlock;
    InOrderLocate(s, step, src);
    BlockOfIsAligned(s.chunkSize, |src|);
    BlockHere(t, step.spare);
    CoverGrows(s, step, src, t);
    NewBlockBytes(s, src, step.bytes, step.spare, t);
    MoreBlocks(s, t);
    hide Core, Enabled, BytesOfSource, SourceCovered;
  }

  lemma NewBlockEffect<Id>(s: State<Id>, step: Step<Id>, src: Bytes)
    requires Inv(s) && Ascending(s, src) && InOrder(s, step, src) && step.Locate?
    requires |src| == 0 || |src| == BlockOf(s.chunkSize, |src| - 1) + s.chunkSize
    ensures BlockOf(s.chunkSize, |src|) == |src|
    ensures var t := Apply(s, step);
      && t == CacheAdd(WithNewBuffer(s, |src|, step.spare), step.spare).(client := Located(step.spare, 0, step.bytes))
      && t.chunkSize == s.chunkSize && t.server == s.server && t.bufs.Keys == s.bufs.Keys + {step.spare}
      && (forall b :: b in s.bufs ==> t.bufs[b] == s.bufs[b].(flushing := t.bufs[b].flushing))
      && t.bufs[step.spare] == Buf(|src|, Zeros(s.chunkSize), 0, false, false, None)
  {
    hide Inv, Ascending, BlockOf;
    InOrderLocate(s, step, src);
    LocateIs(s, step);
    hide Enabled, Apply;
    CacheAddBufs(WithNewBuffer(s, |src|, step.spare), step.spare);
    hide CacheAdd, WellFormed;
  }

  lemma NewBlockAscending<Id>(s: State<Id>, step: Step<Id>, src: Bytes)
    requires Inv(s) && Ascending(s, src) && InOrder(s, step, src) && step.Locate?
    requires |src| == 0 || |src| == BlockOf(s.chunkSize, |src| - 1) + s.chunkSize
    ensures Ascending(Apply(s, step), src + step.bytes)
  {
    hide Inv, Enabled, Apply, BlockOf, Image, Ascending, CacheAdd, AllFree, InOrder;
    NewBlockIsFree(s, step, src);
    GrownEnd(s, step, src);
    NewBlockEffect(s, step, src);
    NewBlockImage(s, step, src, Apply(s, step));
    Assemble(CacheAdd(WithNewBuffer(s, |src|, step.spare), step.spare), Apply(s, step), src + step.bytes);
  }

  lemma NewBlockIsFree<Id>(s: State<Id>, step: Step<Id>, src: Bytes)
    requires Inv(s) && Ascending(s, src) && InOrder(s, step, src) && step.Locate?
    ensures Enabled(s, step) && WellFormed(s) && s.chunkSize > 0 && step.spare !in s.bufs && |src + step.bytes| > 0
    ensures var t := CacheAdd(WithNewBuffer(s, |src|, step.spare), step.spare);
      && AllFree(t) && t.cache != [] && t.cache[|t.cache| - 1] == step.spare
  {
    IdleIsFree(s);
    NewBlockLeavesFree(s, |src|, step.spare);
    hide CacheAdd, Image, BlockOf;
  }

  lemma NewBlockLeavesFree<Id>(s: State<Id>, off: int, spare: Id)
    requires WellFormed(s) && CacheOk(s) && AllFree(s) && spare !in s.bufs
    ensures var t := CacheAdd(WithNewBuffer(s, off, spare), spare);
      && AllFree(t) && t.cache != [] && t.cache[|t.cache| - 1] == spare
  {
    var r := WithNewBuffer(s, off, spare);
    assert forall j :: Outstanding(r, j) ==> Outstanding(s, j) && r.jobs[j] == s.jobs[j];
    CacheAddLeavesFree(r, spare);
  }

  lemma CacheAddBufs<Id>(s: State<Id>, b: Id)
    requires WellFormed(s) && b in s.bufs
    ensures var t := CacheAdd(s, b);
      && t.bufs.Keys == s.bufs.Keys && t.chunkSize == s.chunkSize && t.server == s.server
      && (forall x :: x in s.bufs ==> t.bufs[x] == s.bufs[x].(flushing := t.bufs[x].flushing))
      && (b !in s.cache && !s.bufs[b].flushing ==> !t.bufs[b].flushing)
  {
    assert s.bufferSize > 0;
  }

  /** The evicted buffer leaves the cache for good. */
  lemma CacheAddLeavesFree<Id>(s: State<Id>, b: Id)
    requires WellFormed(s) && b in s.bufs && b !in s.cache && Distinct(s.cache, s.bufs)
    requires AllFree(s) && forall j :: Outstanding(s, j) ==> s.jobs[j].buf != b
    ensures var t := CacheAdd(s, b);
      && AllFree(t) && t.cache != [] && t.cache[|t.cache| - 1] == b
  {
    var t := CacheAdd(s, b);
    var cache := s.cache + [b];
    assert forall x :: x in t.cache ==> x == b || x in s.cache;
    assert forall j :: Outstanding(t, j) && j < |s.jobs| ==> Outstanding(s, j) && t.jobs[j] == s.jobs[j];
    if |cache| > s.bufferSize {
      forall x | x in t.cache ensures x != cache[0] {
        var i :| 0 <= i < |t.cache| && t.cache[i] == x;
        assert cache[i + 1] == x;
      }
    }
  }

  lemma CopyBytesOf<Id>(s: State<Id>, src: Bytes, x: Id)
    requires Inv(s) && Image(s, src) && Enabled(s, Copy) && x in s.bufs && 0 <= s.bufs[x].offset < |src|
    ensures var t := CopyNext(s);
      && Present(t, x, src) <= |t.bufs[x].data| && t.bufs[x].offset + Present(t, x, src) <= |src|
      && (forall k :: 0 <= k < Present(t, x, src) ==> t.bufs[x].data[k] == src[t.bufs[x].offset + k])
      && (!Working(t, x) ==> t.bufs[x].limit == Filled(t, x, src))
  {
    hide BlockOf, Aligned, SourceCovered, HasBlock, ServerHasSent, EntriesCleared, JobsOk, FlushingOk, CacheOk;
    var t := CopyNext(s);
    var Located(b, at, bytes) := s.client;
    assert t.client == Copied(b, at + |bytes|);
    if x == b {
      assert forall k :: 0 <= k < |bytes| ==> bytes[k] == src[s.bufs[b].offset + at + k];
      assert Present(t, b, src) == at + |bytes|;
    }
  }

  lemma CopyBytes<Id>(s: State<Id>, src: Bytes)
    requires Inv(s) && Image(s, src) && Enabled(s, Copy)
    ensures BytesOfSource(CopyNext(s), src) && PieceAtEnd(CopyNext(s), src)
  {
    hide BlockOf, Aligned, SourceCovered, HasBlock, ServerHasSent, EntriesCleared, JobsOk, FlushingOk, CacheOk,
        Present, Filled;
    var t := CopyNext(s);
    assert t.client == Copied(s.client.buf, s.client.at + |s.client.bytes|);
    forall x | x in t.bufs && 0 <= t.bufs[x].offset < |src|
      ensures Present(t, x, src) <= |t.bufs[x].data| && t.bufs[x].offset + Present(t, x, src) <= |src|
      ensures forall k :: 0 <= k < Present(t, x, src) ==> t.bufs[x].data[k] == src[t.bufs[x].offset + k]
      ensures !Working(t, x) ==> t.bufs[x].limit == Filled(t, x, src)
    {
      CopyBytesOf(s, src, x);
    }
  }

  lemma CopyAscending<Id>(s: State<Id>, src: Bytes)
    requires Inv(s) && Ascending(s, src) && Enabled(s, Copy)
    ensures Ascending(CopyNext(s), src)
  {
    hide BlockOf, Aligned, SourceCovered, HasBlock;
    CopyBytes(s, src);
    BlocksFrame(s, CopyNext(s), src);
    assert forall j :: Outstanding(CopyNext(s), j) ==> Outstanding(s, j);
    TopFrame(s, CopyNext(s), src);
    hide Core, BytesOfSource, SourceCovered, ServerHasSent, LastBlockOnTop, BlocksOfSource, PieceAtEnd;
  }

  lemma RaiseBytes<Id>(s: State<Id>, src: Bytes)
    requires Inv(s) && Image(s, src) && s.client.Copied?
    ensures var t := RaiseNext(s);
      && Image(t, src) && t.bufs.Keys == s.bufs.Keys && t.jobs == s.jobs && t.cache[|t.cache| - 1] == s.client.buf
      && (forall x :: x in t.cache <==> x in s.cache)
      && (forall x :: x in s.bufs ==> t.bufs[x] == s.bufs[x].(limit := t.bufs[x].limit))
  {
    RaiseEffect(s);
    hide BlockOf, Aligned, SourceCovered, HasBlock, Core, RaiseNext, BlocksOfSource, ServerHasSent, BytesOfSource;
    BlocksFrame(s, RaiseNext(s), src);
    RaisedBytes(s, src);
  }

  lemma RaisedBytes<Id>(s: State<Id>, src: Bytes)
    requires Inv(s) && s.client.Copied? && BytesOfSource(s, src) && PieceAtEnd(s, src)
    ensures BytesOfSource(RaiseNext(s), src) && PieceAtEnd(RaiseNext(s), src)
  {
    RaiseEffect(s);
    hide Core, RaiseNext;
  }

  lemma RaiseAscending<Id>(s: State<Id>, src: Bytes)
    requires Inv(s) && Ascending(s, src) && s.client.Copied?
    ensures Ascending(RaiseNext(s), src)
  {
    assert WellFormed(s);
    RaiseBytes(s, src);
    CopiedIsLast(s, src);
    RaiseEffect(s);
    hide BlockOf, Image, Core, RaiseNext, CachedIsFree, LastBlockOnTop, Enabled;
    RaisedOnTop(s, RaiseNext(s), s.client.buf, src);
  }

  lemma RaisedOnTop<Id>(s: State<Id>, t: State<Id>, b: Id, src: Bytes)
    requires CachedIsFree(s) && s.client.Copied? && t.client.Idle? && t.jobs == s.jobs && t.chunkSize > 0
    requires (forall x :: x in t.cache <==> x in s.cache) && t.cache != [] && t.cache[|t.cache| - 1] == b
    requires b in t.bufs && |src| > 0 && t.bufs[b].offset == BlockOf(t.chunkSize, |src| - 1)
    ensures CachedIsFree(t) && LastBlockOnTop(t, src)
  {
    hide BlockOf;
    assert forall j :: Outstanding(t, j) ==> Outstanding(s, j);
  }

  lemma CopiedIsLast<Id>(s: State<Id>, src: Bytes)
    requires Image(s, src) && s.client.Copied?
    ensures var b := s.client.buf;
      && b in s.bufs && |src| > 0 && s.bufs[b].offset == BlockOf(s.chunkSize, |src| - 1)
  {
    hide BlockOf, Aligned, SourceCovered, HasBlock;
    LastBlockIs(s.chunkSize, s.bufs[s.client.buf].offset, |src| - 1);
  }

  /** What a finished attempt does to the server is what it records as sent. */
  lemma FinishSends<Id>(s: State<Id>, src: Bytes, j: nat)
    requires Inv(s) && Image(s, src) && Enabled(s, Finish(j, Sent))
    ensures ServerHasSent(FinishNext(s, j, Sent))
  {
    hide BlockOf, Aligned, SourceCovered, HasBlock, BuffersOk, EntriesCleared, CacheOk, JobsOk;
    var t := FinishNext(s, j, Sent);
    MoreBlocks(s, t);
    BlockHere(t, s.jobs[j].buf);
    assert forall x :: x in s.bufs && s.bufs[x].offset == s.bufs[s.jobs[j].buf].offset ==> x == s.jobs[j].buf;
  }

  lemma BytesFrame<Id>(s: State<Id>, t: State<Id>, src: Bytes)
    requires t.chunkSize == s.chunkSize && t.client == s.client && t.bufs.Keys == s.bufs.Keys
    requires forall b :: b in s.bufs ==>
      t.bufs[b].offset == s.bufs[b].offset && t.bufs[b].data == s.bufs[b].data && t.bufs[b].limit == s.bufs[b].limit
    requires BytesOfSource(s, src) && PieceAtEnd(s, src)
    ensures BytesOfSource(t, src) && PieceAtEnd(t, src)
  {
  }

  lemma FinishBufs<Id>(s: State<Id>, j: nat)
    requires Enabled(s, Finish(j, Sent))
    ensures var t := FinishNext(s, j, Sent);
      && t.bufs.Keys == s.bufs.Keys && t.chunkSize == s.chunkSize && t.client == s.client
      && forall b :: b in s.bufs ==>
           t.bufs[b].offset == s.bufs[b].offset && t.bufs[b].data == s.bufs[b].data
               && t.bufs[b].limit == s.bufs[b].limit
  {
  }

  lemma FinishImage<Id>(s: State<Id>, src: Bytes, j: nat)
    requires Inv(s) && Image(s, src) && Enabled(s, Finish(j, Sent))
    ensures Image(FinishNext(s, j, Sent), src)
  {
    FinishSends(s, src, j);
    var t := FinishNext(s, j, Sent);
    FinishBufs(s, j);
    CoverFrame(s, t, src);
    BytesFrame(s, t, src);
    hide Core, ServerHasSent, BytesOfSource, PieceAtEnd, BlocksOfSource, SourceCovered;
  }

  lemma StartBufs<Id>(s: State<Id>, j: nat)
    requires Enabled(s, Start(j))
    ensures var t := StartNext(s, j);
      && t == s.(jobs := t.jobs) && |t.jobs| == |s.jobs|
      && forall k :: 0 <= k < |s.jobs| ==> t.jobs[k].buf == s.jobs[k].buf && t.jobs[k].sync == s.jobs[k].sync
  {
  }

  lemma StartImage<Id>(s: State<Id>, src: Bytes, j: nat)
    requires Enabled(s, Start(j)) && Image(s, src)
    ensures Image(StartNext(s, j), src)
  {
    StartBufs(s, j);
    var t := StartNext(s, j);
    BlocksFrame(s, t, src);
    BytesFrame(s, t, src);
    hide Enabled, StartNext, BlocksOfSource, SourceCovered, BytesOfSource, PieceAtEnd, ServerHasSent;
  }

  lemma StartAscending<Id>(s: State<Id>, src: Bytes, j: nat)
    requires Ascending(s, src) && Enabled(s, Start(j))
    ensures Ascending(StartNext(s, j), src)
  {
    StartImage(s, src, j);
    StartBufs(s, j);
    assert forall k :: Outstanding(StartNext(s, j), k) ==> Outstanding(s, k);
    TopFrame(s, StartNext(s, j), src);
    hide Enabled, StartNext, Image, BlockOf, LastBlockOnTop;
  }

  lemma FinishAscending<Id>(s: State<Id>, src: Bytes, j: nat)
    requires Inv(s) && Ascending(s, src) && Enabled(s, Finish(j, Sent))
    ensures Ascending(FinishNext(s, j, Sent), src)
  {
    FinishImage(s, src, j);
    FinishLeavesFree(s, j);
    FinishBufs(s, j);
    hide Core, Image, CachedIsFree, FinishNext, LastBlockOnTop;
    TopFrame(s, FinishNext(s, j, Sent), src);
  }

  lemma FinishLeavesFree<Id>(s: State<Id>, j: nat)
    requires CachedIsFree(s) && Enabled(s, Finish(j, Sent))
    ensures CachedIsFree(FinishNext(s, j, Sent)) && FinishNext(s, j, Sent).cache == s.cache
  {
    assert forall k :: Outstanding(FinishNext(s, j, Sent), k) ==> Outstanding(s, k);
  }

  // ----- Sync among the writes -----

  lemma SyncStepImage<Id>(s: State<Id>, step: Step<Id>, src: Bytes)
    requires Inv(s) && Image(s, src) && Enabled(s, step)
    requires step.SyncBegin? || step.SyncSubmit? || step.SyncReturn? || step.SyncAbort?
    ensures Image(Apply(s, step), src)
  {
    hide BlockOf, Core, Without;
    var t := Apply(s, step);
    BlocksFrame(s, t, src);
    QuietBytes(s, t, src);
    hide Enabled, Apply, BlocksOfSource, SourceCovered, BytesOfSource, ServerHasSent;
  }

  lemma QuietBytes<Id>(s: State<Id>, t: State<Id>, src: Bytes)
    requires !s.client.Located? && !s.client.Copied? && !t.client.Located? && !t.client.Copied?
    requires t.chunkSize == s.chunkSize && t.bufs.Keys == s.bufs.Keys && BytesOfSource(s, src)
    requires forall b :: b in s.bufs ==>
      t.bufs[b].offset == s.bufs[b].offset && t.bufs[b].data == s.bufs[b].data && t.bufs[b].limit == s.bufs[b].limit
    ensures BytesOfSource(t, src) && PieceAtEnd(t, src)
  {
  }

  /** Get moves the oldest key of a cache without repetitions to its end. */
  lemma Rotated<Id>(s: State<Id>)
    requires WellFormed(s) && Distinct(s.cache, s.bufs) && s.client.Syncing? && s.client.todo != []
    requires s.client.todo <= s.cache
    ensures Without(s.cache, s.client.todo[0]) + [s.client.todo[0]] == s.cache[1..] + [s.client.todo[0]]
    ensures s.client.todo[1..] <= s.cache[1..] + [s.client.todo[0]]
  {
    var b := s.client.todo[0];
    assert s.cache[0] == b;
    assert b !in s.cache[1..];
    assert Without(s.cache, b) == Without(s.cache[1..], b);
  }

  lemma SubmitAscending<Id>(s: State<Id>, src: Bytes)
    requires Inv(s) && Ascending(s, src) && Enabled(s, SyncSubmit)
    ensures CachedIsFree(SyncSubmitNext(s)) && LastBlockOnTop(SyncSubmitNext(s), src)
  {
    hide BlockOf, Image, BuffersOk, FlushingOk, JobsOk, EntriesCleared;
    Rotated(s);
    var t := SyncSubmitNext(s);
    hide Without;
    assert forall x :: x in t.cache <==> x in s.cache;
    assert forall j :: Outstanding(t, j) && j < |s.jobs| ==> Outstanding(s, j) && t.jobs[j] == s.jobs[j];
    assert s.cache != [] && Top(t) == Top(s);
  }

  lemma SyncEndsAscending<Id>(s: State<Id>, step: Step<Id>, src: Bytes)
    requires Ascending(s, src) && Enabled(s, step) && (step.SyncBegin? || step.SyncReturn? || step.SyncAbort?)
    ensures CachedIsFree(Apply(s, step)) && LastBlockOnTop(Apply(s, step), src)
  {
    hide BlockOf, Image;
    assert forall j :: Outstanding(Apply(s, step), j) ==> Outstanding(s, j);
  }

  lemma SyncAscending<Id>(s: State<Id>, step: Step<Id>, src: Bytes)
    requires Inv(s) && Ascending(s, src) && Enabled(s, step)
    requires step.SyncBegin? || step.SyncSubmit? || step.SyncReturn? || step.SyncAbort?
    ensures Ascending(Apply(s, step), src)
  {
    SyncStepImage(s, step, src);
    if step.SyncSubmit? {
      SubmitAscending(s, src);
    } else {
      SyncEndsAscending(s, step, src);
    }
    hide Image, CachedIsFree, LastBlockOnTop, Core;
  }

  lemma StepAscending<Id>(s: State<Id>, step: Step<Id>, src: Bytes)
    requires Inv(s) && Ascending(s, src) && InOrder(s, step, src)
    ensures Ascending(Apply(s, step), Grown(src, step))
  {
    hide Core, Ascending, BlockOf;
    match step
    case Locate(_, _, _) =>
      if |src| > 0 && |src| < BlockOf(s.chunkSize, |src| - 1) + s.chunkSize {
        HitAscending(s, step, src);
      } else {
        AtBlockEnd(s, src);
        NewBlockAscending(s, step, src);
      }
    case Copy => CopyAscending(s, src);
    case Raise => RaiseAscending(s, src);
    case Start(j) => StartAscending(s, src, j);
    case Finish(j, _) => FinishAscending(s, src, j);
    case _ => SyncAscending(s, step, src);
  }

  lemma AtBlockEnd<Id>(s: State<Id>, src: Bytes)
    requires s.chunkSize > 0 && (|src| > 0 ==> |src| >= BlockOf(s.chunkSize, |src| - 1) + s.chunkSize)
    ensures |src| == 0 || |src| == BlockOf(s.chunkSize, |src| - 1) + s.chunkSize
  {
  }

  // ----- Whole runs -----

  ghost predicate UploadRun<Id>(s: State<Id>, steps: seq<Step<Id>>, src: Bytes)
    decreases |steps|
  {
    steps == [] ||
    (InOrder(s, steps[0], src) && UploadRun(Apply(s, steps[0]), steps[1..], Grown(src, steps[0])))
  }

  /** The bytes of the writes among the steps, in order. */
  ghost function Uploaded<Id>(steps: seq<Step<Id>>, src: Bytes): Bytes {
    if steps == [] then src else Uploaded(steps[1..], Grown(src, steps[0]))
  }

  /** Every upload run is a calm one: no job is stale, no dropped block is rewritten, no buffer evicted under test. */
  lemma {:induction false} UploadsAreCalm<Id>(s: State<Id>, steps: seq<Step<Id>>, src: Bytes)
    requires Calmed(s) && Ascending(s, src) && FlushedIsStored(s) && UploadRun(s, steps, src)
    ensures ExactRun(s, steps) && Runs(s, steps)
    ensures Calmed(Exec(s, steps)) && Ascending(Exec(s, steps), Uploaded(steps, src))
        && FlushedIsStored(Exec(s, steps))
    ensures Exec(s, steps).chunkSize == s.chunkSize
    decreases |steps|
  {
    hide Core, Sound, Quiet, Ascending, Enabled, Apply, FlushedIsStored, NoFailedAttempt;
    if steps != [] {
      var step := steps[0];
      InOrderIsExact(s, step, src);
      ExactIsCalm(s, step);
      StepKeepsCalmed(s, step);
      StepKeepsStored(s, step);
      ChunkSizeKept(s, step);
      StepAscending(s, step, src);
      UploadsAreCalm(Apply(s, step), steps[1..], Grown(src, step));
    }
  }

  /** The server holds the file block by block: a full block each, but for the last. */
  ghost predicate HoldsExactly(server: map<int, Bytes>, chunkSize: int, src: Bytes)
    requires chunkSize > 0
  {
    && (forall off :: off in server <==> Aligned(chunkSize, off) && off < |src|)
    && (forall off :: off in server && 0 <= off < |src| ==> server[off] == src[off..Min(off + chunkSize, |src|)])
  }

  lemma CleanBlock<Id>(s: State<Id>, src: Bytes, b: Id)
    requires WellFormed(s) && BuffersOk(s) && Acknowledged(s) && Image(s, src) && !s.client.Located?
        && !s.client.Copied?
    requires b in s.bufs && s.bufs[b].flushed
    ensures var off := s.bufs[b].offset;
      && 0 <= off < |src| && off in s.server
      && s.server[off] == src[off..Min(off + s.chunkSize, |src|)]
  {
    hide BlockOf, SourceCovered, HasBlock;
    var buf := s.bufs[b];
    assert Aligned(s.chunkSize, buf.offset);
    assert s.server[buf.offset] == buf.data[..buf.limit];
    assert buf.limit == Filled(s, b, src) == Present(s, b, src);
  }

  lemma CleanImageIsExact<Id>(s: State<Id>, src: Bytes)
    requires WellFormed(s) && BuffersOk(s) && Acknowledged(s) && Image(s, src) && !s.client.Located?
        && !s.client.Copied?
    requires forall b :: b in s.bufs ==> s.bufs[b].flushed
    ensures HoldsExactly(s.server, s.chunkSize, src)
  {
    hide BuffersOk, Acknowledged, BytesOfSource, PieceAtEnd, BlockOf;
    forall off ensures off in s.server <==> Aligned(s.chunkSize, off) && off < |src| {
      if off in s.server {
        assert HasBlock(s, off);
      } else if Aligned(s.chunkSize, off) && off < |src| {
        assert HasBlock(s, BlockOf(s.chunkSize, off));
        var b :| b in s.bufs && s.bufs[b].offset == off;
        CleanBlock(s, src, b);
      }
    }
    forall off | off in s.server && 0 <= off < |src| ensures s.server[off] == src[off..Min(off + s.chunkSize,
        |src|)] {
      assert HasBlock(s, off);
      var b :| b in s.bufs && s.bufs[b].offset == off;
      CleanBlock(s, src, b);
    }
  }

  /**
   * Any sequence of contiguous ascending writes to a new file and of Syncs among them, at any chunk and
   * cache size and with the workers interleaved at will but never failing: where a Sync may return nil, the
   * server's blocks are exactly the concatenation of what was written.
   */
  lemma UploadIsExact<Id>(chunkSize: int, bufferSize: int, steps: seq<Step<Id>>)
    requires chunkSize > 0 && bufferSize > 0
    requires UploadRun(Opened(chunkSize, bufferSize, map[]), steps, [])
    ensures Runs(Opened(chunkSize, bufferSize, map[]), steps)
    ensures var t := Exec(Opened(chunkSize, bufferSize, map[]), steps);
      Enabled(t, SyncReturn) ==> HoldsExactly(t.server, chunkSize, Uploaded(steps, []))
  {
    OpenedCalmed<Id>(chunkSize, bufferSize, map[]);
    UploadsAreCalm(Opened(chunkSize, bufferSize, map[]), steps, []);
    var t := Exec(Opened(chunkSize, bufferSize, map[]), steps);
    if Enabled(t, SyncReturn) {
      SyncReturnsOnlyWhenClean(t);
      CleanImageIsExact(t, Uploaded(steps, []));
    }
  }
}

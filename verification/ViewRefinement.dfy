/**
 * The file machine refines a flat byte file.  The view of a file is the server's blocks overlaid
 * by the live buffers; in a calm run eviction, revival, flushing and Sync leave it unchanged, each
 * write changes exactly the bytes it names, and after a Sync that returns nil the server's blocks
 * alone are the view.  `Calm` collects what the source needs from the schedule and does not check;
 * module Traces shows by concrete runs that each part is needed.
 */
module ViewRefinement {
  import opened Bytes
  import opened FileMachine
  import opened FileInvariants
  import opened NoLostBuffer

  // ----- What a calm schedule is -----

  /** A new buffer is all zeros, so it must not stand for a block that the server already has. */
  ghost predicate NoDroppedBlockRewritten<Id>(s: State<Id>, step: Step<Id>)
    requires Enabled(s, step)
  {
    MakesBuffer(s, step) ==> BlockOf(s.chunkSize, step.pos) !in s.server
  }

  /** No dirty buffer is evicted between a job's decision not to flush it and that job's deletion of its entry. */
  ghost predicate NoEvictionUnderTest<Id>(s: State<Id>, step: Step<Id>)
    requires Enabled(s, step)
  {
    step.Locate? && Peek(s.cache, s.bufs, BlockOf(s.chunkSize, step.pos)).None? && s.bufferSize <= |s.cache| ==>
      NotUnderTest(s, s.cache[0])
  }

  ghost predicate NoFailedAttempt<Id>(step: Step<Id>) {
    step.Finish? ==> step.outcome.Sent?
  }

  /** A failed attempt deletes its buffer's flushing entry, unless the chunker failed; that must not be all there is. */
  ghost predicate NoEvictedAttemptFails<Id>(s: State<Id>, step: Step<Id>)
    requires Enabled(s, step)
  {
    step.Finish? && !step.outcome.Sent? ==> step.outcome.ChunkerFailed? || s.jobs[step.job].buf in s.cache
  }

  ghost predicate Calm<Id>(s: State<Id>, step: Step<Id>) {
    && Enabled(s, step) && LimitSettled(s, step) && NoStaleJob(s, step)
    && NoEvictionUnderTest(s, step) && NoEvictedAttemptFails(s, step)
  }

  ghost predicate CalmRun<Id>(s: State<Id>, steps: seq<Step<Id>>)
    decreases |steps|
  {
    steps == [] || (Calm(s, steps[0]) && CalmRun(Apply(s, steps[0]), steps[1..]))
  }

  /** A schedule in which no dropped block is rewritten; ExactIsCalm shows that it has no stale job either. */
  ghost predicate Exact<Id>(s: State<Id>, step: Step<Id>) {
    && Enabled(s, step) && LimitSettled(s, step) && NoDroppedBlockRewritten(s, step)
    && NoEvictionUnderTest(s, step) && NoEvictedAttemptFails(s, step)
  }

  ghost predicate ExactRun<Id>(s: State<Id>, steps: seq<Step<Id>>)
    decreases |steps|
  {
    steps == [] || (Exact(s, steps[0]) && ExactRun(Apply(s, steps[0]), steps[1..]))
  }

  // ----- The view -----

  /** A block as the server alone gives it. */
  ghost function ServerBlock(server: map<int, Bytes>, chunkSize: nat, off: int): Bytes {
    if off in server then Pad(server[off], chunkSize) else Zeros(chunkSize)
  }

  ghost function ViewBlock<Id>(s: State<Id>, off: int): Bytes
    requires WellFormed(s)
  {
    match Live(s, off)
    case Some(b) => s.bufs[b].data
    case None => ServerBlock(s.server, s.chunkSize, off)
  }

  ghost predicate SameView<Id>(s: State<Id>, t: State<Id>)
    requires WellFormed(s) && WellFormed(t)
  {
    forall off :: ViewBlock(t, off) == ViewBlock(s, off)
  }

  // ----- The invariant of calm runs -----

  ghost predicate DirtyIsLive<Id>(s: State<Id>) {
    forall b :: b in s.bufs && b !in s.cache && !s.bufs[b].flushed ==>
      s.bufs[b].offset in s.flushing && s.flushing[s.bufs[b].offset] == b
  }

  ghost predicate OneLiveBuffer<Id>(s: State<Id>) {
    forall b :: b in s.cache && b in s.bufs && s.bufs[b].offset in s.flushing ==> s.flushing[s.bufs[b].offset] == b
  }

  /** A job's buffer is the only one that can be live for its block. */
  ghost predicate JobsAreCurrent<Id>(s: State<Id>) {
    forall j :: Outstanding(s, j) && s.jobs[j].buf in s.bufs ==>
      && (forall x :: x in s.cache && x in s.bufs && s.bufs[x].offset == s.bufs[s.jobs[j].buf].offset ==>
          x == s.jobs[j].buf)
      && (s.bufs[s.jobs[j].buf].offset in s.flushing ==> s.flushing[s.bufs[s.jobs[j].buf].offset] == s.jobs[j].buf)
  }

  ghost predicate IsLive<Id>(s: State<Id>, b: Id)
    requires b in s.bufs
  {
    b in s.cache || (s.bufs[b].offset in s.flushing && s.flushing[s.bufs[b].offset] == b)
  }

  ghost predicate CleanIsOnServer<Id>(s: State<Id>) {
    forall b :: b in s.bufs && s.bufs[b].flushed && IsLive(s, b) && 0 <= s.bufs[b].limit <= |s.bufs[b].data| ==>
      s.bufs[b].offset in s.server && s.server[s.bufs[b].offset] == s.bufs[b].data[..s.bufs[b].limit]
  }

  ghost predicate SkippersHarmless<Id>(s: State<Id>) {
    forall j :: 0 <= j < |s.jobs| && s.jobs[j].phase.Holding? && !s.jobs[j].phase.flush && s.jobs[j].buf in s.bufs ==>
      s.jobs[j].buf in s.cache || s.bufs[s.jobs[j].buf].flushed
  }

  ghost predicate Quiet<Id>(s: State<Id>) {
    DirtyIsLive(s) && OneLiveBuffer(s) && JobsAreCurrent(s) && CleanIsOnServer(s) && SkippersHarmless(s)
  }

  lemma {:induction false} PeekFinds<Id>(cache: seq<Id>, bufs: map<Id, Buf>, b: Id)
    requires (forall x :: x in cache ==> x in bufs) && Distinct(cache, bufs) && b in cache
    ensures Peek(cache, bufs, bufs[b].offset) == Some(b)
  {
    if cache[0] != b {
      var i :| 0 <= i < |cache| && cache[i] == b;
      assert bufs[cache[0]].offset != bufs[cache[i]].offset;
      assert cache[1..][i - 1] == b;
      PeekFinds(cache[1..], bufs, b);
    }
  }

  lemma LiveIs<Id>(s: State<Id>, b: Id)
    requires WellFormed(s) && CacheOk(s) && FlushingOk(s) && OneLiveBuffer(s) && b in s.bufs && IsLive(s, b)
    ensures Live(s, s.bufs[b].offset) == Some(b)
  {
    if b in s.cache {
      PeekFinds(s.cache, s.bufs, b);
    }
  }

  ghost predicate Readable<Id>(s: State<Id>) {
    WellFormed(s) && CacheOk(s) && FlushingOk(s) && OneLiveBuffer(s)
  }

  /** The live buffer of a block, or else the server, decides how the block reads. */
  lemma BlockUnchanged<Id>(s: State<Id>, t: State<Id>, off: int)
    requires Readable(s) && Readable(t) && s.chunkSize == t.chunkSize
    requires off in s.server <==> off in t.server
    requires off in s.server ==> s.server[off] == t.server[off]
    requires forall b :: b in s.bufs && s.bufs[b].offset == off && IsLive(s, b) ==>
      b in t.bufs && IsLive(t, b) && t.bufs[b].data == s.bufs[b].data && t.bufs[b].offset == off
    requires forall b :: b in t.bufs && t.bufs[b].offset == off && IsLive(t, b) ==>
      b in s.bufs && IsLive(s, b) && s.bufs[b].offset == off
    ensures ViewBlock(t, off) == ViewBlock(s, off)
  {
    if Live(s, off).Some? {
      LiveIs(t, Live(s, off).value);
    } else if Live(t, off).Some? {
      LiveIs(s, Live(t, off).value);
    }
  }

  /** Only the cache order, the flags, the jobs or the limits differ. */
  lemma SameLiveSameView<Id>(s: State<Id>, t: State<Id>)
    requires Readable(s) && Readable(t) && s.chunkSize == t.chunkSize && s.server == t.server
    requires s.bufs.Keys == t.bufs.Keys
    requires forall b :: b in s.bufs ==>
      t.bufs[b].data == s.bufs[b].data && t.bufs[b].offset == s.bufs[b].offset && (IsLive(t, b) <==> IsLive(s, b))
    ensures SameView(s, t)
  {
    forall off ensures ViewBlock(t, off) == ViewBlock(s, off) {
      BlockUnchanged(s, t, off);
    }
  }

  // ----- Every calm step keeps Quiet; all but Copy leave the view as it is -----

  ghost function Appended<Id>(s: State<Id>, b: Id): State<Id> {
    s.(cache := s.cache + [b])
  }

  /** No job has decided to skip v and has yet to delete v's flushing entry, or else v is clean. */
  ghost predicate NotUnderTest<Id>(s: State<Id>, v: Id)
    requires v in s.bufs
  {
    s.bufs[v].flushed ||
    forall j :: 0 <= j < |s.jobs| && s.jobs[j].phase.Holding? && !s.jobs[j].phase.flush ==> s.jobs[j].buf != v
  }

  /** Quiet but for b, which is about to become the one live buffer of its block. */
  ghost predicate ReadyToAdd<Id>(s: State<Id>, b: Id)
    requires WellFormed(s)
  {
    && b in s.bufs && b !in s.cache && !s.bufs[b].flushed && s.bufs[b].offset !in s.flushing
    && (forall x :: x in s.cache ==> s.bufs[x].offset != s.bufs[b].offset)
    && (forall x :: x in s.bufs && x != b && x !in s.cache && !s.bufs[x].flushed ==>
          s.bufs[x].offset in s.flushing && s.flushing[s.bufs[x].offset] == x)
    && OneLiveBuffer(s) && JobsAreCurrent(s) && CleanIsOnServer(s)
    && (forall j :: JobAt(s, j, s.bufs[b].offset) ==> s.jobs[j].buf == b)
    && (forall j :: 0 <= j < |s.jobs| && s.jobs[j].phase.Holding? && !s.jobs[j].phase.flush && s.jobs[j].buf != b ==>
          s.jobs[j].buf in s.cache || s.bufs[s.jobs[j].buf].flushed)
  }

  lemma AppendedQuiet<Id>(s: State<Id>, b: Id)
    requires Core(s) && ReadyToAdd(s, b)
    ensures Quiet(Appended(s, b)) && Distinct(Appended(s, b).cache, s.bufs)
  {
    var t := Appended(s, b);
    assert forall x :: x in t.cache <==> x == b || x in s.cache;
    forall j | Outstanding(t, j) && t.jobs[j].buf in t.bufs
      ensures forall x :: x in t.cache && t.bufs[x].offset == t.bufs[t.jobs[j].buf].offset ==> x == t.jobs[j].buf
    {
      assert t.bufs[t.jobs[j].buf].offset == s.bufs[b].offset ==> JobAt(s, j, s.bufs[b].offset);
    }
  }

  ghost function Evicted<Id>(s: State<Id>): State<Id>
    requires s.cache != [] && s.cache[0] in s.bufs
  {
    Submit(s.(cache := s.cache[1..]), s.cache[0], false)
  }

  lemma EvictedLive<Id>(s: State<Id>)
    requires WellFormed(s) && OneLiveBuffer(s) && s.cache != [] && Distinct(s.cache, s.bufs)
    ensures var t := Evicted(s);
      && (forall x :: x in t.cache <==> x in s.cache && x != s.cache[0])
      && (forall x :: x in s.bufs && IsLive(s, x) && s.bufs[x].offset == s.bufs[s.cache[0]].offset ==>
          x == s.cache[0])
      && forall x :: x in s.bufs ==> (IsLive(t, x) <==> IsLive(s, x))
  {
    var t := Evicted(s);
    var v := s.cache[0];
    forall x | x in t.cache ensures x in s.cache && s.bufs[x].offset != s.bufs[v].offset {
      var i :| 0 <= i < |t.cache| && t.cache[i] == x;
      assert s.cache[i + 1] == x;
    }
    forall x | x in s.cache ensures x in t.cache || x == v {
      var i :| 0 <= i < |s.cache| && s.cache[i] == x;
      assert i > 0 ==> t.cache[i - 1] == x;
    }
  }

  lemma EvictedQuiet<Id>(s: State<Id>)
    requires WellFormed(s) && FlushingOk(s) && Quiet(s) && s.cache != [] && Distinct(s.cache, s.bufs)
    requires NotUnderTest(s, s.cache[0])
    ensures Quiet(Evicted(s)) && forall x :: x in s.bufs ==> (IsLive(Evicted(s), x) <==> IsLive(s, x))
  {
    EvictedLive(s);
    EvictedJobs(s);
    hide JobsAreCurrent;
  }

  lemma EvictedJobs<Id>(s: State<Id>)
    requires WellFormed(s) && FlushingOk(s) && OneLiveBuffer(s) && JobsAreCurrent(s)
    requires s.cache != [] && Distinct(s.cache, s.bufs)
    ensures JobsAreCurrent(Evicted(s))
  {
    var t := Evicted(s);
    var v := s.cache[0];
    EvictedLive(s);
    forall j | Outstanding(t, j)
      ensures t.flushing[t.bufs[v].offset] == v
      ensures t.bufs[t.jobs[j].buf].offset == t.bufs[v].offset ==> t.jobs[j].buf == v
    {
      assert j < |s.jobs| ==> Outstanding(s, j) && t.jobs[j] == s.jobs[j];
    }
  }

  /** Adding a buffer to the cache evicts at most one other, which stays live as a flushing one. */
  lemma CacheAddQuiet<Id>(s: State<Id>, b: Id)
    requires Core(s) && ReadyToAdd(s, b)
    requires 0 < |s.cache| && s.bufferSize <= |s.cache| ==> NotUnderTest(s, s.cache[0])
    ensures var t := CacheAdd(s, b);
      Quiet(t) && IsLive(t, b) && t.bufs.Keys == s.bufs.Keys &&
      forall x :: x in s.bufs ==>
        && t.bufs[x] == s.bufs[x].(flushing := t.bufs[x].flushing)
        && (x != b ==> (IsLive(t, x) <==> IsLive(s, x)))
  {
    var r := Appended(s, b);
    AppendedQuiet(s, b);
    assert r.cache[|s.cache|] == b;
    assert forall x :: x in s.bufs ==> (IsLive(r, x) <==> x == b || IsLive(s, x));
    if |r.cache| > s.bufferSize {
      assert CacheAdd(s, b) == Evicted(r);
      EvictedQuiet(r);
    } else {
      assert CacheAdd(s, b) == r;
    }
  }

  ghost predicate Calmed<Id>(s: State<Id>) {
    Inv(s) && Sound(s) && Quiet(s)
  }

  /** What the client has asked for: the view, with the piece that is located but not yet copied. */
  ghost function Content<Id>(s: State<Id>, off: int): Bytes
    requires WellFormed(s)
  {
    var block := ViewBlock(s, off);
    if s.client.Located? && s.bufs[s.client.buf].offset == off
      && 0 <= s.client.at && s.client.at + |s.client.bytes| <= |block|
    then Splice(block, s.client.at, s.client.bytes)
    else block
  }

  lemma HitQuiet<Id>(s: State<Id>, pos: int, bytes: Bytes, spare: Id)
    requires Calmed(s) && Calm(s, Locate(pos, bytes, spare))
    requires Peek(s.cache, s.bufs, BlockOf(s.chunkSize, pos)).Some?
    ensures var t := LocateNext(s, pos, bytes, spare);
      Quiet(t) && SameView(s, t) && t.client.Located? && t.bufs[t.client.buf].offset == BlockOf(s.chunkSize, pos)
  {
    var b := Peek(s.cache, s.bufs, BlockOf(s.chunkSize, pos)).value;
    var client := Located(b, pos - BlockOf(s.chunkSize, pos), bytes);
    assert LocateNext(s, pos, bytes, spare) == s.(client := client);
    hide LocateNext, BuffersOk, JobsOk, EntriesCleared, Sound;
    QuietIgnoresClient(s, client);
    SameLiveSameView(s, s.(client := client));
  }

  lemma RevivedReady<Id>(s: State<Id>, off: int)
    requires Calmed(s) && s.client.Idle? && off in s.flushing && Peek(s.cache, s.bufs, off).None?
    ensures ReadyToAdd(Revived(s, off), s.flushing[off])
    ensures forall x :: x in s.bufs && x != s.flushing[off] ==> (IsLive(Revived(s, off), x) <==> IsLive(s, x))
  {
    var b := s.flushing[off];
    var r := Revived(s, off);
    assert forall x :: x in s.bufs && x != b ==> (IsLive(r, x) <==> IsLive(s, x)) && r.bufs[x] == s.bufs[x];
    assert forall j :: Outstanding(r, j) ==> Outstanding(s, j) && r.jobs[j] == s.jobs[j];
    assert JobsAreCurrent(r);
    assert forall j :: JobAt(r, j, off) ==> JobAt(s, j, off) && r.jobs[j].buf == b;
  }

  lemma RevivedQuiet<Id>(s: State<Id>, off: int)
    requires Calmed(s) && s.client.Idle? && off in s.flushing && Peek(s.cache, s.bufs, off).None?
    requires 0 < |s.cache| && s.bufferSize <= |s.cache| ==> NotUnderTest(s, s.cache[0])
    ensures var t := CacheAdd(Revived(s, off), s.flushing[off]);
      && Quiet(t) && t.bufs.Keys == s.bufs.Keys
      && forall x :: x in s.bufs ==>
        && t.bufs[x].data == s.bufs[x].data && t.bufs[x].offset == s.bufs[x].offset
        && (IsLive(t, x) <==> IsLive(s, x))
  {
    ReviveKeeps(s, off);
    RevivedReady(s, off);
    var r := Revived(s, off);
    var b := s.flushing[off];
    assert 0 < |s.cache| && s.bufferSize <= |s.cache| ==> r.cache[0] in r.bufs && NotUnderTest(r, r.cache[0]) by {
      assert |s.cache| > 0 ==> s.cache[0] in s.bufs && s.cache[0] != b;
    }
    assert IsLive(s, b) && WellFormed(r) && r.bufs.Keys == s.bufs.Keys;
    assert forall x :: x in s.bufs ==> r.bufs[x].data == s.bufs[x].data && r.bufs[x].offset == s.bufs[x].offset;
    hide Inv, Sound, Quiet, Core, ReadyToAdd, CacheAdd, Peek, NotUnderTest, IsLive, WellFormed, Revived;
    CacheAddQuiet(r, b);
  }

  lemma NewBufferReady<Id>(s: State<Id>, off: int, spare: Id)
    requires Calmed(s) && s.client.Idle? && spare !in s.bufs
    requires Live(s, off).None? && forall j :: !JobAt(s, j, off)
    ensures ReadyToAdd(WithNewBuffer(s, off, spare), spare)
    ensures forall x :: x in s.bufs ==> (IsLive(WithNewBuffer(s, off, spare), x) <==> IsLive(s, x))
  {
    var r := WithNewBuffer(s, off, spare);
    assert forall x :: x in s.bufs ==> (IsLive(r, x) <==> IsLive(s, x)) && r.bufs[x] == s.bufs[x];
    assert forall j :: JobAt(r, j, off) ==> JobAt(s, j, off);
    assert forall j :: Outstanding(r, j) ==> Outstanding(s, j) && r.jobs[j] == s.jobs[j];
    assert JobsAreCurrent(r);
  }

  lemma NewBufferQuiet<Id>(s: State<Id>, off: int, spare: Id)
    requires Calmed(s) && s.client.Idle? && spare !in s.bufs
    requires Live(s, off).None? && forall j :: !JobAt(s, j, off)
    requires 0 < |s.cache| && s.bufferSize <= |s.cache| ==> NotUnderTest(s, s.cache[0])
    ensures var t := CacheAdd(WithNewBuffer(s, off, spare), spare);
      && Quiet(t) && t.bufs.Keys == s.bufs.Keys + {spare} && IsLive(t, spare)
      && t.bufs[spare].offset == off && t.bufs[spare].data == Zeros(s.chunkSize)
      && forall x :: x in s.bufs ==>
        && t.bufs[x].data == s.bufs[x].data && t.bufs[x].offset == s.bufs[x].offset
        && (IsLive(t, x) <==> IsLive(s, x))
  {
    NewBufferKeeps(s, off, spare);
    NewBufferReady(s, off, spare);
    var r := WithNewBuffer(s, off, spare);
    assert 0 < |s.cache| && s.bufferSize <= |s.cache| ==> r.cache[0] in r.bufs && NotUnderTest(r, r.cache[0]) by {
      assert |s.cache| > 0 ==> s.cache[0] in s.bufs && s.cache[0] != spare;
    }
    assert WellFormed(r) && r.bufs.Keys == s.bufs.Keys + {spare} && r.chunkSize == s.chunkSize;
    assert r.bufs[spare] == Buf(off, Zeros(s.chunkSize), 0, false, false, None);
    assert forall x :: x in s.bufs ==> r.bufs[x] == s.bufs[x];
    hide Inv, Sound, Quiet, Core, ReadyToAdd, CacheAdd, Live, JobAt, NotUnderTest, IsLive, WellFormed, WithNewBuffer;
    CacheAddQuiet(r, spare);
  }

  lemma CopyQuiet<Id>(s: State<Id>)
    requires Calmed(s) && Calm(s, Copy)
    ensures Quiet(CopyNext(s))
  {
  }

  lemma RaiseQuiet<Id>(s: State<Id>)
    requires Calmed(s) && Calm(s, Raise)
    ensures Quiet(RaiseNext(s)) && SameView(s, RaiseNext(s))
  {
    RaiseEffect(s);
    RaiseKeeps(s);
    assert s.bufs[s.client.buf].flushed ==> s.client.end <= s.bufs[s.client.buf].limit;
    hide RaiseNext, Core, Sound, Quiet;
    RaisedQuiet(s, RaiseNext(s), s.client.buf);
    SameLiveSameView(s, RaiseNext(s));
  }

  lemma RaisedQuiet<Id>(s: State<Id>, t: State<Id>, b: Id)
    requires Quiet(s) && b in s.bufs && b in t.bufs && (s.bufs[b].flushed ==> t.bufs[b] == s.bufs[b])
    requires t.flushing == s.flushing && t.failed == s.failed && t.jobs == s.jobs && t.server == s.server
    requires forall x :: x in t.cache <==> x in s.cache
    requires t.bufs.Keys == s.bufs.Keys && forall x :: x in s.bufs ==>
      t.bufs[x] == s.bufs[x].(limit := t.bufs[x].limit) && (x != b ==> t.bufs[x] == s.bufs[x])
    ensures Quiet(t) && forall x :: x in s.bufs ==> (IsLive(t, x) <==> IsLive(s, x))
  {
    assert forall x :: x in s.bufs ==> (IsLive(t, x) <==> IsLive(s, x));
    assert forall j :: Outstanding(t, j) <==> Outstanding(s, j);
  }

  lemma SubmitCachedQuiet<Id>(s: State<Id>, b: Id)
    requires WellFormed(s) && Distinct(s.cache, s.bufs) && Quiet(s) && b in s.cache
    ensures Quiet(Submit(s, b, true))
    ensures forall x :: x in s.bufs ==> (IsLive(Submit(s, b, true), x) <==> IsLive(s, x))
  {
    var t := Submit(s, b, true);
    assert forall x :: x in s.cache && s.bufs[x].offset == s.bufs[b].offset ==> x == b;
    assert forall j :: Outstanding(t, j) && j < |s.jobs| ==> Outstanding(s, j) && t.jobs[j] == s.jobs[j];
  }

  lemma SyncSubmitQuiet<Id>(s: State<Id>)
    requires Calmed(s) && Calm(s, SyncSubmit)
    ensures Quiet(SyncSubmitNext(s))
    ensures forall x :: x in s.bufs ==> (IsLive(SyncSubmitNext(s), x) <==> IsLive(s, x))
  {
    var b := s.client.todo[0];
    var r := s.(cache := Without(s.cache, b) + [b], client := Syncing(s.client.todo[1..]));
    assert forall x :: x in r.cache <==> x in s.cache;
    WithoutKeepsDistinct(s.cache, s.bufs, b);
    assert forall j :: Outstanding(r, j) ==> Outstanding(s, j);
    assert Quiet(r);
    SubmitCachedQuiet(r, b);
  }

  lemma SyncSubmitView<Id>(s: State<Id>)
    requires Calmed(s) && Calm(s, SyncSubmit)
    ensures SameView(s, SyncSubmitNext(s))
  {
    SyncSubmitQuiet(s);
    SyncSubmitKeeps(s);
    SameLiveSameView(s, SyncSubmitNext(s));
  }

  lemma StartQuiet<Id>(s: State<Id>, j: nat)
    requires Calmed(s) && Calm(s, Start(j))
    ensures Quiet(StartNext(s, j)) && SameView(s, StartNext(s, j))
  {
    var t := StartNext(s, j);
    assert !s.failed ==> Safe(s, s.jobs[j].buf);
    assert forall k :: Outstanding(t, k) ==> Outstanding(s, k) && t.jobs[k].buf == s.jobs[k].buf;
    StartKeeps(s, j);
    SameLiveSameView(s, t);
  }

  lemma SkipQuiet<Id>(s: State<Id>, j: nat)
    requires Calmed(s) && Calm(s, Finish(j, Sent)) && !s.jobs[j].phase.flush
    ensures Quiet(FinishNext(s, j, Sent))
  {
    var t := FinishNext(s, j, Sent);
    assert Outstanding(s, j);
    assert forall k :: Outstanding(t, k) ==> Outstanding(s, k) && t.jobs[k] == s.jobs[k];
  }

  lemma SentQuiet<Id>(s: State<Id>, j: nat)
    requires Calmed(s) && Calm(s, Finish(j, Sent)) && s.jobs[j].phase.flush
    ensures Quiet(FinishNext(s, j, Sent))
  {
    var t := FinishNext(s, j, Sent);
    assert Outstanding(s, j);
    assert forall k :: Outstanding(t, k) ==> Outstanding(s, k) && t.jobs[k] == s.jobs[k];
  }

  /** The file after a failed attempt that the view may survive: at most the entry of a cached buffer is gone. */
  ghost predicate FailedOn<Id>(s: State<Id>, t: State<Id>, b: Id)
    requires b in s.bufs
  {
    var off := s.bufs[b].offset;
    && t == s.(flushing := t.flushing, server := t.server, jobs := t.jobs, failed := t.failed)
    && (t.flushing == s.flushing || (b in s.cache && t.flushing == s.flushing - {off}))
    && (forall o :: o != off || b !in s.cache ==> (o in t.server <==> o in s.server))
    && (forall o :: (o != off || b !in s.cache) && o in s.server && o in t.server ==> t.server[o] == s.server[o])
    && (forall k :: Outstanding(t, k) ==> Outstanding(s, k) && t.jobs[k].buf == s.jobs[k].buf)
    && (forall k :: 0 <= k < |t.jobs| && t.jobs[k].phase.Holding? ==> k < |s.jobs| && t.jobs[k] == s.jobs[k])
  }

  lemma FailureEffect<Id>(s: State<Id>, j: nat, outcome: Outcome)
    requires Enabled(s, Finish(j, outcome)) && !outcome.Sent? && NoEvictedAttemptFails(s, Finish(j, outcome))
    ensures FailedOn(s, FinishNext(s, j, outcome), s.jobs[j].buf)
  {
  }

  /** A failed attempt on a cached buffer, or in the chunker: the buffer is as live as before, and dirty. */
  lemma FailedQuiet<Id>(s: State<Id>, j: nat, outcome: Outcome)
    requires Calmed(s) && Calm(s, Finish(j, outcome)) && !outcome.Sent?
    ensures Quiet(FinishNext(s, j, outcome))
  {
    FailureEffect(s, j, outcome);
    HolderIsDirty(s, j, outcome);
    hide Enabled, FinishNext, Sound, BuffersOk, FlushingOk, EntriesCleared, JobsOk;
    FailedOnQuiet(s, FinishNext(s, j, outcome), s.jobs[j].buf);
  }

  lemma HolderIsDirty<Id>(s: State<Id>, j: nat, outcome: Outcome)
    requires HoldersOk(s) && Enabled(s, Finish(j, outcome)) && !outcome.Sent?
    ensures s.jobs[j].buf in s.bufs && !s.bufs[s.jobs[j].buf].flushed
  {
  }

  lemma FailedOnQuiet<Id>(s: State<Id>, t: State<Id>, b: Id)
    requires WellFormed(s) && CacheOk(s) && Quiet(s) && b in s.bufs && !s.bufs[b].flushed && FailedOn(s, t, b)
    ensures Quiet(t)
  {
    assert forall x :: x in s.cache && b in s.cache && s.bufs[x].offset == s.bufs[b].offset ==> x == b;
    assert forall x :: x in s.bufs && IsLive(t, x) ==> IsLive(s, x);
  }

  lemma FailedView<Id>(s: State<Id>, j: nat, outcome: Outcome)
    requires Calmed(s) && Calm(s, Finish(j, outcome)) && !outcome.Sent?
    requires Inv(FinishNext(s, j, outcome)) && Quiet(FinishNext(s, j, outcome))
    ensures SameView(s, FinishNext(s, j, outcome))
  {
    FailureEffect(s, j, outcome);
    hide Enabled, FinishNext, Sound, BuffersOk, EntriesCleared, JobsOk;
    hide DirtyIsLive, JobsAreCurrent, CleanIsOnServer, SkippersHarmless;
    FailedOnView(s, FinishNext(s, j, outcome), s.jobs[j].buf);
  }

  lemma FailedOnView<Id>(s: State<Id>, t: State<Id>, b: Id)
    requires Readable(s) && Readable(t) && b in s.bufs && FailedOn(s, t, b)
    ensures SameView(s, t)
  {
    forall off ensures ViewBlock(t, off) == ViewBlock(s, off) {
      if off == s.bufs[b].offset && b in s.cache {
        LiveIs(s, b);
        LiveIs(t, b);
      } else {
        BlockUnchanged(s, t, off);
      }
    }
  }

  /** A buffer that is clean, or that the attempt has just sent, reads the same from the server. */
  lemma FinishView<Id>(s: State<Id>, j: nat)
    requires Calmed(s) && Calm(s, Finish(j, Sent)) && Inv(FinishNext(s, j, Sent)) && Quiet(FinishNext(s, j, Sent))
    ensures SameView(s, FinishNext(s, j, Sent))
  {
    var t := FinishNext(s, j, Sent);
    var b := s.jobs[j].buf;
    assert Outstanding(s, j);
    if b !in s.cache {
      EvictedFinishView(s, j);
    }
    hide JobsOk, EntriesCleared, Acknowledged, NoneLost, SyncTracked, SkippersHarmless;
    forall off ensures ViewBlock(t, off) == ViewBlock(s, off) {
      if off != s.bufs[b].offset {
        BlockUnchanged(s, t, off);
      } else if b in s.cache {
        LiveIs(s, b);
        LiveIs(t, b);
      }
    }
  }

  lemma EvictedFinishView<Id>(s: State<Id>, j: nat)
    requires Calmed(s) && Calm(s, Finish(j, Sent)) && Inv(FinishNext(s, j, Sent)) && Quiet(FinishNext(s, j, Sent))
    requires s.jobs[j].buf !in s.cache
    ensures var off := s.bufs[s.jobs[j].buf].offset; ViewBlock(FinishNext(s, j, Sent), off) == ViewBlock(s, off)
  {
    var t := FinishNext(s, j, Sent);
    var b := s.jobs[j].buf;
    var off := s.bufs[b].offset;
    assert Outstanding(s, j);
    hide JobsOk, EntriesCleared, Acknowledged, NoneLost, SyncTracked, SkippersHarmless;
    assert forall x :: x in t.bufs && t.bufs[x].offset == off ==> !IsLive(t, x);
    assert Live(t, off).None?;
    if IsLive(s, b) {
      LiveIs(s, b);
      assert t.server[off] == s.bufs[b].data[..s.bufs[b].limit];
      assert Pad(t.server[off], s.chunkSize) == s.bufs[b].data;
    } else {
      assert forall x :: x in s.bufs && s.bufs[x].offset == off ==> !IsLive(s, x);
      assert Live(s, off).None?;
    }
  }

  lemma BlocksAreFull<Id>(s: State<Id>, off: int)
    requires Inv(s)
    ensures |ViewBlock(s, off)| == s.chunkSize && |Content(s, off)| == s.chunkSize
  {
  }

  lemma LocateQuiet<Id>(s: State<Id>, pos: int, bytes: Bytes, spare: Id)
    requires Calmed(s) && Calm(s, Locate(pos, bytes, spare))
    ensures Quiet(LocateNext(s, pos, bytes, spare))
  {
    var off := BlockOf(s.chunkSize, pos);
    var client := LocateNext(s, pos, bytes, spare).client;
    if Peek(s.cache, s.bufs, off).Some? {
      HitQuiet(s, pos, bytes, spare);
    } else if off in s.flushing {
      RevivedQuiet(s, off);
      QuietIgnoresClient(CacheAdd(Revived(s, off), s.flushing[off]), client);
    } else {
      NewBufferQuiet(s, off, spare);
      QuietIgnoresClient(CacheAdd(WithNewBuffer(s, off, spare), spare), client);
    }
  }

  lemma QuietIgnoresClient<Id>(s: State<Id>, client: Client<Id>)
    requires Quiet(s)
    ensures Quiet(s.(client := client))
  {
    assert forall j :: Outstanding(s.(client := client), j) <==> Outstanding(s, j);
  }

  ghost predicate FlushedIsStored<Id>(s: State<Id>) {
    forall b :: b in s.bufs && s.bufs[b].flushed ==> s.bufs[b].offset in s.server
  }

  lemma StepKeepsStored<Id>(s: State<Id>, step: Step<Id>)
    requires Inv(s) && Enabled(s, step) && FlushedIsStored(s)
    ensures FlushedIsStored(Apply(s, step))
  {
    hide Core, BlockOf;
    forall b | b in Apply(s, step).bufs && Apply(s, step).bufs[b].flushed
      ensures Apply(s, step).bufs[b].offset in Apply(s, step).server
    {
      if step.Finish? {
        FinishStores(s, step, b);
      } else {
        OthersFlushNothing(s, step, b);
      }
    }
  }

  lemma FinishStores<Id>(s: State<Id>, step: Step<Id>, b: Id)
    requires Enabled(s, step) && FlushedIsStored(s) && step.Finish? && b in s.bufs
    ensures var t := Apply(s, step); b in t.bufs && (t.bufs[b].flushed ==> t.bufs[b].offset in t.server)
  {
  }

  lemma OthersFlushNothing<Id>(s: State<Id>, step: Step<Id>, b: Id)
    requires Enabled(s, step) && !step.Finish? && b in Apply(s, step).bufs && Apply(s, step).bufs[b].flushed
    ensures b in s.bufs && s.bufs[b].flushed && Apply(s, step).bufs[b].offset == s.bufs[b].offset
    ensures Apply(s, step).server == s.server
  {
    hide BlockOf, CacheAdd, Peek, Without;
    match step
    case Locate(pos, bytes, spare) =>
      var off := BlockOf(s.chunkSize, pos);
      if Peek(s.cache, s.bufs, off).None? {
        if off in s.flushing {
          CacheAddFlushesNothing(Revived(s, off), s.flushing[off]);
        } else {
          CacheAddFlushesNothing(WithNewBuffer(s, off, spare), spare);
        }
      }
    case Raise => CacheAddFlushesNothing(s, s.client.buf);
    case _ =>
  }

  lemma CacheAddFlushesNothing<Id>(s: State<Id>, b: Id)
    requires WellFormed(s) && b in s.bufs
    ensures CacheAdd(s, b).bufs.Keys == s.bufs.Keys && CacheAdd(s, b).server == s.server
    ensures CacheAdd(s, b).chunkSize == s.chunkSize
    ensures forall x :: x in s.bufs ==>
        CacheAdd(s, b).bufs[x] == s.bufs[x].(flushing := CacheAdd(s, b).bufs[x].flushing)
  {
  }

  /** A job for a block without a live buffer has a clean buffer, so the server has the block. */
  lemma ExactIsCalm<Id>(s: State<Id>, step: Step<Id>)
    requires Calmed(s) && FlushedIsStored(s) && Exact(s, step)
    ensures Calm(s, step)
  {
    if MakesBuffer(s, step) {
      var off := BlockOf(s.chunkSize, step.pos);
      assert forall j :: !JobAt(s, j, off);
    }
  }

  lemma StepKeepsCalmed<Id>(s: State<Id>, step: Step<Id>)
    requires Calmed(s) && Calm(s, step)
    ensures Calmed(Apply(s, step))
  {
    StepKeepsInv(s, step);
    StepKeepsSound(s, step);
    hide Core, Sound, Inv, DirtyIsLive, OneLiveBuffer, JobsAreCurrent, CleanIsOnServer, SkippersHarmless;
    match step
    case Locate(pos, bytes, spare) => LocateQuiet(s, pos, bytes, spare);
    case Copy => CopyQuiet(s);
    case Raise => RaiseQuiet(s);
    case SyncBegin => QuietIgnoresClient(s, Syncing(s.cache));
    case SyncSubmit => SyncSubmitQuiet(s);
    case SyncReturn => QuietIgnoresClient(s, Idle);
    case SyncAbort => QuietIgnoresClient(s, Idle);
    case Start(j) => StartQuiet(s, j);
    case Finish(j, outcome) =>
      if !outcome.Sent? {
        FailedQuiet(s, j, outcome);
      } else if s.jobs[j].phase.flush {
        SentQuiet(s, j);
      } else {
        SkipQuiet(s, j);
      }
  }

  // ----- What a step does to the content -----

  ghost function Written(block: Bytes, at: int, bytes: Bytes): Bytes {
    if 0 <= at && at + |bytes| <= |block| then Splice(block, at, bytes) else block
  }

  /**
   * The content a step leaves in a block: only Locate, the first half of a write, changes it.
   * A block that gets a new buffer starts from zeros, whatever the server has for it.
   */
  ghost function ContentAfter<Id>(s: State<Id>, step: Step<Id>, off: int): Bytes
    requires Enabled(s, step)
  {
    if step.Locate? && BlockOf(s.chunkSize, step.pos) == off
    then Written(if MakesBuffer(s, step) then Zeros(s.chunkSize) else Content(s, off), step.pos - off, step.bytes)
    else Content(s, off)
  }

  lemma LocateView<Id>(s: State<Id>, pos: int, bytes: Bytes, spare: Id)
    requires Calmed(s) && Calm(s, Locate(pos, bytes, spare)) && Calmed(LocateNext(s, pos, bytes, spare))
    ensures var t := LocateNext(s, pos, bytes, spare); var off := BlockOf(s.chunkSize, pos);
      && t.client.Located? && t.bufs[t.client.buf].offset == off
      && ViewBlock(t, off) == (if Live(s, off).None? then Zeros(s.chunkSize) else ViewBlock(s, off))
      && forall o :: o != off ==> ViewBlock(t, o) == ViewBlock(s, o)
  {
    var off := BlockOf(s.chunkSize, pos);
    var t := LocateNext(s, pos, bytes, spare);
    hide Quiet, Sound, BuffersOk, JobsOk, EntriesCleared, CacheAdd, BlockOf;
    if Peek(s.cache, s.bufs, off).Some? {
      HitQuiet(s, pos, bytes, spare);
    } else if off in s.flushing {
      CalmedIsReadable(t);
      RevivedView(s, t, off);
    } else {
      NewBufferView(s, pos, bytes, spare);
    }
  }

  lemma RevivedView<Id>(s: State<Id>, t: State<Id>, off: int)
    requires Calmed(s) && s.client.Idle? && off in s.flushing && Peek(s.cache, s.bufs, off).None?
    requires 0 < |s.cache| && s.bufferSize <= |s.cache| ==> NotUnderTest(s, s.cache[0])
    requires t == CacheAdd(Revived(s, off), s.flushing[off]).(client := t.client) && Readable(t)
    ensures SameView(s, t)
  {
    CalmedIsReadable(s);
    RevivedQuiet(s, off);
    CacheAddFlushesNothing(Revived(s, off), s.flushing[off]);
    hide Inv, Sound, Quiet, CacheAdd, Readable;
    SameLiveSameView(s, t);
  }

  lemma CalmedIsReadable<Id>(s: State<Id>)
    requires Calmed(s)
    ensures Readable(s)
  {
    hide Sound;
  }

  lemma NewBufferView<Id>(s: State<Id>, pos: int, bytes: Bytes, spare: Id)
    requires Calmed(s) && Calm(s, Locate(pos, bytes, spare)) && Calmed(LocateNext(s, pos, bytes, spare))
    requires Live(s, BlockOf(s.chunkSize, pos)).None?
    ensures var t := LocateNext(s, pos, bytes, spare); var off := BlockOf(s.chunkSize, pos);
      && t.client.Located? && t.bufs[t.client.buf].offset == off && ViewBlock(t, off) == Zeros(s.chunkSize)
      && forall o :: o != off ==> ViewBlock(t, o) == ViewBlock(s, o)
  {
    var off := BlockOf(s.chunkSize, pos);
    var t := LocateNext(s, pos, bytes, spare);
    NewBufferQuiet(s, off, spare);
    assert Readable(s) && Readable(t);
    LiveIs(t, spare);
    hide Inv, Sound, Quiet, OneLiveBuffer, FlushingOk, CacheOk, ViewBlock, Live, BlockOf;
    forall o | o != off ensures ViewBlock(t, o) == ViewBlock(s, o) {
      BlockUnchanged(s, t, o);
    }
  }

  lemma CopyView<Id>(s: State<Id>, off: int)
    requires Calmed(s) && Calm(s, Copy) && Calmed(CopyNext(s))
    ensures ViewBlock(CopyNext(s), off) == Content(s, off)
  {
    var t := CopyNext(s);
    var b := s.client.buf;
    if s.bufs[b].offset == off {
      LiveIs(s, b);
      LiveIs(t, b);
    } else {
      BlockUnchanged(s, t, off);
    }
  }

  lemma SyncEndsView<Id>(s: State<Id>, client: Client<Id>)
    requires Calmed(s) && Calmed(s.(client := client))
    ensures SameView(s, s.(client := client))
  {
    SameLiveSameView(s, s.(client := client));
  }

  /** Flushing and Sync do not change the view. */
  lemma StepView<Id>(s: State<Id>, step: Step<Id>)
    requires Calmed(s) && Calm(s, step) && Calmed(Apply(s, step)) && !step.Copy? && !step.Locate?
    ensures SameView(s, Apply(s, step))
  {
    hide Core, Sound, DirtyIsLive, OneLiveBuffer, JobsAreCurrent, CleanIsOnServer, SkippersHarmless;
    match step
    case Raise => RaiseQuiet(s);
    case SyncBegin => SyncEndsView(s, Syncing(s.cache));
    case SyncSubmit => SyncSubmitView(s);
    case SyncReturn => SyncEndsView(s, Idle);
    case SyncAbort => SyncEndsView(s, Idle);
    case Start(j) => StartQuiet(s, j);
    case Finish(j, outcome) =>
      if outcome.Sent? {
        FinishView(s, j);
      } else {
        FailedView(s, j, outcome);
      }
  }

  lemma WorkersLeaveTheClient<Id>(s: State<Id>, step: Step<Id>)
    requires Enabled(s, step) && step.Worker()
    ensures var t := Apply(s, step);
      t.client == s.client && forall b :: b in s.bufs ==> b in t.bufs && t.bufs[b].offset == s.bufs[b].offset
  {
  }

  lemma LocatedFits<Id>(s: State<Id>, step: Step<Id>)
    requires Calmed(s) && Calm(s, step) && step.Locate?
    ensures var off := BlockOf(s.chunkSize, step.pos); var t := LocateNext(s, step.pos, step.bytes, step.spare);
      t.client.Located? && t.client.at == step.pos - off && t.client.bytes == step.bytes && t.chunkSize == s.chunkSize
  {
  }

  lemma StepContent<Id>(s: State<Id>, step: Step<Id>, off: int)
    requires Calmed(s) && Calm(s, step)
    ensures Calmed(Apply(s, step)) && Content(Apply(s, step), off) == ContentAfter(s, step, off)
  {
    hide LimitSettled, NoStaleJob, NoEvictionUnderTest, NoEvictedAttemptFails, Core, Sound, Quiet;
    StepKeepsCalmed(s, step);
    var t := Apply(s, step);
    BlocksAreFull(s, off);
    BlocksAreFull(t, off);
    if step.Copy? {
      CopyView(s, off);
    } else if step.Locate? {
      LocateContent(s, step, off);
    } else {
      OtherContent(s, step, off);
    }
  }

  lemma LocateContent<Id>(s: State<Id>, step: Step<Id>, off: int)
    requires Calmed(s) && Calm(s, step) && step.Locate? && Calmed(Apply(s, step))
    requires |ViewBlock(s, off)| == s.chunkSize
    ensures Content(Apply(s, step), off) == ContentAfter(s, step, off)
  {
    LocateView(s, step.pos, step.bytes, step.spare);
    LocatedFits(s, step);
    LocatedContent(s, LocateNext(s, step.pos, step.bytes, step.spare), step, off);
    hide Inv, Sound, Quiet, LocateNext, ViewBlock, Live, BlockOf, ContentAfter, Content;
  }

  /** The content while a piece is located but not yet copied. */
  lemma LocatedContent<Id>(s: State<Id>, t: State<Id>, step: Step<Id>, off: int)
    requires Enabled(s, step) && step.Locate? && WellFormed(t) && t.chunkSize == s.chunkSize
    requires t.client.Located?
    requires t.client == Located(t.client.buf, step.pos - BlockOf(s.chunkSize, step.pos), step.bytes)
    requires t.bufs[t.client.buf].offset == BlockOf(s.chunkSize, step.pos)
    requires ViewBlock(t, BlockOf(s.chunkSize, step.pos)) ==
      if MakesBuffer(s, step) then Zeros(s.chunkSize) else ViewBlock(s, BlockOf(s.chunkSize, step.pos))
    requires off != BlockOf(s.chunkSize, step.pos) ==> ViewBlock(t, off) == ViewBlock(s, off)
    ensures Content(t, off) == ContentAfter(s, step, off)
  {
    hide BlockOf, ViewBlock, MakesBuffer, Fits;
  }

  /** A step that neither locates nor copies leaves every block's content. */
  lemma OtherContent<Id>(s: State<Id>, step: Step<Id>, off: int)
    requires Calmed(s) && Calm(s, step) && Calmed(Apply(s, step)) && !step.Copy? && !step.Locate?
    ensures Content(Apply(s, step), off) == Content(s, off)
  {
    hide LimitSettled, NoStaleJob, NoEvictionUnderTest, NoEvictedAttemptFails, Core, Sound, Quiet, ViewBlock;
    StepView(s, step);
    if step.Worker() {
      WorkersLeaveTheClient(s, step);
      hide Apply, Enabled;
    }
  }

  // ----- The flat file, over whole runs -----

  ghost function ByteAt<Id>(s: State<Id>, p: int): byte
    requires Inv(s) && p >= 0
  {
    BlocksAreFull(s, BlockOf(s.chunkSize, p));
    Content(s, BlockOf(s.chunkSize, p))[p - BlockOf(s.chunkSize, p)]
  }

  ghost function ServerByte(server: map<int, Bytes>, chunkSize: int, p: int): byte
    requires chunkSize > 0 && p >= 0
  {
    ServerBlock(server, chunkSize, BlockOf(chunkSize, p))[p - BlockOf(chunkSize, p)]
  }

  ghost predicate Covers<Id>(step: Step<Id>, p: int) {
    step.Locate? && step.pos <= p < step.pos + |step.bytes|
  }

  /** What a step makes of the byte x at p. */
  ghost function ByteAfter<Id>(s: State<Id>, step: Step<Id>, p: int, x: byte): byte
    requires Enabled(s, step) && p >= 0
  {
    if Covers(step, p) then step.bytes[p - step.pos]
    else if step.Locate? && MakesBuffer(s, step) && BlockOf(s.chunkSize, step.pos) == BlockOf(s.chunkSize, p) then 0
    else x
  }

  /** The byte at p after a run: the last write to it, or zero where its block got a new buffer since. */
  ghost function ReplayWithResets<Id>(s: State<Id>, steps: seq<Step<Id>>, p: int, x: byte): byte
    requires Runs(s, steps) && p >= 0
    decreases |steps|
  {
    if steps == [] then x
    else ReplayWithResets(Apply(s, steps[0]), steps[1..], p, ByteAfter(s, steps[0], p, x))
  }

  /** The flat file: what the byte at p is after the writes among the steps, the last one winning. */
  ghost function Replay<Id>(steps: seq<Step<Id>>, p: int, x: byte): byte {
    if steps == [] then x
    else Replay(steps[1..], p, if Covers(steps[0], p) then steps[0].bytes[p - steps[0].pos] else x)
  }

  lemma ChunkSizeKept<Id>(s: State<Id>, step: Step<Id>)
    requires Enabled(s, step)
    ensures Apply(s, step).chunkSize == s.chunkSize
  {
  }

  lemma PieceStaysInItsBlock<Id>(s: State<Id>, step: Step<Id>, p: int)
    requires Enabled(s, step) && Covers(step, p)
    ensures p >= 0 && BlockOf(s.chunkSize, p) == BlockOf(s.chunkSize, step.pos)
    ensures step.pos - BlockOf(s.chunkSize, step.pos) + |step.bytes| <= s.chunkSize
  {
    BlockOfUnique(s.chunkSize, p, step.pos / s.chunkSize);
  }

  lemma InvSizes<Id>(s: State<Id>)
    requires Inv(s)
    ensures WellFormed(s) && s.chunkSize > 0
  {
  }

  lemma ByteOfContent<Id>(s: State<Id>, step: Step<Id>, p: int)
    requires Enabled(s, step) && p >= 0 && |Content(s, BlockOf(s.chunkSize, p))| == s.chunkSize
    ensures var off := BlockOf(s.chunkSize, p);
      && |ContentAfter(s, step, off)| == s.chunkSize
      && ContentAfter(s, step, off)[p - off] == ByteAfter(s, step, p, Content(s, off)[p - off])
  {
    hide Content, BlockOf, MakesBuffer, Apply;
    if Covers(step, p) {
      PieceStaysInItsBlock(s, step, p);
    }
  }

  lemma StepByte<Id>(s: State<Id>, step: Step<Id>, p: int)
    requires Calmed(s) && Calm(s, step) && p >= 0
    ensures Calmed(Apply(s, step)) && Apply(s, step).chunkSize == s.chunkSize
    ensures ByteAt(Apply(s, step), p) == ByteAfter(s, step, p, ByteAt(s, p))
  {
    InvSizes(s);
    hide Core, Sound, Quiet, Apply, Content, ContentAfter, BlockOf, Enabled, ByteAfter;
    hide LimitSettled, NoStaleJob, NoEvictionUnderTest, NoEvictedAttemptFails;
    var off := BlockOf(s.chunkSize, p);
    StepContent(s, step, off);
    BlocksAreFull(s, off);
    ChunkSizeKept(s, step);
    ByteOfContent(s, step, p);
  }

  /** Without a dropped block rewritten, the reset of a new buffer's block is the zeros that were there. */
  lemma ExactByte<Id>(s: State<Id>, step: Step<Id>, p: int)
    requires Calmed(s) && Exact(s, step) && p >= 0
    ensures ByteAfter(s, step, p, ByteAt(s, p)) == if Covers(step, p) then step.bytes[p - step.pos] else ByteAt(s, p)
  {
    if MakesBuffer(s, step) && BlockOf(s.chunkSize, step.pos) == BlockOf(s.chunkSize, p) {
      assert Content(s, BlockOf(s.chunkSize, p)) == Zeros(s.chunkSize);
    }
  }

  lemma {:induction false} CalmRunReplays<Id>(s: State<Id>, steps: seq<Step<Id>>, p: int)
    requires Calmed(s) && CalmRun(s, steps) && p >= 0
    ensures Runs(s, steps) && Calmed(Exec(s, steps)) && Exec(s, steps).chunkSize == s.chunkSize
    ensures ByteAt(Exec(s, steps), p) == ReplayWithResets(s, steps, p, ByteAt(s, p))
    decreases |steps|
  {
    hide Core, Sound, Quiet, ByteAt, Enabled, Apply, ByteAfter;
    hide LimitSettled, NoStaleJob, NoEvictionUnderTest, NoEvictedAttemptFails;
    if steps != [] {
      StepByte(s, steps[0], p);
      CalmRunReplays(Apply(s, steps[0]), steps[1..], p);
    }
  }

  lemma {:induction false} ExactRunReplays<Id>(s: State<Id>, steps: seq<Step<Id>>, p: int)
    requires Calmed(s) && FlushedIsStored(s) && ExactRun(s, steps) && p >= 0
    ensures Runs(s, steps) && Calmed(Exec(s, steps)) && Exec(s, steps).chunkSize == s.chunkSize
    ensures ByteAt(Exec(s, steps), p) == Replay(steps, p, ByteAt(s, p))
    decreases |steps|
  {
    hide Core, Sound, Quiet, ByteAt, Enabled, Apply, ByteAfter, Covers, FlushedIsStored;
    hide LimitSettled, NoStaleJob, NoEvictionUnderTest, NoEvictedAttemptFails, NoDroppedBlockRewritten;
    if steps != [] {
      ExactIsCalm(s, steps[0]);
      StepKeepsStored(s, steps[0]);
      StepByte(s, steps[0], p);
      ExactByte(s, steps[0], p);
      ExactRunReplays(Apply(s, steps[0]), steps[1..], p);
    }
  }

  lemma OpenedCalmed<Id>(chunkSize: int, bufferSize: int, server: map<int, Bytes>)
    requires chunkSize > 0 && bufferSize > 0
    ensures var s: State<Id> := Opened(chunkSize, bufferSize, server);
      Calmed(s) && FlushedIsStored(s) && forall p :: p >= 0 ==> ByteAt(s, p) == ServerByte(server, chunkSize, p)
  {
  }

  /**
   * In every calm run of an opened file, evictions, revivals, flushes and Syncs never show: a byte is
   * what the last write made it, or what the server had, except where a dropped block was rewritten.
   */
  lemma ViewOfCalmRuns<Id>(chunkSize: int, bufferSize: int, server: map<int, Bytes>, steps: seq<Step<Id>>, p: int)
    requires chunkSize > 0 && bufferSize > 0 && p >= 0
    requires CalmRun(Opened(chunkSize, bufferSize, server), steps)
    ensures Runs(Opened(chunkSize, bufferSize, server), steps)
        && Inv(Exec(Opened(chunkSize, bufferSize, server), steps))
    ensures ByteAt(Exec(Opened(chunkSize, bufferSize, server), steps), p)
         == ReplayWithResets(Opened(chunkSize, bufferSize, server), steps, p, ServerByte(server, chunkSize, p))
  {
    OpenedCalmed<Id>(chunkSize, bufferSize, server);
    CalmRunReplays(Opened(chunkSize, bufferSize, server), steps, p);
  }

  /**
   * When no dropped block is rewritten, the file is the flat file: its old bytes overwritten by the writes in order.
   */
  lemma ViewRefinesFlatFile<Id>(chunkSize: int, bufferSize: int, server: map<int, Bytes>, steps: seq<Step<Id>>,
      p: int)
    requires chunkSize > 0 && bufferSize > 0 && p >= 0
    requires ExactRun(Opened(chunkSize, bufferSize, server), steps)
    ensures Runs(Opened(chunkSize, bufferSize, server), steps)
        && Inv(Exec(Opened(chunkSize, bufferSize, server), steps))
    ensures ByteAt(Exec(Opened(chunkSize, bufferSize, server), steps), p)
         == Replay(steps, p, ServerByte(server, chunkSize, p))
  {
    OpenedCalmed<Id>(chunkSize, bufferSize, server);
    ExactRunReplays(Opened(chunkSize, bufferSize, server), steps, p);
  }

  /** Where Sync returns nil, everything is clean and the server alone is the view. */
  lemma SyncReturnsOnlyWhenClean<Id>(s: State<Id>)
    requires Calmed(s) && Enabled(s, SyncReturn)
    ensures forall b :: b in s.bufs ==> s.bufs[b].flushed
    ensures forall off :: ViewBlock(s, off) == ServerBlock(s.server, s.chunkSize, off)
  {
    forall b | b in s.bufs ensures s.bufs[b].flushed {
      if b in s.cache {
        assert Tracked(s, b);
      }
    }
    forall off ensures ViewBlock(s, off) == ServerBlock(s.server, s.chunkSize, off) {
      if Live(s, off).Some? {
        var b := Live(s, off).value;
        assert IsLive(s, b) && s.bufs[b].offset == off;
        assert Pad(s.bufs[b].data[..s.bufs[b].limit], s.chunkSize) == s.bufs[b].data;
      }
    }
  }

  /**
   * After a calm run, Sync returns nil only when no buffer is dirty or waiting and the server's blocks alone are the
   * view.
   */
  lemma SyncSoundness<Id>(chunkSize: int, bufferSize: int, server: map<int, Bytes>, steps: seq<Step<Id>>, p: int)
    requires chunkSize > 0 && bufferSize > 0 && p >= 0
    requires CalmRun(Opened(chunkSize, bufferSize, server), steps)
    ensures Runs(Opened(chunkSize, bufferSize, server), steps)
        && Inv(Exec(Opened(chunkSize, bufferSize, server), steps))
    ensures var t := Exec(Opened(chunkSize, bufferSize, server), steps);
      Enabled(t, SyncReturn) ==>
        && (forall b :: b in t.bufs ==> t.bufs[b].flushed) && t.flushing == map[]
        && ServerByte(t.server, chunkSize, p) == ByteAt(t, p)
  {
    OpenedCalmed<Id>(chunkSize, bufferSize, server);
    CalmRunReplays(Opened(chunkSize, bufferSize, server), steps, p);
    var t := Exec(Opened(chunkSize, bufferSize, server), steps);
    hide Opened, Exec, Runs, CalmRun, Core, Sound, Quiet, Content;
    if Enabled(t, SyncReturn) {
      SyncReturnsOnlyWhenClean(t);
    }
  }

  /** Write, Sync, read: after an exact run in which Sync returns nil, the server alone holds every byte written. */
  lemma SyncedFileIsTheFlatFile<Id>(chunkSize: int, bufferSize: int, server: map<int, Bytes>, steps: seq<Step<Id>>,
      p: int)
    requires chunkSize > 0 && bufferSize > 0 && p >= 0
    requires ExactRun(Opened(chunkSize, bufferSize, server), steps)
    ensures Runs(Opened(chunkSize, bufferSize, server), steps)
    ensures var t := Exec(Opened(chunkSize, bufferSize, server), steps);
      Enabled(t, SyncReturn) ==> ServerByte(t.server, chunkSize, p) == Replay(steps, p, ServerByte(server, chunkSize,
          p))
  {
    OpenedCalmed<Id>(chunkSize, bufferSize, server);
    ExactRunReplays(Opened(chunkSize, bufferSize, server), steps, p);
    var t := Exec(Opened(chunkSize, bufferSize, server), steps);
    hide Opened, Exec, Runs, ExactRun, Core, Sound, Quiet, Replay, Content;
    if Enabled(t, SyncReturn) {
      SyncReturnsOnlyWhenClean(t);
      assert ByteAt(t, p) == ServerByte(t.server, chunkSize, p);
    }
  }

  /** The block that such a write leaves, and the one the server has. */
  lemma RewrittenContent<Id>(s: State<Id>, step: Step<Id>)
    requires Calmed(s) && Calm(s, step) && MakesBuffer(s, step)
    ensures var off := BlockOf(s.chunkSize, step.pos); var t := Apply(s, step);
      && WellFormed(t) && |Content(t, off)| == |Content(s, off)| == s.chunkSize
      && 0 <= step.pos - off && step.pos - off + |step.bytes| <= s.chunkSize
      && Content(s, off) == ServerBlock(s.server, s.chunkSize, off)
      && Content(t, off) == Splice(Zeros(s.chunkSize), step.pos - off, step.bytes)
  {
    var off := BlockOf(s.chunkSize, step.pos);
    StepContent(s, step, off);
    BlocksAreFull(s, off);
    BlocksAreFull(Apply(s, step), off);
    hide Core, Sound, Quiet, Apply, LimitSettled, NoStaleJob, NoEvictionUnderTest, NoEvictedAttemptFails;
  }

  lemma ZerosOutsideIff(n: nat, at: nat, bytes: Bytes, block: Bytes)
    requires at + |bytes| <= n == |block|
    ensures (forall k :: 0 <= k < n && !(at <= k < at + |bytes|) ==> Splice(Zeros(n), at, bytes)[k] == block[k])
        <==> (forall k :: 0 <= k < n && !(at <= k < at + |bytes|) ==> block[k] == 0)
  {
  }

  /**
   * A write that has to make a buffer for a block the server already has is exact if and only if the
   * server's block is zero everywhere outside the written bytes: the engine never reads the block back.
   */
  lemma RewriteExactIff<Id>(s: State<Id>, pos: int, bytes: Bytes, spare: Id)
    requires Calmed(s) && Calm(s, Locate(pos, bytes, spare)) && MakesBuffer(s, Locate(pos, bytes, spare))
    ensures var off := BlockOf(s.chunkSize, pos); var t := LocateNext(s, pos, bytes, spare);
      && WellFormed(t) && |Content(t, off)| == |Content(s, off)| == s.chunkSize
      && ((forall k :: 0 <= k < s.chunkSize && !(pos - off <= k < pos - off + |bytes|) ==>
          Content(t, off)[k] == Content(s, off)[k])
          <==>
          forall k :: 0 <= k < s.chunkSize && !(pos - off <= k < pos - off + |bytes|) ==>
            ServerBlock(s.server, s.chunkSize, off)[k] == 0)
  {
    var off := BlockOf(s.chunkSize, pos);
    RewrittenContent(s, Locate(pos, bytes, spare));
    hide Inv, Sound, Quiet, Calm, WellFormed, LocateNext, Content, ServerBlock, BlockOf, MakesBuffer, Splice, Zeros;
    ZerosOutsideIff(s.chunkSize, pos - off, bytes, ServerBlock(s.server, s.chunkSize, off));
  }

  /** Without its flushing entry a block without a cached buffer reads as the server has it. */
  lemma EntryDeleted<Id>(s: State<Id>, off: int)
    requires WellFormed(s)
    ensures var t := s.(flushing := s.flushing - {off});
      && WellFormed(t) && (forall o :: o != off ==> ViewBlock(t, o) == ViewBlock(s, o))
      && (ViewBlock(t, off) != ViewBlock(s, off) <==>
            && off in s.flushing && Peek(s.cache, s.bufs, off).None?
            && s.bufs[s.flushing[off]].data != ServerBlock(s.server, s.chunkSize, off))
  {
  }

  /** Adding to a full cache drops the oldest buffer and with it the only cached one of its block. */
  lemma OldestLeaves<Id>(s: State<Id>, b: Id)
    requires WellFormed(s) && Distinct(s.cache, s.bufs) && s.bufferSize <= |s.cache| && b in s.bufs && b !in s.cache
    requires s.bufs[b].offset != s.bufs[s.cache[0]].offset
    ensures var t := CacheAdd(s, b); var off := s.bufs[s.cache[0]].offset;
      && WellFormed(t) && Peek(t.cache, t.bufs, off).None? && t.server == s.server && t.chunkSize == s.chunkSize
      && s.jobs <= t.jobs && forall x :: x in s.bufs ==> x in t.bufs && t.bufs[x].offset == s.bufs[x].offset
  {
    var t := CacheAdd(s, b);
    var v := s.cache[0];
    assert t.cache == s.cache[1..] + [b];
    forall i | 0 <= i < |t.cache| ensures t.bufs[t.cache[i]].offset != s.bufs[v].offset {
      assert i < |s.cache| - 1 ==> t.cache[i] == s.cache[i + 1];
    }
  }

  /** v was cached; now no buffer of its block is. */
  ghost predicate Uncached<Id>(s: State<Id>, t: State<Id>, v: Id)
    requires v in s.bufs
  {
    && WellFormed(t) && Peek(t.cache, t.bufs, s.bufs[v].offset).None?
    && t.server == s.server && t.chunkSize == s.chunkSize && s.jobs <= t.jobs
    && forall x :: x in s.bufs ==> x in t.bufs && t.bufs[x].offset == s.bufs[x].offset
  }

  lemma RevivalEvicts<Id>(s: State<Id>, off: int)
    requires Inv(s) && off in s.flushing && Peek(s.cache, s.bufs, off).None? && s.bufferSize <= |s.cache|
    ensures Uncached(s, CacheAdd(Revived(s, off), s.flushing[off]), s.cache[0])
  {
    assert s.bufs[s.cache[0]].offset != off;
    hide BuffersOk, JobsOk, EntriesCleared, CacheAdd;
    OldestLeaves(Revived(s, off), s.flushing[off]);
  }

  lemma NewBufferEvicts<Id>(s: State<Id>, off: int, spare: Id)
    requires Inv(s) && spare !in s.bufs && Peek(s.cache, s.bufs, off).None? && s.bufferSize <= |s.cache|
    ensures Uncached(s, CacheAdd(WithNewBuffer(s, off, spare), spare), s.cache[0])
  {
    assert s.bufs[s.cache[0]].offset != off;
    hide BuffersOk, JobsOk, EntriesCleared, CacheAdd;
    OldestLeaves(WithNewBuffer(s, off, spare), spare);
  }

  lemma EvictingLocate<Id>(s: State<Id>, step: Step<Id>)
    requires Inv(s) && Enabled(s, step) && step.Locate? && s.bufferSize <= |s.cache|
    requires Peek(s.cache, s.bufs, BlockOf(s.chunkSize, step.pos)).None?
    ensures Uncached(s, Apply(s, step), s.cache[0])
  {
    LocateIs(s, step);
    hide BlockOf, Inv, CacheAdd, Enabled, Apply;
    var off := BlockOf(s.chunkSize, step.pos);
    if off in s.flushing {
      RevivalEvicts(s, off);
    } else {
      NewBufferEvicts(s, off, step.spare);
    }
  }

  /** The end of an attempt that skipped its buffer, when no other buffer of the block is cached. */
  lemma SkipUncovers<Id>(s: State<Id>, j: nat)
    requires WellFormed(s) && FinishEnabled(s, j, Sent) && !s.jobs[j].phase.flush
    requires Peek(s.cache, s.bufs, s.bufs[s.jobs[j].buf].offset).None?
    ensures var t := FinishNext(s, j, Sent); var off := s.bufs[s.jobs[j].buf].offset;
      WellFormed(t) && ViewBlock(t, off) == ServerBlock(s.server, s.chunkSize, off)
  {
  }

  lemma CleanReadsTheSame<Id>(s: State<Id>, b: Id)
    requires Calmed(s) && b in s.bufs && IsLive(s, b) && s.bufs[b].flushed && !s.client.Copied?
    ensures ServerBlock(s.server, s.chunkSize, s.bufs[b].offset) == s.bufs[b].data
  {
    assert Pad(s.bufs[b].data[..s.bufs[b].limit], s.chunkSize) == s.bufs[b].data;
  }

  /**
   * A job has decided to skip the oldest cached buffer; a write evicts that buffer, and then the job
   * deletes the entry.  The block reads differently afterwards exactly when the buffer was dirty and the
   * server's block is not what it holds.
   */
  lemma EvictionUnderTestLosesIff<Id>(s: State<Id>, step: Step<Id>, j: nat)
    requires Calmed(s) && Enabled(s, step) && step.Locate? && s.bufferSize <= |s.cache|
    requires Peek(s.cache, s.bufs, BlockOf(s.chunkSize, step.pos)).None?
    requires j < |s.jobs| && s.jobs[j].phase.Holding? && !s.jobs[j].phase.flush && s.jobs[j].buf == s.cache[0]
    ensures Enabled(Apply(s, step), Finish(j, Sent))
    ensures var t := Apply(Apply(s, step), Finish(j, Sent)); var buf := s.bufs[s.cache[0]];
      && WellFormed(t) && ViewBlock(s, buf.offset) == buf.data
      && (ViewBlock(t, buf.offset) != buf.data <==>
            !buf.flushed && ServerBlock(s.server, s.chunkSize, buf.offset) != buf.data)
  {
    var v := s.cache[0];
    LiveIs(s, v);
    EvictingLocate(s, step);
    StepKeepsInv(s, step);
    assert s.bufs[v].flushed ==> ServerBlock(s.server, s.chunkSize, s.bufs[v].offset) == s.bufs[v].data by {
      if s.bufs[v].flushed { CleanReadsTheSame(s, v); }
    }
    var t := Apply(s, step);
    assert t.jobs[j] == s.jobs[j];
    SkipEnabled(t, j);
    hide Core, Sound, Quiet, Enabled, LocateNext, FinishNext, ServerBlock, Live;
    SkipUncovers(t, j);
  }

  lemma SkipEnabled<Id>(s: State<Id>, j: nat)
    requires Inv(s) && j < |s.jobs| && s.jobs[j].phase.Holding?
    ensures Enabled(s, Finish(j, Sent))
  {
  }

  /**
   * A stale job, of another buffer than the live one c of its block, ends: the block reads differently
   * afterwards exactly when c is not cached and what the job leaves on the server is not what c holds.
   */
  lemma StaleJobLosesIff<Id>(s: State<Id>, j: nat, c: Id)
    requires Inv(s) && Enabled(s, Finish(j, Sent)) && c != s.jobs[j].buf
    requires Live(s, s.bufs[s.jobs[j].buf].offset) == Some(c)
    ensures var t := FinishNext(s, j, Sent); var b := s.bufs[s.jobs[j].buf]; var phase := s.jobs[j].phase;
      var onServer := if phase.flush then Pad(b.data[..phase.lim], s.chunkSize)
        else ServerBlock(s.server, s.chunkSize, b.offset);
      && WellFormed(t) && ViewBlock(s, b.offset) == s.bufs[c].data
      && (ViewBlock(t, b.offset) != s.bufs[c].data <==> c !in s.cache && onServer != s.bufs[c].data)
      && forall o :: o != b.offset ==> ViewBlock(t, o) == ViewBlock(s, o)
  {
    hide BuffersOk, EntriesCleared;
    var t := FinishNext(s, j, Sent);
    var off := s.bufs[s.jobs[j].buf].offset;
    assert forall o :: Peek(t.cache, t.bufs, o) == Peek(s.cache, s.bufs, o) by {
      forall o { PeekIgnoresFlags(s.cache, s.bufs, t.bufs, o); }
    }
    assert c in s.cache <==> Peek(s.cache, s.bufs, off).Some? by {
      if c in s.cache { PeekFinds(s.cache, s.bufs, c); }
    }
  }

  lemma {:induction false} PeekIgnoresFlags<Id>(cache: seq<Id>, bufs: map<Id, Buf>, now: map<Id, Buf>, off: int)
    requires forall b :: b in cache ==> b in bufs && b in now && now[b].offset == bufs[b].offset
    ensures Peek(cache, now, off) == Peek(cache, bufs, off)
  {
    if cache != [] { PeekIgnoresFlags(cache[1..], bufs, now, off); }
  }

  /**
   * A failed attempt in a calm state loses its buffer's bytes exactly when the buffer is not cached and the server
   * has others.
   */
  lemma FailedAttemptLosesIff<Id>(s: State<Id>, j: nat)
    requires Calmed(s) && Enabled(s, Finish(j, RpcFailed)) && s.jobs[j].phase.flush && !s.bufs[s.jobs[j].buf].flushed
    ensures var t := FinishNext(s, j, RpcFailed); var b := s.jobs[j].buf; var off := s.bufs[b].offset;
      && WellFormed(t) && ViewBlock(s, off) == s.bufs[b].data
      && (ViewBlock(t, off) != s.bufs[b].data <==>
          b !in s.cache && ServerBlock(s.server, s.chunkSize, off) != s.bufs[b].data)
  {
    var b := s.jobs[j].buf;
    var off := s.bufs[b].offset;
    assert IsLive(s, b);
    LiveIs(s, b);
    EntryDeleted(s, off);
    FailureOnlyDeletes(s, j);
    if b in s.cache {
      PeekFinds(s.cache, s.bufs, b);
    }
    hide Core, Sound, FinishNext, CleanIsOnServer, SkippersHarmless;
    assert Outstanding(s, j);
  }

  lemma FailureOnlyDeletes<Id>(s: State<Id>, j: nat)
    requires WellFormed(s) && FinishEnabled(s, j, RpcFailed) && s.jobs[j].phase.flush
    ensures var t := FinishNext(s, j, RpcFailed); var off := s.bufs[s.jobs[j].buf].offset;
      && WellFormed(t) && ViewBlock(t, off) == ViewBlock(s.(flushing := s.flushing - {off}), off)
  {
  }
}

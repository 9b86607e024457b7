/**
 * No written byte is lost: with one client thread and no file error, the newest buffer of every
 * block is in the cache, or the server holds exactly its bytes, or it is marked as flushing with
 * a job that will send it.  Attempts may fail, entries may be deleted early, dropped blocks may be
 * rewritten.  Two things are ruled out: an attempt that starts to flush a buffer between the
 * client's copy beyond its limit and the raise of that limit, which chunk.mu does not prevent, and a
 * new buffer for a block whose old job is outstanding.
 */
module NoLostBuffer {
  import opened Bytes
  import opened FileMachine
  import opened FileInvariants

  /** An attempt starts to flush the buffer inside the window between Copy and Raise. */
  ghost predicate StartsEarly<Id>(s: State<Id>, step: Step<Id>)
    requires Enabled(s, step)
  {
    && step.Start? && !s.failed && s.client.Copied? && s.client.buf == s.jobs[step.job].buf
    && !s.bufs[s.client.buf].flushed && s.bufs[s.client.buf].flushing
  }

  /** An attempt that starts there reads the limit as the raise will leave it. */
  ghost predicate LimitSettled<Id>(s: State<Id>, step: Step<Id>)
    requires Enabled(s, step)
  {
    StartsEarly(s, step) ==> s.client.end <= s.bufs[s.client.buf].limit
  }

  /** The buffer a write to the block would reach: a cached one, or else one that waits to be flushed. */
  ghost function Live<Id>(s: State<Id>, off: int): (r: Option<Id>)
    requires WellFormed(s)
    ensures r.Some? ==> r.value in s.bufs
  {
    match Peek(s.cache, s.bufs, off)
    case Some(b) => Some(b)
    case None => if off in s.flushing then Some(s.flushing[off]) else None
  }

  ghost predicate MakesBuffer<Id>(s: State<Id>, step: Step<Id>)
    requires Enabled(s, step)
  {
    step.Locate? && Live(s, BlockOf(s.chunkSize, step.pos)).None?
  }

  /** A new buffer for a block is made only when no job for that block is outstanding. */
  ghost predicate NoStaleJob<Id>(s: State<Id>, step: Step<Id>)
    requires Enabled(s, step)
  {
    MakesBuffer(s, step) ==> forall j :: !JobAt(s, j, BlockOf(s.chunkSize, step.pos))
  }

  /** Job j has still to send buffer b. */
  ghost predicate Carries<Id>(s: State<Id>, j: int, b: Id) {
    && 0 <= j < |s.jobs| && s.jobs[j].buf == b
    && (s.jobs[j].phase.Queued? || (s.jobs[j].phase.Holding? && s.jobs[j].phase.flush))
  }

  ghost predicate Acknowledged<Id>(s: State<Id>) {
    forall b :: b in s.bufs && s.bufs[b].flushed ==>
      0 <= s.bufs[b].limit <= |s.bufs[b].data| && s.bufs[b].sent == Some(s.bufs[b].data[..s.bufs[b].limit])
  }

  ghost predicate HoldersOk<Id>(s: State<Id>) {
    forall j :: 0 <= j < |s.jobs| && s.jobs[j].phase.Holding? && s.jobs[j].phase.flush ==>
      && s.jobs[j].buf in s.bufs
      && s.jobs[j].phase.lim == s.bufs[s.jobs[j].buf].limit
      && !s.bufs[s.jobs[j].buf].flushed
      && (s.client.Copied? && s.client.buf == s.jobs[j].buf ==> s.client.end <= s.bufs[s.client.buf].limit)
  }

  ghost predicate CopiedIsDirty<Id>(s: State<Id>) {
    s.client.Copied? ==>
      s.client.buf in s.bufs && (s.bufs[s.client.buf].flushed ==> s.client.end <= s.bufs[s.client.buf].limit)
  }

  ghost predicate Safe<Id>(s: State<Id>, b: Id)
    requires b in s.bufs
  {
    b in s.cache || s.bufs[b].flushed || (s.bufs[b].flushing && exists j :: Carries(s, j, b))
  }

  ghost predicate NoneLost<Id>(s: State<Id>) {
    s.failed || forall b :: b in s.bufs ==> Safe(s, b)
  }

  ghost predicate Tracked<Id>(s: State<Id>, b: Id)
    requires b in s.bufs
  {
    s.bufs[b].flushed || (s.bufs[b].flushing && exists j :: Carries(s, j, b) && s.jobs[j].sync)
  }

  /** During a Sync, every cached buffer is still to be submitted, clean, or carried by one of Sync's own jobs. */
  ghost predicate SyncTracked<Id>(s: State<Id>) {
    s.failed || !s.client.Syncing? ||
    forall b :: b in s.cache && b in s.bufs && b !in s.client.todo ==> Tracked(s, b)
  }

  ghost predicate Sound<Id>(s: State<Id>) {
    Acknowledged(s) && HoldersOk(s) && CopiedIsDirty(s) && NoneLost(s) && SyncTracked(s)
  }

  /**
   * The two existential parts survive a change that leaves each buffer's carriers or makes the buffer safe without
   * them.
   */
  lemma SafeFrame<Id>(s: State<Id>, t: State<Id>)
    requires NoneLost(s) && (s.failed ==> t.failed)
    requires t.failed || forall b :: b in t.bufs ==>
      (b in t.cache || t.bufs[b].flushed ||
        (b in s.bufs && !s.bufs[b].flushed && b !in s.cache && t.bufs[b].flushing))
    requires t.failed || forall b, j ::
      b in t.bufs && b !in t.cache && !t.bufs[b].flushed && Carries(s, j, b) ==> Carries(t, j, b)
    ensures NoneLost(t)
  {
    if !t.failed {
      forall b | b in t.bufs ensures Safe(t, b) {
        if b !in t.cache && !t.bufs[b].flushed {
          assert Safe(s, b);
          var j :| Carries(s, j, b);
          assert Carries(t, j, b);
        }
      }
    }
  }

  lemma SyncFrame<Id>(s: State<Id>, t: State<Id>)
    requires WellFormed(s) && SyncTracked(s) && (s.failed ==> t.failed)
    requires t.failed || !t.client.Syncing? || (s.client.Syncing? && forall b ::
      (b in t.cache && b in t.bufs && b !in t.client.todo && !t.bufs[b].flushed) ==>
      (b in s.bufs && b in s.cache && b !in s.client.todo && !s.bufs[b].flushed && t.bufs[b].flushing))
    requires t.failed || !t.client.Syncing? || forall b, j ::
      (b in t.cache && b in t.bufs && b !in t.client.todo && !t.bufs[b].flushed && Carries(s, j, b) && s.jobs[j].sync)
      ==> (Carries(t, j, b) && t.jobs[j].sync)
    ensures SyncTracked(t)
  {
    if !t.failed && t.client.Syncing? {
      forall b | b in t.cache && b in t.bufs && b !in t.client.todo ensures Tracked(t, b) {
        if !t.bufs[b].flushed {
          assert Tracked(s, b);
          var j :| Carries(s, j, b) && s.jobs[j].sync;
          assert Carries(t, j, b) && t.jobs[j].sync;
        }
      }
    }
  }

  /** CacheAdd moves the evicted buffer from the cache to a job; nothing else depends on the cache. */
  lemma CacheAddSound<Id>(s: State<Id>, b: Id)
    requires WellFormed(s) && b in s.bufs && Acknowledged(s) && HoldersOk(s) && CopiedIsDirty(s)
    requires s.failed || forall x :: x in s.bufs && x != b ==> Safe(s, x)
    ensures var t := CacheAdd(s, b);
      Acknowledged(t) && HoldersOk(t) && CopiedIsDirty(t) && NoneLost(t)
  {
    var t := CacheAdd(s, b);
    assert t.cache[|t.cache| - 1] == b;
    forall x | x in s.cache ensures x in t.cache || x == s.cache[0] {
      var i :| 0 <= i < |s.cache| && s.cache[i] == x;
      if i > 0 && b !in s.cache && |s.cache| + 1 > s.bufferSize {
        assert t.cache[i - 1] == x;
      }
    }
    if !s.failed {
      forall x | x in t.bufs ensures Safe(t, x) {
        if x != b && x !in t.cache && !t.bufs[x].flushed {
          if x in s.cache {
            assert Carries(t, |s.jobs|, x);
          } else {
            assert Safe(s, x);
            var j :| Carries(s, j, x);
            assert Carries(t, j, x);
          }
        }
      }
    }
  }

  lemma RevivedSound<Id>(s: State<Id>, off: int)
    requires Inv(s) && Sound(s) && s.client.Idle? && off in s.flushing
    ensures var t := CacheAdd(Revived(s, off), s.flushing[off]);
      Acknowledged(t) && HoldersOk(t) && CopiedIsDirty(t) && NoneLost(t)
  {
    var r := Revived(s, off);
    if !s.failed {
      forall x | x in r.bufs && x != s.flushing[off] ensures Safe(r, x) {
        assert Safe(s, x);
        if j :| Carries(s, j, x) { assert Carries(r, j, x); }
      }
    }
    CacheAddSound(r, s.flushing[off]);
  }

  lemma NewBufferSound<Id>(s: State<Id>, off: int, spare: Id)
    requires Inv(s) && Sound(s) && s.client.Idle? && spare !in s.bufs
    ensures var t := CacheAdd(WithNewBuffer(s, off, spare), spare);
      Acknowledged(t) && HoldersOk(t) && CopiedIsDirty(t) && NoneLost(t)
  {
    var r := WithNewBuffer(s, off, spare);
    if !s.failed {
      forall x | x in r.bufs && x != spare ensures Safe(r, x) {
        assert Safe(s, x);
        if j :| Carries(s, j, x) { assert Carries(r, j, x); }
      }
    }
    CacheAddSound(r, spare);
  }

  lemma ClientSound<Id>(s: State<Id>, client: Client<Id>)
    requires Acknowledged(s) && HoldersOk(s) && NoneLost(s) && client.Located?
    ensures Sound(s.(client := client))
  {
    SafeFrame(s, s.(client := client));
  }

  lemma LocateSound<Id>(s: State<Id>, pos: int, bytes: Bytes, spare: Id)
    requires Inv(s) && Sound(s) && Enabled(s, Locate(pos, bytes, spare))
    ensures Sound(LocateNext(s, pos, bytes, spare))
  {
    hide BuffersOk, CacheOk, FlushingOk, JobsOk, EntriesCleared, Acknowledged, HoldersOk, NoneLost;
    var off := BlockOf(s.chunkSize, pos);
    var client := LocateNext(s, pos, bytes, spare).client;
    if Peek(s.cache, s.bufs, off).Some? {
      ClientSound(s, client);
    } else if off in s.flushing {
      RevivedSound(s, off);
      ClientSound(CacheAdd(Revived(s, off), s.flushing[off]), client);
    } else {
      NewBufferSound(s, off, spare);
      ClientSound(CacheAdd(WithNewBuffer(s, off, spare), spare), client);
    }
  }

  lemma CopySound<Id>(s: State<Id>)
    requires Inv(s) && Sound(s) && Enabled(s, Copy)
    ensures Sound(CopyNext(s))
  {
    SafeFrame(s, CopyNext(s));
    SyncFrame(s, CopyNext(s));
  }

  lemma RaiseSound<Id>(s: State<Id>)
    requires Inv(s) && Sound(s) && Enabled(s, Raise)
    ensures Sound(RaiseNext(s))
  {
    CacheAddSound(s, s.client.buf);
    SafeFrame(CacheAdd(s, s.client.buf), RaiseNext(s));
  }

  lemma SyncSubmitSound<Id>(s: State<Id>)
    requires Inv(s) && Sound(s) && Enabled(s, SyncSubmit)
    ensures Sound(SyncSubmitNext(s))
  {
    hide Core, ClientOk, Enabled, Acknowledged, HoldersOk, CopiedIsDirty, NoneLost, SyncTracked;
    SubmitKeepsFlags(s);
    SubmitKeepsSafe(s);
    SubmitTracks(s);
  }

  lemma SubmitKeepsFlags<Id>(s: State<Id>)
    requires Acknowledged(s) && HoldersOk(s) && Enabled(s, SyncSubmit)
    ensures var t := SyncSubmitNext(s); Acknowledged(t) && HoldersOk(t) && CopiedIsDirty(t)
  {
  }

  lemma SubmitKeepsSafe<Id>(s: State<Id>)
    requires NoneLost(s) && Enabled(s, SyncSubmit) && ClientOk(s)
    ensures NoneLost(SyncSubmitNext(s))
  {
    SafeFrame(s, SyncSubmitNext(s));
  }

  /** The buffer just submitted has one of Sync's jobs; the others are as they were. */
  lemma SubmitTracks<Id>(s: State<Id>)
    requires SyncTracked(s) && Enabled(s, SyncSubmit)
    ensures SyncTracked(SyncSubmitNext(s))
  {
    var t := SyncSubmitNext(s);
    var b := s.client.todo[0];
    if !s.failed {
      assert Carries(t, |s.jobs|, b);
      forall x | x in t.cache && x !in t.client.todo && x != b ensures Tracked(t, x) {
        assert Tracked(s, x);
        if j :| Carries(s, j, x) && s.jobs[j].sync { assert Carries(t, j, x) && t.jobs[j].sync; }
      }
    }
  }

  lemma StartSound<Id>(s: State<Id>, j: nat)
    requires Inv(s) && Sound(s) && Enabled(s, Start(j)) && LimitSettled(s, Start(j))
    ensures Sound(StartNext(s, j))
  {
    var t := StartNext(s, j);
    var b := s.jobs[j].buf;
    if !s.failed {
      assert Safe(s, b);
      SafeFrame(s, t);
      if s.client.Syncing? && b in s.cache && b !in s.client.todo {
        assert Tracked(s, b);
      }
      SyncFrame(s, t);
    }
  }

  lemma SentSound<Id>(s: State<Id>, j: nat)
    requires Inv(s) && Sound(s) && Enabled(s, Finish(j, Sent)) && s.jobs[j].phase.flush
    ensures Sound(FinishNext(s, j, Sent))
  {
    var t := FinishNext(s, j, Sent);
    SafeFrame(s, t);
    SyncFrame(s, t);
  }

  lemma UnsentSound<Id>(s: State<Id>, j: nat, outcome: Outcome)
    requires Inv(s) && Sound(s) && Enabled(s, Finish(j, outcome)) && (outcome.Sent? ==> !s.jobs[j].phase.flush)
    ensures Sound(FinishNext(s, j, outcome))
  {
    var t := FinishNext(s, j, outcome);
    UnsentEffect(s, j, outcome);
    hide Core, FinishNext, Enabled;
    UnsentKeepsFlags(s, t, j);
    SafeFrame(s, t);
    SyncFrame(s, t);
    hide Safe, Tracked, Acknowledged, HoldersOk, CopiedIsDirty, NoneLost, SyncTracked;
  }

  lemma UnsentKeepsFlags<Id>(s: State<Id>, t: State<Id>, j: nat)
    requires Acknowledged(s) && HoldersOk(s) && CopiedIsDirty(s)
    requires t.bufs == s.bufs && t.client == s.client && j < |s.jobs| == |t.jobs| && !t.jobs[j].phase.Holding?
    requires forall i :: 0 <= i < |s.jobs| && i != j ==> t.jobs[i] == s.jobs[i]
    ensures Acknowledged(t) && HoldersOk(t) && CopiedIsDirty(t)
  {
  }

  /** An attempt that sends nothing leaves every buffer and the other jobs; its own job ends or is queued again. */
  lemma UnsentEffect<Id>(s: State<Id>, j: nat, outcome: Outcome)
    requires Inv(s) && Sound(s) && Enabled(s, Finish(j, outcome)) && (outcome.Sent? ==> !s.jobs[j].phase.flush)
    ensures var t := FinishNext(s, j, outcome);
      && t.bufs == s.bufs && t.cache == s.cache && t.client == s.client && WellFormed(t)
      && |t.jobs| == |s.jobs| && t.jobs[j].buf == s.jobs[j].buf && t.jobs[j].sync == s.jobs[j].sync
          && !t.jobs[j].phase.Holding?
      && (forall i :: 0 <= i < |s.jobs| && i != j ==> t.jobs[i] == s.jobs[i])
      && (t.failed || (!s.failed && (s.jobs[j].phase.flush ==> t.jobs[j].phase.Queued?)))
  {
    hide BuffersOk, CacheOk, FlushingOk, EntriesCleared, Acknowledged, NoneLost, SyncTracked;
  }

  lemma StepKeepsSound<Id>(s: State<Id>, step: Step<Id>)
    requires Inv(s) && Sound(s) && Enabled(s, step) && LimitSettled(s, step)
    ensures Sound(Apply(s, step))
  {
    match step
    case Locate(pos, bytes, spare) => LocateSound(s, pos, bytes, spare);
    case Copy => CopySound(s);
    case Raise => RaiseSound(s);
    case SyncBegin => SafeFrame(s, Apply(s, step));
    case SyncSubmit => SyncSubmitSound(s);
    case SyncReturn => SafeFrame(s, Apply(s, step));
    case SyncAbort => SafeFrame(s, Apply(s, step));
    case Start(j) => StartSound(s, j);
    case Finish(j, outcome) =>
      if outcome.Sent? && s.jobs[j].phase.flush {
        SentSound(s, j);
      } else {
        UnsentSound(s, j, outcome);
      }
  }

  // ----- Whole runs -----

  ghost predicate SettledRun<Id>(s: State<Id>, steps: seq<Step<Id>>)
    decreases |steps|
  {
    steps == [] ||
    (Enabled(s, steps[0]) && LimitSettled(s, steps[0]) && SettledRun(Apply(s, steps[0]), steps[1..]))
  }

  lemma {:induction false} RunKeepsSound<Id>(s: State<Id>, steps: seq<Step<Id>>)
    requires Inv(s) && Sound(s) && SettledRun(s, steps)
    ensures Runs(s, steps) && Inv(Exec(s, steps)) && Sound(Exec(s, steps))
    decreases |steps|
  {
    if steps != [] {
      StepKeepsInv(s, steps[0]);
      StepKeepsSound(s, steps[0]);
      RunKeepsSound(Apply(s, steps[0]), steps[1..]);
    }
  }

  lemma OpenedSound<Id>(chunkSize: int, bufferSize: int, server: map<int, Bytes>)
    requires chunkSize > 0 && bufferSize > 0
    ensures var s: State<Id> := Opened(chunkSize, bufferSize, server); Inv(s) && Sound(s)
  {
  }

  /** What the server acknowledged from b is all that b holds. */
  ghost predicate AllSent<Id>(s: State<Id>, b: Id)
    requires b in s.bufs
  {
    0 <= s.bufs[b].limit <= |s.bufs[b].data| && s.bufs[b].sent == Some(s.bufs[b].data[..s.bufs[b].limit])
  }

  /** Whatever jobs are outstanding, no buffer is given up before the server acknowledged what it holds. */
  lemma UnsentIsKept<Id>(chunkSize: int, bufferSize: int, server: map<int, Bytes>, steps: seq<Step<Id>>, b: Id)
    requires chunkSize > 0 && bufferSize > 0
    requires SettledRun(Opened(chunkSize, bufferSize, server), steps)
    ensures Runs(Opened(chunkSize, bufferSize, server), steps)
    ensures var t := Exec(Opened(chunkSize, bufferSize, server), steps);
      b in t.bufs && !t.failed && !AllSent(t, b) ==>
        b in t.cache || (t.bufs[b].flushing && exists j :: Carries(t, j, b))
  {
    OpenedSound<Id>(chunkSize, bufferSize, server);
    RunKeepsSound(Opened(chunkSize, bufferSize, server), steps);
    var t := Exec(Opened(chunkSize, bufferSize, server), steps);
    if b in t.bufs && !t.failed {
      assert Safe(t, b);
    }
  }

  // ----- What the server holds -----

  /** The server has exactly the bytes of b for b's block. */
  ghost predicate Holds<Id>(s: State<Id>, b: Id)
    requires b in s.bufs
  {
    var buf := s.bufs[b];
    0 <= buf.limit <= |buf.data| && buf.offset in s.server && s.server[buf.offset] == buf.data[..buf.limit]
  }

  ghost function NewestAfter<Id>(s: State<Id>, step: Step<Id>, newest: map<int, Id>): map<int, Id>
    requires Enabled(s, step)
  {
    if MakesBuffer(s, step) then newest[BlockOf(s.chunkSize, step.pos) := step.spare] else newest
  }

  /** For each block, the buffer that was made for it last. */
  ghost function Newest<Id>(s: State<Id>, steps: seq<Step<Id>>, newest: map<int, Id>): map<int, Id>
    requires Runs(s, steps)
    decreases |steps|
  {
    if steps == [] then newest
    else Newest(Apply(s, steps[0]), steps[1..], NewestAfter(s, steps[0], newest))
  }

  /** Every block with a buffer has a newest one. */
  ghost predicate Names<Id>(s: State<Id>, newest: map<int, Id>) {
    && (forall b :: b in s.bufs ==> s.bufs[b].offset in newest)
    && (forall off :: off in newest ==> newest[off] in s.bufs && s.bufs[newest[off]].offset == off)
  }

  ghost predicate IsNewest<Id>(s: State<Id>, newest: map<int, Id>, b: Id) {
    b in s.bufs && s.bufs[b].offset in newest && newest[s.bufs[b].offset] == b
  }

  /** Only the newest buffer of a block is cached, listed or has a job. */
  ghost predicate Current<Id>(s: State<Id>, newest: map<int, Id>) {
    && Names(s, newest)
    && (forall b :: b in s.cache ==> IsNewest(s, newest, b))
    && (forall off :: off in s.flushing ==> IsNewest(s, newest, s.flushing[off]))
    && (forall j :: Outstanding(s, j) ==> IsNewest(s, newest, s.jobs[j].buf))
  }

  /** A clean buffer that is the newest of its block is on the server. */
  ghost predicate CleanIsHeld<Id>(s: State<Id>, newest: map<int, Id>) {
    forall b :: b in s.bufs && IsNewest(s, newest, b) && s.bufs[b].flushed ==> Holds(s, b)
  }

  ghost predicate Kept<Id>(s: State<Id>, newest: map<int, Id>) {
    Current(s, newest) && CleanIsHeld(s, newest)
  }

  /** Buffers stay, and what is cached, listed or has a job is the newest of its block. */
  lemma KeptFrame<Id>(s: State<Id>, t: State<Id>, newest: map<int, Id>)
    requires Kept(s, newest) && t.bufs.Keys == s.bufs.Keys
    requires forall b :: b in s.bufs ==> t.bufs[b].offset == s.bufs[b].offset
    requires forall b :: b in t.cache ==> IsNewest(s, newest, b)
    requires forall off :: off in t.flushing ==> IsNewest(s, newest, t.flushing[off])
    requires forall j :: Outstanding(t, j) ==> IsNewest(s, newest, t.jobs[j].buf)
    requires forall b :: b in s.bufs && IsNewest(s, newest, b) && t.bufs[b].flushed ==> Holds(t, b)
    ensures Kept(t, newest)
  {
    hide Holds;
    assert forall b :: IsNewest(t, newest, b) <==> IsNewest(s, newest, b);
  }

  lemma CacheAddBuffers<Id>(s: State<Id>, b: Id)
    requires WellFormed(s) && b in s.bufs
    ensures var t := CacheAdd(s, b);
      && t.bufs.Keys == s.bufs.Keys && t.server == s.server && t.chunkSize == s.chunkSize
      && (forall x :: x in s.bufs ==> t.bufs[x] == s.bufs[x].(flushing := t.bufs[x].flushing))
  {
  }

  lemma CacheAddMembers<Id>(s: State<Id>, b: Id)
    requires WellFormed(s) && b in s.bufs
    ensures var t := CacheAdd(s, b);
      && (forall x :: x in t.cache ==> x == b || x in s.cache)
      && (forall off :: off in t.flushing ==>
            (off in s.flushing && t.flushing[off] == s.flushing[off]) || t.flushing[off] in s.cache
            || t.flushing[off] == b)
      && (forall j :: Outstanding(t, j) ==>
            (Outstanding(s, j) && t.jobs[j] == s.jobs[j]) || t.jobs[j].buf in s.cache || t.jobs[j].buf == b)
  {
  }

  lemma CacheAddKept<Id>(s: State<Id>, newest: map<int, Id>, b: Id)
    requires WellFormed(s) && Kept(s, newest) && IsNewest(s, newest, b)
    ensures Kept(CacheAdd(s, b), newest)
  {
    CacheAddBuffers(s, b);
    CacheAddMembers(s, b);
    hide CacheAdd, Names, IsNewest;
    KeptFrame(s, CacheAdd(s, b), newest);
  }

  lemma RevivedKept<Id>(s: State<Id>, newest: map<int, Id>, off: int)
    requires WellFormed(s) && FlushingOk(s) && Kept(s, newest) && off in s.flushing
    ensures Kept(Revived(s, off), newest) && IsNewest(Revived(s, off), newest, s.flushing[off])
  {
    var t := Revived(s, off);
    assert forall x :: IsNewest(t, newest, x) <==> IsNewest(s, newest, x);
    assert forall j :: Outstanding(t, j) <==> Outstanding(s, j);
  }

  lemma NewBufferCurrent<Id>(s: State<Id>, newest: map<int, Id>, off: int, spare: Id)
    requires Inv(s) && Current(s, newest) && spare !in s.bufs
    requires Live(s, off).None? && forall j :: !JobAt(s, j, off)
    ensures Current(WithNewBuffer(s, off, spare), newest[off := spare])
    ensures IsNewest(WithNewBuffer(s, off, spare), newest[off := spare], spare)
    ensures var t := WithNewBuffer(s, off, spare);
      forall x :: x in t.bufs && x != spare && IsNewest(t, newest[off := spare], x) ==> IsNewest(s, newest, x)
  {
    var t := WithNewBuffer(s, off, spare);
    var now := newest[off := spare];
    hide BuffersOk, CacheOk, JobsOk, EntriesCleared, ClientOk;
    assert forall x :: x in s.bufs && s.bufs[x].offset != off ==> (IsNewest(t, now, x) <==> IsNewest(s, newest, x));
    assert forall x :: x in s.bufs && s.bufs[x].offset == off ==> !IsNewest(t, now, x);
    assert forall j :: Outstanding(t, j) ==> Outstanding(s, j) && !JobAt(s, j, off);
  }

  lemma NewBufferKept<Id>(s: State<Id>, newest: map<int, Id>, off: int, spare: Id)
    requires Inv(s) && Kept(s, newest) && spare !in s.bufs
    requires Live(s, off).None? && forall j :: !JobAt(s, j, off)
    ensures Kept(WithNewBuffer(s, off, spare), newest[off := spare])
    ensures IsNewest(WithNewBuffer(s, off, spare), newest[off := spare], spare)
  {
    NewBufferCurrent(s, newest, off, spare);
    hide Inv, Current, IsNewest, Live, JobAt;
  }

  lemma KeptIgnoresClient<Id>(s: State<Id>, newest: map<int, Id>, client: Client<Id>)
    requires Kept(s, newest)
    ensures Kept(s.(client := client), newest)
  {
    var t := s.(client := client);
    assert forall x :: IsNewest(t, newest, x) <==> IsNewest(s, newest, x);
    assert forall j :: Outstanding(t, j) <==> Outstanding(s, j);
  }

  lemma LocateKept<Id>(s: State<Id>, newest: map<int, Id>, step: Step<Id>)
    requires Inv(s) && Kept(s, newest) && step.Locate? && Enabled(s, step) && NoStaleJob(s, step)
    ensures Kept(Apply(s, step), NewestAfter(s, step, newest))
  {
    LocateIs(s, step);
    hide BlockOf, Kept, Inv, Taken, Live, JobAt, WellFormed, Enabled, Apply;
    var off := BlockOf(s.chunkSize, step.pos);
    TakenKept(s, newest, off, step.spare);
    KeptIgnoresClient(Taken(s, off, step.spare).0, NewestAfter(s, step, newest), Apply(s, step).client);
  }

  lemma TakenKept<Id>(s: State<Id>, newest: map<int, Id>, off: int, spare: Id)
    requires Inv(s) && Kept(s, newest) && spare !in s.bufs
    requires Live(s, off).None? ==> forall j :: !JobAt(s, j, off)
    ensures Kept(Taken(s, off, spare).0, if Live(s, off).None? then newest[off := spare] else newest)
  {
    hide Kept, BuffersOk, CacheOk, JobsOk, EntriesCleared, CacheAdd, IsNewest, JobAt;
    if Peek(s.cache, s.bufs, off).None? {
      if off in s.flushing {
        RevivedKept(s, newest, off);
        CacheAddKept(Revived(s, off), newest, s.flushing[off]);
      } else {
        NewBufferKept(s, newest, off, spare);
        CacheAddKept(WithNewBuffer(s, off, spare), newest[off := spare], spare);
      }
    }
  }

  lemma CopyKept<Id>(s: State<Id>, newest: map<int, Id>)
    requires Kept(s, newest) && Enabled(s, Copy)
    ensures Kept(CopyNext(s), newest)
  {
    var t := CopyNext(s);
    assert forall x :: IsNewest(t, newest, x) <==> IsNewest(s, newest, x);
    assert forall j :: Outstanding(t, j) <==> Outstanding(s, j);
  }

  lemma RaiseKept<Id>(s: State<Id>, newest: map<int, Id>)
    requires Inv(s) && CopiedIsDirty(s) && Kept(s, newest) && s.client.Copied?
    ensures Kept(RaiseNext(s), newest)
  {
    RaiseEffect(s);
    var t := RaiseNext(s);
    hide RaiseNext, Core;
    assert forall x :: IsNewest(t, newest, x) <==> IsNewest(s, newest, x);
    assert forall j :: Outstanding(t, j) <==> Outstanding(s, j);
  }

  lemma SubmitKept<Id>(s: State<Id>, newest: map<int, Id>)
    requires Kept(s, newest) && ClientOk(s) && Enabled(s, SyncSubmit)
    ensures Kept(SyncSubmitNext(s), newest)
  {
    var t := SyncSubmitNext(s);
    assert forall x :: IsNewest(t, newest, x) <==> IsNewest(s, newest, x);
    assert forall x :: x in t.cache ==> x in s.cache;
    assert forall j :: Outstanding(t, j) && j < |s.jobs| ==> Outstanding(s, j) && t.jobs[j] == s.jobs[j];
  }

  lemma StartKept<Id>(s: State<Id>, newest: map<int, Id>, j: nat)
    requires Kept(s, newest) && Enabled(s, Start(j))
    ensures Kept(StartNext(s, j), newest)
  {
    var t := StartNext(s, j);
    assert forall x :: IsNewest(t, newest, x) <==> IsNewest(s, newest, x);
    assert forall k :: Outstanding(t, k) ==> Outstanding(s, k) && t.jobs[k].buf == s.jobs[k].buf;
  }

  /** The attempt's buffer is the newest of its block and dirty, so no other buffer's bytes are overwritten. */
  lemma FinishKept<Id>(s: State<Id>, newest: map<int, Id>, j: nat, outcome: Outcome)
    requires Inv(s) && HoldersOk(s) && Kept(s, newest) && Enabled(s, Finish(j, outcome))
    ensures Kept(FinishNext(s, j, outcome), newest)
  {
    var t := FinishNext(s, j, outcome);
    FinishMembers(s, j, outcome);
    assert IsNewest(s, newest, s.jobs[j].buf);
    forall b | b in s.bufs && IsNewest(s, newest, b) && t.bufs[b].flushed ensures Holds(t, b) {
      FinishHolds(s, j, outcome, b);
    }
    hide FinishNext, Names, Core, Holds, HoldersOk;
    KeptFrame(s, t, newest);
  }

  /** An attempt's buffer is on the server if the attempt leaves it clean; buffers of other blocks are as they were. */
  lemma FinishHolds<Id>(s: State<Id>, j: nat, outcome: Outcome, b: Id)
    requires HoldersOk(s) && Enabled(s, Finish(j, outcome)) && b in s.bufs && (s.bufs[b].flushed ==> Holds(s, b))
    requires b == s.jobs[j].buf || s.bufs[b].offset != s.bufs[s.jobs[j].buf].offset
    ensures var t := FinishNext(s, j, outcome); b in t.bufs && (t.bufs[b].flushed ==> Holds(t, b))
  {
  }

  lemma FinishMembers<Id>(s: State<Id>, j: nat, outcome: Outcome)
    requires Enabled(s, Finish(j, outcome))
    ensures Outstanding(s, j)
    ensures var t := FinishNext(s, j, outcome);
      && t.bufs.Keys == s.bufs.Keys && t.cache == s.cache
      && (forall b :: b in s.bufs ==> t.bufs[b].offset == s.bufs[b].offset)
      && (forall off :: off in t.flushing ==> off in s.flushing && t.flushing[off] == s.flushing[off])
      && (forall k :: Outstanding(t, k) ==> Outstanding(s, k) && t.jobs[k].buf == s.jobs[k].buf)
  {
  }

  lemma StepKeepsKept<Id>(s: State<Id>, newest: map<int, Id>, step: Step<Id>)
    requires Inv(s) && Sound(s) && Kept(s, newest)
    requires Enabled(s, step) && NoStaleJob(s, step)
    ensures Kept(Apply(s, step), NewestAfter(s, step, newest))
  {
    hide Core, NoStaleJob, Kept;
    match step
    case Locate(_, _, _) => LocateKept(s, newest, step);
    case Copy => CopyKept(s, newest);
    case Raise => RaiseKept(s, newest);
    case SyncBegin => KeptIgnoresClient(s, newest, Syncing(s.cache));
    case SyncSubmit => SubmitKept(s, newest);
    case SyncReturn => KeptIgnoresClient(s, newest, Idle);
    case SyncAbort => KeptIgnoresClient(s, newest, Idle);
    case Start(j) => StartKept(s, newest, j);
    case Finish(j, outcome) => FinishKept(s, newest, j, outcome);
  }

  /** Attempts may fail and dropped blocks be rewritten; limits are settled, and no new buffer gets over a job. */
  ghost predicate KeepingRun<Id>(s: State<Id>, steps: seq<Step<Id>>)
    decreases |steps|
  {
    steps == [] ||
    (&& Enabled(s, steps[0]) && LimitSettled(s, steps[0]) && NoStaleJob(s, steps[0])
     && KeepingRun(Apply(s, steps[0]), steps[1..]))
  }

  lemma {:induction false} RunKeepsKept<Id>(s: State<Id>, newest: map<int, Id>, steps: seq<Step<Id>>)
    requires Inv(s) && Sound(s) && Kept(s, newest) && KeepingRun(s, steps)
    ensures Runs(s, steps) && Inv(Exec(s, steps)) && Sound(Exec(s, steps))
    ensures Kept(Exec(s, steps), Newest(s, steps, newest))
    decreases |steps|
  {
    hide Core, Sound, Kept, Enabled, Apply, LimitSettled, NoStaleJob, NewestAfter;
    if steps != [] {
      StepKeepsInv(s, steps[0]);
      StepKeepsSound(s, steps[0]);
      StepKeepsKept(s, newest, steps[0]);
      RunKeepsKept(Apply(s, steps[0]), NewestAfter(s, steps[0], newest), steps[1..]);
    }
  }

  /**
   * In every reachable state without a file error, the newest buffer of a block is on the server byte for
   * byte, or it is cached, or it is marked as flushing and has a job that will send it.
   */
  lemma NoLostBuffer<Id>(chunkSize: int, bufferSize: int, server: map<int, Bytes>, steps: seq<Step<Id>>, off: int)
    requires chunkSize > 0 && bufferSize > 0
    requires KeepingRun(Opened(chunkSize, bufferSize, server), steps)
    ensures Runs(Opened(chunkSize, bufferSize, server), steps)
    ensures var t := Exec(Opened(chunkSize, bufferSize, server), steps);
      var newest := Newest(Opened(chunkSize, bufferSize, server), steps, map[]);
      && Names(t, newest)
      && (off in newest && !t.failed ==>
            var b := newest[off];
            Holds(t, b) || b in t.cache || (t.bufs[b].flushing && exists j :: Carries(t, j, b)))
  {
    OpenedSound<Id>(chunkSize, bufferSize, server);
    RunKeepsKept(Opened(chunkSize, bufferSize, server), map[], steps);
    var t := Exec(Opened(chunkSize, bufferSize, server), steps);
    var newest := Newest(Opened(chunkSize, bufferSize, server), steps, map[]);
    if off in newest && !t.failed {
      assert Safe(t, newest[off]) && IsNewest(t, newest, newest[off]);
    }
  }

  /**
   * When Sync returns nil, the server has exactly what the newest buffer of each block holds, or that
   * buffer was evicted, still has its job and is marked as flushing.  Attempts may have failed meanwhile.
   */
  lemma SyncSendsTheCache<Id>(chunkSize: int, bufferSize: int, server: map<int, Bytes>, steps: seq<Step<Id>>,
      off: int)
    requires chunkSize > 0 && bufferSize > 0
    requires KeepingRun(Opened(chunkSize, bufferSize, server), steps)
    ensures Runs(Opened(chunkSize, bufferSize, server), steps)
    ensures var t := Exec(Opened(chunkSize, bufferSize, server), steps);
      var newest := Newest(Opened(chunkSize, bufferSize, server), steps, map[]);
      && Names(t, newest)
      && (off in newest && Enabled(t, SyncReturn) ==>
            var b := newest[off];
            Holds(t, b) || (b !in t.cache && t.bufs[b].flushing && exists j :: Carries(t, j, b)))
  {
    OpenedSound<Id>(chunkSize, bufferSize, server);
    RunKeepsKept(Opened(chunkSize, bufferSize, server), map[], steps);
    var t := Exec(Opened(chunkSize, bufferSize, server), steps);
    var newest := Newest(Opened(chunkSize, bufferSize, server), steps, map[]);
    if off in newest && Enabled(t, SyncReturn) {
      var b := newest[off];
      assert Safe(t, b) && IsNewest(t, newest, b);
      if b in t.cache {
        assert Tracked(t, b);
      }
    }
  }

  /** In a settled run the limit that an attempt reads again for the position map is the one it has sent. */
  lemma LimitReadTwice<Id>(chunkSize: int, bufferSize: int, server: map<int, Bytes>, steps: seq<Step<Id>>, j: nat)
    requires chunkSize > 0 && bufferSize > 0
    requires SettledRun(Opened(chunkSize, bufferSize, server), steps)
    ensures Runs(Opened(chunkSize, bufferSize, server), steps)
    ensures var t := Exec(Opened(chunkSize, bufferSize, server), steps);
      j < |t.jobs| && t.jobs[j].phase.Holding? && t.jobs[j].phase.flush ==>
        t.jobs[j].buf in t.bufs && t.jobs[j].phase.lim == t.bufs[t.jobs[j].buf].limit
  {
    OpenedSound<Id>(chunkSize, bufferSize, server);
    RunKeepsSound(Opened(chunkSize, bufferSize, server), steps);
  }

  // ----- The two hypotheses are exact -----

  ghost predicate EarlyStart<Id>(s: State<Id>, j: nat) {
    Inv(s) && Enabled(s, Start(j)) && StartsEarly(s, Start(j))
  }

  /** An attempt that starts before the raise, then the raise, then the attempt's success. */
  ghost function AfterEarlyStart<Id>(s: State<Id>, j: nat): State<Id>
    requires EarlyStart(s, j)
  {
    EarlyRuns(s, j);
    Apply(Apply(Apply(s, Start(j)), Raise), Finish(j, Sent))
  }

  lemma EarlyRuns<Id>(s: State<Id>, j: nat)
    requires EarlyStart(s, j)
    ensures Enabled(Apply(s, Start(j)), Raise)
    ensures Enabled(Apply(Apply(s, Start(j)), Raise), Finish(j, Sent))
  {
    StepKeepsInv(s, Start(j));
    EarlyRaise(s, Apply(s, Start(j)), j);
  }

  lemma EarlyRaise<Id>(s: State<Id>, s1: State<Id>, j: nat)
    requires EarlyStart(s, j) && s1 == Apply(s, Start(j)) && Inv(s1)
    ensures Enabled(s1, Raise)
    ensures var s2 := Apply(s1, Raise); var b := s.client.buf; var buf := s.bufs[b]; var end := s.client.end;
      && b in s.bufs && s2.jobs == s.jobs[j := s.jobs[j].(phase := Holding(true, buf.limit))]
      && s2.bufs == s.bufs[b := buf.(limit := if end > buf.limit then end else buf.limit)]
      && s.jobs[j].buf == b && Enabled(s2, Finish(j, Sent))
  {
    assert 0 <= s.bufs[s.client.buf].limit <= |s.bufs[s.client.buf].data|;
    RaiseEffect(s1);
    hide BuffersOk, EntriesCleared;
  }

  /**
   * An attempt that starts between the copy and the raise leaves the buffer clean, so that no later job
   * sends it; its end is not on the server exactly when the piece just copied reaches beyond the old limit.
   */
  lemma EarlyStartLosesIff<Id>(s: State<Id>, j: nat)
    requires EarlyStart(s, j)
    ensures var t := AfterEarlyStart(s, j); var b := s.client.buf;
      && b in s.bufs && b in t.bufs && t.bufs[b].flushed && !t.bufs[b].flushing
      && (Holds(t, b) <==> s.client.end <= s.bufs[b].limit)
  {
    StepKeepsInv(s, Start(j));
    EarlyRaise(s, Apply(s, Start(j)), j);
    EarlyRuns(s, j);
    hide Core;
  }

  /**
   * A job of an older buffer takes its next attempt when the server holds a newer one's bytes: it
   * overwrites them exactly when the older buffer is dirty, is marked as flushing and has other bytes.
   */
  lemma OlderJobOverwritesIff<Id>(s: State<Id>, j: nat, c: Id)
    requires Inv(s) && !s.failed && Enabled(s, Start(j)) && c in s.bufs && c != s.jobs[j].buf
    requires s.bufs[c].offset == s.bufs[s.jobs[j].buf].offset && Holds(s, c)
    ensures Runs(s, [Start(j), Finish(j, Sent)])
    ensures var t := Exec(s, [Start(j), Finish(j, Sent)]); var b := s.bufs[s.jobs[j].buf];
      && c in t.bufs && 0 <= b.limit <= |b.data|
      && (!Holds(t, c) <==>
            !b.flushed && b.flushing && b.data[..b.limit] != s.bufs[c].data[..s.bufs[c].limit])
  {
    var t := Apply(s, Start(j));
    StepKeepsInv(s, Start(j));
    assert 0 <= s.bufs[s.jobs[j].buf].limit <= |s.bufs[s.jobs[j].buf].data|;
    hide BuffersOk, CacheOk, FlushingOk, JobsOk, EntriesCleared;
    RunsTwo(s, Start(j), Finish(j, Sent));
  }
}

/**
 * Each hypothesis of a calm schedule is needed: for each one, a concrete run of a newly opened file
 * in which every other hypothesis holds and that loses data; and one with failed attempts and a new
 * buffer over an outstanding job, which NoLostBuffer excludes.  The cache has room for one buffer, and
 * buffers are named by integers, a new one by a larger integer than all before it.
 */
module Traces {
  import opened Bytes
  import opened FileMachine
  import opened FileInvariants
  import opened NoLostBuffer
  import opened ViewRefinement

  /** What a run may break; Retries stands for Failures and StaleJobs together. */
  datatype Hypothesis = Failures | StaleJobs | EvictionsUnderTest | UnsettledLimits | Rewrites | Retries

  type S = State<int>
  type Run = seq<Step<int>>

  /** Every hypothesis but h holds of the step.  A stale job takes a rewritten block, by ExactIsCalm. */
  ghost predicate CalmBut(h: Hypothesis, s: S, step: Step<int>) {
    && Enabled(s, step)
    && (h == UnsettledLimits || LimitSettled(s, step))
    && (h in {StaleJobs, Retries} || NoStaleJob(s, step))
    && (h == EvictionsUnderTest || NoEvictionUnderTest(s, step))
    && (h in {Failures, Retries} || NoEvictedAttemptFails(s, step))
    && (h in {Rewrites, StaleJobs} || NoDroppedBlockRewritten(s, step))
    && (step.Locate? ==> forall b :: b in s.bufs ==> b < step.spare)
  }

  ghost predicate RunBut(h: Hypothesis, s: S, steps: Run)
    decreases |steps|
  {
    steps == [] || (CalmBut(h, s, steps[0]) && RunBut(h, Apply(s, steps[0]), steps[1..]))
  }

  lemma {:induction false} Grow(h: Hypothesis, s: S, steps: Run, step: Step<int>)
    requires RunBut(h, s, steps) && Runs(s, steps) && CalmBut(h, Exec(s, steps), step)
    ensures RunBut(h, s, steps + [step]) && Runs(s, steps + [step])
    ensures Exec(s, steps + [step]) == Apply(Exec(s, steps), step)
    ensures forall m :: Newest(s, steps + [step], m) == NewestAfter(Exec(s, steps), step, Newest(s, steps, m))
    decreases |steps|
  {
    hide Enabled, Apply, NewestAfter, LimitSettled, NoStaleJob, NoEvictionUnderTest, NoEvictedAttemptFails,
        NoDroppedBlockRewritten;
    var more := steps + [step];
    if steps == [] {
      assert more == [step] && more[1..] == [];
      assert forall m :: Newest(Apply(s, step), [], m) == m;
    } else {
      Grow(h, Apply(s, steps[0]), steps[1..], step);
      assert more[0] == steps[0] && more[1..] == steps[1..] + [step];
    }
  }

  /** The newest buffer of a block is the one with the largest number. */
  ghost predicate Largest(s: S, newest: map<int, int>) {
    Names(s, newest) && forall b :: b in s.bufs ==> b <= newest[s.bufs[b].offset]
  }

  /** The run leads from a newly opened file to s. */
  ghost predicate Leads(h: Hypothesis, chunkSize: int, steps: Run, s: S) {
    && Inv(s) && s.bufferSize == 1
    && RunBut(h, Opened(chunkSize, 1, map[]), steps)
    && Runs(Opened(chunkSize, 1, map[]), steps)
    && Exec(Opened(chunkSize, 1, map[]), steps) == s
    && Largest(s, Newest(Opened(chunkSize, 1, map[]), steps, map[]))
  }

  lemma StepKeepsLargest(s: S, step: Step<int>, newest: map<int, int>)
    requires Enabled(s, step) && Largest(s, newest)
    requires step.Locate? ==> forall b :: b in s.bufs ==> b < step.spare
    ensures Largest(Apply(s, step), NewestAfter(s, step, newest))
  {
    if step.Locate? {
      LocateIs(s, step);
      LocateKeepsLargest(s, BlockOf(s.chunkSize, step.pos), step.spare, newest);
      hide Enabled, Apply, BlockOf, Taken, Largest, WellFormed, Live;
      SameBuffersLargest(Taken(s, BlockOf(s.chunkSize, step.pos), step.spare).0, Apply(s, step),
          NewestAfter(s, step, newest));
    } else {
      OffsetsKept(s, step);
      hide Enabled, Apply, Largest;
      SameBuffersLargest(s, Apply(s, step), newest);
    }
  }

  lemma SameBuffersLargest(s: S, t: S, newest: map<int, int>)
    requires Largest(s, newest) && t.bufs.Keys == s.bufs.Keys
    requires forall b :: b in s.bufs ==> t.bufs[b].offset == s.bufs[b].offset
    ensures Largest(t, newest)
  {
    forall off | off in newest ensures newest[off] in t.bufs && t.bufs[newest[off]].offset == off {
      var b := newest[off];
      assert b in s.bufs && s.bufs[b].offset == off && t.bufs[b].offset == s.bufs[b].offset;
    }
  }

  lemma LocateKeepsLargest(s: S, off: int, spare: int, newest: map<int, int>)
    requires WellFormed(s) && Largest(s, newest) && forall b :: b in s.bufs ==> b < spare
    ensures Largest(Taken(s, off, spare).0, if Live(s, off).None? then newest[off := spare] else newest)
  {
    hide CacheAdd, Peek, Largest;
    if Peek(s.cache, s.bufs, off).None? {
      if off in s.flushing {
        CacheAddBuffers(Revived(s, off), s.flushing[off]);
        SameBuffersLargest(s, CacheAdd(Revived(s, off), s.flushing[off]), newest);
      } else {
        CacheAddBuffers(WithNewBuffer(s, off, spare), spare);
        SpareIsLargest(s, off, spare, newest);
        SameBuffersLargest(WithNewBuffer(s, off, spare), CacheAdd(WithNewBuffer(s, off, spare), spare),
            newest[off := spare]);
      }
    }
  }

  lemma SpareIsLargest(s: S, off: int, spare: int, newest: map<int, int>)
    requires s.chunkSize > 0 && Largest(s, newest) && forall b :: b in s.bufs ==> b < spare
    ensures Largest(WithNewBuffer(s, off, spare), newest[off := spare])
  {
  }

  lemma OffsetsKept(s: S, step: Step<int>)
    requires Enabled(s, step) && !step.Locate?
    ensures var t := Apply(s, step);
      t.bufs.Keys == s.bufs.Keys && forall b :: b in s.bufs ==> t.bufs[b].offset == s.bufs[b].offset
  {
    if step.Raise? {
      CacheAddBuffers(s, s.client.buf);
    }
    hide CacheAdd;
  }

  lemma OneStep(h: Hypothesis, chunkSize: int, steps: Run, s: S, a: Step<int>) returns (more: Run)
    requires Leads(h, chunkSize, steps, s) && CalmBut(h, s, a)
    ensures Leads(h, chunkSize, more, Apply(s, a))
  {
    StepKeepsInv(s, a);
    BufferSizeKept(s, a);
    StepKeepsLargest(s, a, Newest(Opened(chunkSize, 1, map[]), steps, map[]));
    hide CalmBut, Enabled, Apply, Core, Largest, NewestAfter, Newest;
    Grow(h, Opened(chunkSize, 1, map[]), steps, a);
    more := steps + [a];
  }

  lemma LeadsToInv(h: Hypothesis, chunkSize: int, steps: Run, s: S)
    requires Leads(h, chunkSize, steps, s)
    ensures Inv(s) && WellFormed(s) && s.bufferSize == 1
  {
  }

  lemma BufferSizeKept(s: S, a: Step<int>)
    requires Enabled(s, a)
    ensures Apply(s, a).bufferSize == s.bufferSize
  {
  }

  // ----- Moves: the steps of one operation, with their joint effect -----

  /** The effect of copying into b and raising its limit, when b is the one cached buffer. */
  ghost function Wrote(s: S, b: int, at: int, bytes: Bytes): S
    requires b in s.bufs && 0 <= at && at + |bytes| <= |s.bufs[b].data|
  {
    var buf := s.bufs[b];
    s.(bufs := s.bufs[b := buf.(data := Splice(buf.data, at, bytes), flushed := false,
                                limit := if at + |bytes| > buf.limit then at + |bytes| else buf.limit)],
       client := Idle)
  }

  ghost predicate NotHeld(s: S, b: int) {
    forall j :: 0 <= j < |s.jobs| && s.jobs[j].phase.Holding? ==> s.jobs[j].buf != b
  }

  lemma CopyAndRaiseEffect(s: S)
    requires Inv(s) && s.client.Located? && s.cache == [s.client.buf] && NotHeld(s, s.client.buf)
    ensures Enabled(s, Copy) && Enabled(CopyNext(s), Raise)
    ensures RaiseNext(CopyNext(s)) == Wrote(s, s.client.buf, s.client.at, s.client.bytes)
  {
    var b := s.client.buf;
    assert CopyEnabled(s);
    CopyKeeps(s);
    var s1 := CopyNext(s);
    hide Core;
    assert s1.cache == [b] && Without([b], b) + [b] == [b];
    assert RaiseNext(s1).bufs == Wrote(s, b, s.client.at, s.client.bytes).bufs;
  }

  lemma CopyAndRaise(h: Hypothesis, chunkSize: int, steps: Run, s: S) returns (more: Run)
    requires Leads(h, chunkSize, steps, s) && s.client.Located? && s.cache == [s.client.buf]
        && NotHeld(s, s.client.buf)
    ensures s.client.buf in s.bufs && 0 <= s.client.at
        && s.client.at + |s.client.bytes| <= |s.bufs[s.client.buf].data|
    ensures Leads(h, chunkSize, more, Wrote(s, s.client.buf, s.client.at, s.client.bytes))
  {
    CopyAndRaiseEffect(s);
    hide Leads, Core, Wrote, CopyNext, RaiseNext;
    more := OneStep(h, chunkSize, steps, s, Copy);
    more := OneStep(h, chunkSize, more, CopyNext(s), Raise);
  }

  ghost function FirstWritten(chunkSize: int, bytes: Bytes): S
    requires 0 < |bytes| <= chunkSize
  {
    var data := Splice(Zeros(chunkSize), 0, bytes);
    State(chunkSize, 1, map[0 := Buf(0, data, |bytes|, false, false, None)], [0], map[], [], false, map[], Idle)
  }

  /** Every run here begins with a write to the start of the file. */
  lemma FirstWrite(h: Hypothesis, chunkSize: int, bytes: Bytes) returns (more: Run)
    requires 0 < |bytes| <= chunkSize
    ensures Leads(h, chunkSize, more, FirstWritten(chunkSize, bytes))
  {
    var s: S := Opened(chunkSize, 1, map[]);
    FirstIsCalm(h, chunkSize, bytes);
    FirstLocated(chunkSize, bytes);
    hide LocateNext, BlockOf, CalmBut, Wrote, FirstWritten, Leads, NotHeld, Inv;
    var t := LocateNext(s, 0, bytes, 0);
    more := OneStep(h, chunkSize, [], s, Locate(0, bytes, 0));
    more := CopyAndRaise(h, chunkSize, more, t);
  }

  lemma FirstIsCalm(h: Hypothesis, chunkSize: int, bytes: Bytes)
    requires 0 < |bytes| <= chunkSize
    ensures var s: S := Opened(chunkSize, 1, map[]);
      Leads(h, chunkSize, [], s) && CalmBut(h, s, Locate(0, bytes, 0))
  {
    assert BlockOf(chunkSize, 0) == 0;
  }

  lemma FirstLocated(chunkSize: int, bytes: Bytes)
    requires 0 < |bytes| <= chunkSize && Enabled(Opened(chunkSize, 1, map[]), Locate(0, bytes, 0))
    ensures var t := LocateNext(Opened(chunkSize, 1, map[]), 0, bytes, 0);
      && t.cache == [0] && t.client == Located(0, 0, bytes) && NotHeld(t, 0)
      && 0 in t.bufs && |bytes| <= |t.bufs[0].data| && Wrote(t, 0, 0, bytes) == FirstWritten(chunkSize, bytes)
  {
    assert [] + [0] == [0] && BlockOf(chunkSize, 0) == 0;
    var t := LocateNext(Opened(chunkSize, 1, map[]), 0, bytes, 0);
    assert Wrote(t, 0, 0, bytes).bufs == FirstWritten(chunkSize, bytes).bufs;
  }

  ghost function NewWritten(s: S, pos: int, bytes: Bytes, spare: int): S
    requires Fits(s, pos, bytes) && |s.cache| == 1 && s.cache[0] in s.bufs && s.cache[0] != spare
  {
    var off := BlockOf(s.chunkSize, pos);
    Wrote(Submit(WithNewBuffer(s, off, spare).(cache := [spare]), s.cache[0], false), spare, pos - off, bytes)
  }

  /** A write to a block without a live buffer: it evicts the cached one. */
  lemma NewWrite(h: Hypothesis, chunkSize: int, steps: Run, s: S, pos: int, bytes: Bytes, spare: int)
      returns (more: Run)
    requires forall b :: b in s.bufs ==> b < spare
    requires Leads(h, chunkSize, steps, s) && s.client.Idle? && Fits(s, pos, bytes) && spare !in s.bufs
    requires |s.cache| == 1 && s.cache[0] in s.bufs && s.bufs[s.cache[0]].offset != BlockOf(s.chunkSize, pos)
    requires BlockOf(s.chunkSize, pos) !in s.flushing && NotHeld(s, s.cache[0])
    requires h in {StaleJobs, Retries} || forall j :: !JobAt(s, j, BlockOf(s.chunkSize, pos))
    requires h in {StaleJobs, Rewrites} || BlockOf(s.chunkSize, pos) !in s.server
    ensures Leads(h, chunkSize, more, NewWritten(s, pos, bytes, spare))
  {
    hide Core, LocateNext, Enabled, CalmBut, Leads, Submit, WithNewBuffer, Wrote, BlockOf, NotHeld, NewWritten, Inv,
        JobAt;
    LeadsToInv(h, chunkSize, steps, s);
    NewIsCalm(h, s, pos, bytes, spare);
    NewLocated(s, pos, bytes, spare);
    var t := LocateNext(s, pos, bytes, spare);
    more := OneStep(h, chunkSize, steps, s, Locate(pos, bytes, spare));
    more := CopyAndRaise(h, chunkSize, more, t);
  }

  /** The state in which the piece is copied to the new buffer. */
  lemma NewLocated(s: S, pos: int, bytes: Bytes, spare: int)
    requires Inv(s) && s.bufferSize == 1 && s.client.Idle? && Fits(s, pos, bytes) && spare !in s.bufs
    requires |s.cache| == 1 && s.bufs[s.cache[0]].offset != BlockOf(s.chunkSize, pos)
        && BlockOf(s.chunkSize, pos) !in s.flushing
    ensures var t := LocateNext(s, pos, bytes, spare); var at := pos - BlockOf(s.chunkSize, pos);
      && t.client == Located(spare, at, bytes) && t.cache == [spare] && NotHeld(t, spare)
      && spare in t.bufs && at + |bytes| <= |t.bufs[spare].data|
      && Wrote(t, spare, at, bytes) == NewWritten(s, pos, bytes, spare)
  {
    var off := BlockOf(s.chunkSize, pos);
    NewLocate(s, pos, bytes, spare);
    NewIsFree(s, off, spare);
    var r := Submit(WithNewBuffer(s, off, spare).(cache := [spare]), s.cache[0], false);
    var t := LocateNext(s, pos, bytes, spare);
    hide BlockOf, Core, LocateNext;
    FreeIgnoresClient(r, t.client, spare);
    WroteIgnoresClient(r, t.client, spare, pos - off, bytes);
  }

  /** A run of the client's next step from s is allowed; the buffer it locates is not held. */
  lemma NewIsCalm(h: Hypothesis, s: S, pos: int, bytes: Bytes, spare: int)
    requires forall b :: b in s.bufs ==> b < spare
    requires Inv(s) && s.bufferSize == 1 && s.client.Idle? && Fits(s, pos, bytes) && spare !in s.bufs
    requires |s.cache| == 1 && s.bufs[s.cache[0]].offset != BlockOf(s.chunkSize, pos)
    requires BlockOf(s.chunkSize, pos) !in s.flushing && NotHeld(s, s.cache[0])
    requires h in {StaleJobs, Retries} || forall j :: !JobAt(s, j, BlockOf(s.chunkSize, pos))
    requires h in {StaleJobs, Rewrites} || BlockOf(s.chunkSize, pos) !in s.server
    ensures CalmBut(h, s, Locate(pos, bytes, spare))
  {
  }

  lemma NewIsFree(s: S, off: int, spare: int)
    requires WellFormed(s) && spare !in s.bufs && |s.cache| == 1
    ensures NotHeld(Submit(WithNewBuffer(s, off, spare).(cache := [spare]), s.cache[0], false), spare)
  {
  }

  lemma FreeIgnoresClient(s: S, client: Client<int>, b: int)
    requires NotHeld(s, b)
    ensures NotHeld(s.(client := client), b)
  {
  }

  lemma WroteIgnoresClient(s: S, client: Client<int>, b: int, at: int, bytes: Bytes)
    requires b in s.bufs && 0 <= at && at + |bytes| <= |s.bufs[b].data|
    ensures Wrote(s.(client := client), b, at, bytes) == Wrote(s, b, at, bytes)
  {
  }

  lemma NewLocate(s: S, pos: int, bytes: Bytes, spare: int)
    requires Inv(s) && s.bufferSize == 1 && s.client.Idle? && Fits(s, pos, bytes) && spare !in s.bufs
    requires |s.cache| == 1 && s.bufs[s.cache[0]].offset != BlockOf(s.chunkSize, pos)
        && BlockOf(s.chunkSize, pos) !in s.flushing
    ensures var off := BlockOf(s.chunkSize, pos);
      && Peek(s.cache, s.bufs, off).None? && s.cache[0] in s.bufs
      && LocateNext(s, pos, bytes, spare)
         == Submit(WithNewBuffer(s, off, spare).(cache := [spare]), s.cache[0],
             false).(client := Located(spare, pos - off, bytes))
  {
    assert (s.cache + [spare])[1..] == [spare];
  }

  ghost function RevivedWritten(s: S, pos: int, bytes: Bytes): S
    requires WellFormed(s) && Fits(s, pos, bytes) && BlockOf(s.chunkSize, pos) in s.flushing && |s.cache| == 1
    requires pos - BlockOf(s.chunkSize, pos) + |bytes| <= |s.bufs[s.flushing[BlockOf(s.chunkSize, pos)]].data|
  {
    var off := BlockOf(s.chunkSize, pos);
    var b := s.flushing[off];
    Wrote(Submit(Revived(s, off).(cache := [b]), s.cache[0], false), b, pos - off, bytes)
  }

  lemma RevivingLocate(s: S, pos: int, bytes: Bytes, spare: int)
    requires Inv(s) && s.bufferSize == 1 && s.client.Idle? && Fits(s, pos, bytes) && spare !in s.bufs
    requires |s.cache| == 1 && s.bufs[s.cache[0]].offset != BlockOf(s.chunkSize, pos)
        && BlockOf(s.chunkSize, pos) in s.flushing
    ensures var off := BlockOf(s.chunkSize, pos); var b := s.flushing[off];
      && Peek(s.cache, s.bufs, off).None? && b != s.cache[0] && |s.bufs[b].data| == s.chunkSize
      && LocateNext(s, pos, bytes, spare)
         == Submit(Revived(s, off).(cache := [b]), s.cache[0], false).(client := Located(b, pos - off, bytes))
  {
    assert (s.cache + [s.flushing[BlockOf(s.chunkSize, pos)]])[1..] == [s.flushing[BlockOf(s.chunkSize, pos)]];
  }

  /** A write to a block whose buffer waits to be flushed: it revives that buffer and evicts the cached one. */
  lemma RevivingWrite(h: Hypothesis, chunkSize: int, steps: Run, s: S, pos: int, bytes: Bytes, spare: int)
      returns (more: Run)
    requires forall b :: b in s.bufs ==> b < spare
    requires Leads(h, chunkSize, steps, s) && s.client.Idle? && Fits(s, pos, bytes) && spare !in s.bufs
    requires |s.cache| == 1 && s.cache[0] in s.bufs && s.bufs[s.cache[0]].offset != BlockOf(s.chunkSize, pos)
    requires BlockOf(s.chunkSize, pos) in s.flushing && NotHeld(s, s.flushing[BlockOf(s.chunkSize, pos)])
    requires h == EvictionsUnderTest || NotHeld(s, s.cache[0])
    ensures WellFormed(s) && |s.bufs[s.flushing[BlockOf(s.chunkSize, pos)]].data| == s.chunkSize
    ensures Leads(h, chunkSize, more, RevivedWritten(s, pos, bytes))
  {
    hide Core, LocateNext, Enabled, CalmBut, Leads, Submit, Revived, Wrote, BlockOf, NotHeld, RevivedWritten, Inv;
    LeadsToInv(h, chunkSize, steps, s);
    RevivingIsCalm(h, s, pos, bytes, spare);
    RevivingLocated(s, pos, bytes, spare);
    var t := LocateNext(s, pos, bytes, spare);
    more := OneStep(h, chunkSize, steps, s, Locate(pos, bytes, spare));
    more := CopyAndRaise(h, chunkSize, more, t);
  }

  lemma RevivingLocated(s: S, pos: int, bytes: Bytes, spare: int)
    requires Inv(s) && s.bufferSize == 1 && s.client.Idle? && Fits(s, pos, bytes) && spare !in s.bufs
    requires |s.cache| == 1 && s.bufs[s.cache[0]].offset != BlockOf(s.chunkSize, pos)
        && BlockOf(s.chunkSize, pos) in s.flushing
    requires NotHeld(s, s.flushing[BlockOf(s.chunkSize, pos)])
    ensures var t := LocateNext(s, pos, bytes, spare); var at := pos - BlockOf(s.chunkSize, pos);
      var b := s.flushing[BlockOf(s.chunkSize, pos)];
      && t.client == Located(b, at, bytes) && t.cache == [b] && NotHeld(t, b)
      && b in t.bufs && at + |bytes| <= |t.bufs[b].data| && |s.bufs[b].data| == s.chunkSize
      && Wrote(t, b, at, bytes) == RevivedWritten(s, pos, bytes)
  {
    var off := BlockOf(s.chunkSize, pos);
    var b := s.flushing[off];
    RevivingLocate(s, pos, bytes, spare);
    RevivedIsFree(s, off);
    var r := Submit(Revived(s, off).(cache := [b]), s.cache[0], false);
    var t := LocateNext(s, pos, bytes, spare);
    hide BlockOf, Core, LocateNext;
    FreeIgnoresClient(r, t.client, b);
    WroteIgnoresClient(r, t.client, b, pos - off, bytes);
  }

  lemma RevivingIsCalm(h: Hypothesis, s: S, pos: int, bytes: Bytes, spare: int)
    requires forall b :: b in s.bufs ==> b < spare
    requires Inv(s) && s.client.Idle? && Fits(s, pos, bytes) && spare !in s.bufs
    requires |s.cache| == 1 && BlockOf(s.chunkSize, pos) in s.flushing
    requires h == EvictionsUnderTest || NotHeld(s, s.cache[0])
    ensures CalmBut(h, s, Locate(pos, bytes, spare))
  {
  }

  lemma RevivedIsFree(s: S, off: int)
    requires WellFormed(s) && off in s.flushing && |s.cache| == 1 && NotHeld(s, s.flushing[off])
    ensures NotHeld(Submit(Revived(s, off).(cache := [s.flushing[off]]), s.cache[0], false), s.flushing[off])
  {
  }

  lemma StartMove(h: Hypothesis, chunkSize: int, steps: Run, s: S, j: nat) returns (more: Run)
    requires Leads(h, chunkSize, steps, s) && j < |s.jobs| && s.jobs[j].phase.Queued? && NotHeld(s, s.jobs[j].buf)
    requires h == UnsettledLimits || !s.client.Copied?
    ensures WellFormed(s) && Leads(h, chunkSize, more, StartNext(s, j))
  {
    more := OneStep(h, chunkSize, steps, s, Start(j));
  }

  lemma FinishMove(h: Hypothesis, chunkSize: int, steps: Run, s: S, j: nat, outcome: Outcome) returns (more: Run)
    requires Leads(h, chunkSize, steps, s) && j < |s.jobs| && s.jobs[j].phase.Holding?
    requires outcome.Sent? || (h in {Failures, Retries} && s.jobs[j].phase.flush)
    ensures WellFormed(s) && FinishEnabled(s, j, outcome) && Leads(h, chunkSize, more, FinishNext(s, j, outcome))
  {
    more := OneStep(h, chunkSize, steps, s, Finish(j, outcome));
  }

  /** Sync's own steps up to the wait, when one buffer is cached. */
  lemma SyncMove(h: Hypothesis, chunkSize: int, steps: Run, s: S) returns (more: Run)
    requires Leads(h, chunkSize, steps, s) && s.client.Idle? && !s.failed && |s.cache| == 1
    ensures s.cache[0] in s.bufs && Leads(h, chunkSize, more, Submit(s.(client := Syncing([])), s.cache[0], true))
  {
    var t := s.(client := Syncing(s.cache));
    LeadsToInv(h, chunkSize, steps, s);
    assert Without(s.cache, s.cache[0]) + [s.cache[0]] == s.cache && s.cache[1..] == [];
    assert SyncSubmitNext(t) == Submit(s.(client := Syncing([])), s.cache[0], true);
    hide Leads, Core, Submit, SyncSubmitNext;
    more := OneStep(h, chunkSize, steps, s, SyncBegin);
    more := OneStep(h, chunkSize, more, t, SyncSubmit);
  }

  lemma ReturnMove(h: Hypothesis, chunkSize: int, steps: Run, s: S) returns (more: Run)
    requires Leads(h, chunkSize, steps, s) && s.client == Syncing([]) && SyncJobsDone(s) && s.flushing == map[]
        && !s.failed
    ensures Leads(h, chunkSize, more, s.(client := Idle))
  {
    more := OneStep(h, chunkSize, steps, s, SyncReturn);
  }

  // ----- The runs -----

  lemma OneAttemptFailed(h: Hypothesis) returns (steps: Run, s: S)
    requires h in {Failures, Retries}
    ensures Leads(h, 1, steps, s)
    ensures s == State(1, 1,
                       map[0 := Buf(0, [7], 1, false, true, None), 1 := Buf(1, [8], 1, false, false, None)],
                       [1], map[], [Job(0, 3, false, Queued)], false, map[], Idle)
  {
    hide Leads;
    steps := FirstWrite(h, 1, [7]);
    s := FirstWritten(1, [7]);
    steps := NewWrite(h, 1, steps, s, 1, [8], 1);
    s := NewWritten(s, 1, [8], 1);
    steps := StartMove(h, 1, steps, s, 0);
    s := StartNext(s, 0);
    steps := FinishMove(h, 1, steps, s, 0, RpcFailed);
    s := FinishNext(s, 0, RpcFailed);
    assert s.bufs[0].data == [7] && s.bufs[1].data == [8];
  }

  /** A failed attempt deletes the flushing entry before the retry, so Sync returns nil without the evicted byte. */
  lemma AfterAFailedAttempt() returns (steps: Run, s: S)
    ensures Leads(Failures, 1, steps, s)
    ensures Enabled(s, SyncReturn) && 0 !in s.server && 0 in s.bufs && !s.bufs[0].flushed && s.bufs[0].data == [7]
  {
    hide Leads;
    steps, s := OneAttemptFailed(Failures);
    steps := SyncMove(Failures, 1, steps, s);
    s := Submit(s.(client := Syncing([])), s.cache[0], true);
    steps := StartMove(Failures, 1, steps, s, 1);
    s := StartNext(s, 1);
    steps := FinishMove(Failures, 1, steps, s, 1, Sent);
    s := FinishNext(s, 1, Sent);
  }

  /** Block 0 written and evicted, block 1 written, block 0 revived and written: block 1 now waits. */
  lemma EvictAndRevive(h: Hypothesis, x: byte, y: byte, z: byte) returns (steps: Run, s: S)
    ensures Leads(h, 1, steps, s)
    ensures s == State(1, 1,
                       map[0 := Buf(0, [z], 1, false, false, None), 1 := Buf(1, [y], 1, false, true, None)],
                       [0], map[1 := 1], [Job(0, 4, false, Queued), Job(1, 4, false, Queued)], false, map[], Idle)
  {
    hide Leads;
    steps := FirstWrite(h, 1, [x]);
    s := FirstWritten(1, [x]);
    steps := NewWrite(h, 1, steps, s, 1, [y], 1);
    s := NewWritten(s, 1, [y], 1);
    steps := RevivingWrite(h, 1, steps, s, 0, [z], 2);
    s := RevivedWritten(s, 0, [z]);
    assert s.bufs[0].data == [z] && s.bufs[1].data == [y];
  }

  lemma EvictedUnderTest() returns (steps: Run, s: S)
    ensures Leads(EvictionsUnderTest, 1, steps, s)
    ensures s == State(1, 1,
                       map[0 := Buf(0, [9], 1, false, true, None), 1 := Buf(1, [8], 1, false, false, None)],
                       [1], map[], [Job(0, 0, false, Done), Job(1, 4, false, Queued), Job(0, 4, false, Queued)],
                           false, map[], Idle)
  {
    hide Leads;
    var h := EvictionsUnderTest;
    steps, s := EvictAndRevive(h, 7, 8, 9);
    steps := StartMove(h, 1, steps, s, 0);
    s := StartNext(s, 0);
    steps := RevivingWrite(h, 1, steps, s, 1, [8], 2);
    s := RevivedWritten(s, 1, [8]);
    steps := FinishMove(h, 1, steps, s, 0, Sent);
    s := FinishNext(s, 0, Sent);
    assert s.bufs[0].data == [9] && s.bufs[1].data == [8];
  }

  /**
   * A job that decided to skip a revived buffer deletes the entry of its next eviction, so Sync returns nil without
   * it.
   */
  lemma AfterAnEvictionUnderTest() returns (steps: Run, s: S)
    ensures Leads(EvictionsUnderTest, 1, steps, s)
    ensures Enabled(s, SyncReturn) && 0 !in s.server && 0 in s.bufs && !s.bufs[0].flushed && s.bufs[0].data == [9]
  {
    hide Leads;
    var h := EvictionsUnderTest;
    steps, s := EvictedUnderTest();
    steps := SyncMove(h, 1, steps, s);
    s := Submit(s.(client := Syncing([])), s.cache[0], true);
    steps := StartMove(h, 1, steps, s, 3);
    s := StartNext(s, 3);
    steps := FinishMove(h, 1, steps, s, 3, Sent);
    s := FinishNext(s, 3, Sent);
  }

  /** Block 0 evicted a second time. */
  lemma EvictedAgain() returns (steps: Run, s: S)
    ensures Leads(StaleJobs, 1, steps, s)
    ensures s == State(1, 1,
                       map[0 := Buf(0, [2], 1, false, true, None), 1 := Buf(1, [2], 1, false, false, None)],
                       [1], map[0 := 0],
                       [Job(0, 4, false, Queued), Job(1, 4, false, Queued), Job(0, 4, false, Queued)],
                       false, map[], Idle)
  {
    hide Leads;
    var h := StaleJobs;
    steps, s := EvictAndRevive(h, 1, 1, 2);
    steps := RevivingWrite(h, 1, steps, s, 1, [2], 2);
    s := RevivedWritten(s, 1, [2]);
    assert s.bufs[1].data == [2];
  }

  /** Its first job sends it: the second job is stale from now on. */
  lemma BeforeTheStaleJob() returns (steps: Run, s: S)
    ensures Leads(StaleJobs, 1, steps, s)
    ensures s == State(1, 1,
                       map[0 := Buf(0, [2], 1, true, false, Some([2])), 1 := Buf(1, [2], 1, false, false, None)],
                       [1], map[],
                       [Job(0, 0, false, Done), Job(1, 4, false, Queued), Job(0, 4, false, Queued)],
                       false, map[0 := [2]], Idle)
  {
    hide Leads;
    var h := StaleJobs;
    steps, s := EvictedAgain();
    steps := StartMove(h, 1, steps, s, 0);
    s := StartNext(s, 0);
    steps := FinishMove(h, 1, steps, s, 0, Sent);
    s := FinishNext(s, 0, Sent);
    assert [2][..1] == [2];
  }

  lemma ANewBufferIsMade() returns (steps: Run, s: S)
    ensures Leads(StaleJobs, 1, steps, s) && s == NewBufferMade()
  {
    hide Leads;
    steps, s := BeforeTheStaleJob();
    steps := NewWrite(StaleJobs, 1, steps, s, 0, [3], 2);
    s := NewWritten(s, 0, [3], 2);
    assert s.bufs[2].data == [3];
  }

  ghost function NewBufferMade(): S {
    State(1, 1,
          map[0 := Buf(0, [2], 1, true, false, Some([2])), 1 := Buf(1, [2], 1, false, true, None),
              2 := Buf(0, [3], 1, false, false, None)],
          [2], map[1 := 1],
          [Job(0, 0, false, Done), Job(1, 4, false, Queued), Job(0, 4, false, Queued), Job(1, 4, false, Queued)],
          false, map[0 := [2]], Idle)
  }

  ghost function NewBufferEvicted(): S {
    State(1, 1,
          map[0 := Buf(0, [2], 1, true, false, Some([2])), 1 := Buf(1, [3], 1, false, false, None),
              2 := Buf(0, [3], 1, false, true, None)],
          [1], map[0 := 2],
          [Job(0, 0, false, Done), Job(1, 4, false, Queued), Job(0, 4, false, Queued),
           Job(1, 4, false, Queued), Job(2, 4, false, Queued)],
          false, map[0 := [2]], Idle)
  }

  lemma EvictedByRevival()
    ensures WellFormed(NewBufferMade()) && BlockOf(1, 1) == 1
    ensures RevivedWritten(NewBufferMade(), 1, [3]) == NewBufferEvicted()
  {
    var s := NewBufferMade();
    assert WellFormed(s) && BlockOf(1, 1) == 1;
    hide BlockOf, WellFormed;
    var r := Submit(Revived(s, 1).(cache := [1]), 2, false);
    assert r.bufs[1] == Buf(1, [2], 1, false, false, None) && r.flushing == map[0 := 2];
    assert Splice([2], 0, [3]) == [3];
    var t := Wrote(r, 1, 0, [3]);
    hide Splice;
    assert t.bufs == NewBufferEvicted().bufs;
  }

  lemma ANewBufferIsEvicted() returns (steps: Run, s: S)
    ensures Leads(StaleJobs, 1, steps, s) && s == NewBufferEvicted()
  {
    hide Leads, Inv, RevivedWritten;
    steps, s := ANewBufferIsMade();
    EvictedByRevival();
    steps := RevivingWrite(StaleJobs, 1, steps, s, 1, [3], 3);
    s := NewBufferEvicted();
  }

  /** The stale job deletes the new buffer's entry. */
  lemma TheStaleJobRuns() returns (steps: Run, s: S)
    ensures Leads(StaleJobs, 1, steps, s)
    ensures s == State(1, 1,
                       map[0 := Buf(0, [2], 1, true, false, Some([2])), 1 := Buf(1, [3], 1, false, false, None),
                           2 := Buf(0, [3], 1, false, true, None)],
                       [1], map[],
                       [Job(0, 0, false, Done), Job(1, 4, false, Queued), Job(0, 0, false, Done),
                        Job(1, 4, false, Queued), Job(2, 4, false, Queued)],
                       false, map[0 := [2]], Idle)
  {
    hide Leads;
    var h := StaleJobs;
    steps, s := ANewBufferIsEvicted();
    steps := StartMove(h, 1, steps, s, 2);
    s := StartNext(s, 2);
    steps := FinishMove(h, 1, steps, s, 2, Sent);
    s := FinishNext(s, 2, Sent);
  }

  /**
   * Evict, revive, evict again, first job flushes, new buffer, evict it: the second job deletes the new
   * buffer's entry, and Sync returns nil although the server has the byte before the last one.
   */
  lemma AfterAStaleJob() returns (steps: Run, s: S)
    ensures Leads(StaleJobs, 1, steps, s)
    ensures Enabled(s, SyncReturn) && 0 in s.server && s.server[0] == [2]
    ensures 2 in s.bufs && s.bufs[2].offset == 0 && !s.bufs[2].flushed && s.bufs[2].data == [3]
  {
    hide Leads;
    var h := StaleJobs;
    steps, s := TheStaleJobRuns();
    steps := SyncMove(h, 1, steps, s);
    s := Submit(s.(client := Syncing([])), s.cache[0], true);
    steps := StartMove(h, 1, steps, s, 5);
    s := StartNext(s, 5);
    steps := FinishMove(h, 1, steps, s, 5, Sent);
    s := FinishNext(s, 5, Sent);
  }

  /** A block written, evicted and sent; a later write of its second byte resets the first one to zero. */
  lemma AfterARewrite() returns (steps: Run, s: S)
    ensures Leads(Rewrites, 2, steps, s)
    ensures 0 in s.server && s.server[0] == [1, 2]
    ensures s.cache == [2] && 2 in s.bufs && s.bufs[2].offset == 0 && s.bufs[2].data == [0, 9]
  {
    hide Leads;
    var h := Rewrites;
    steps := FirstWrite(h, 2, [1, 2]);
    s := FirstWritten(2, [1, 2]);
    steps := NewWrite(h, 2, steps, s, 2, [5], 1);
    s := NewWritten(s, 2, [5], 1);
    steps := StartMove(h, 2, steps, s, 0);
    s := StartNext(s, 0);
    steps := FinishMove(h, 2, steps, s, 0, Sent);
    s := FinishNext(s, 0, Sent);
    steps := NewWrite(h, 2, steps, s, 1, [9], 2);
    s := NewWritten(s, 1, [9], 2);
  }

  /** Block 0 written, evicted and revived; its first job is still queued while block 2 is sent. */
  lemma OtherBlockSent() returns (steps: Run, s: S)
    ensures Leads(UnsettledLimits, 2, steps, s)
    ensures s == State(2, 1,
                       map[0 := Buf(0, [2, 0], 1, false, false, None),
                           1 := Buf(2, [1, 0], 1, true, false, Some([1]))],
                       [0], map[], [Job(0, 4, false, Queued), Job(1, 0, false, Done)],
                       false, map[2 := [1]], Idle)
  {
    hide Leads;
    var h := UnsettledLimits;
    steps, s := EvictAndReviveByTwo();
    steps := StartMove(h, 2, steps, s, 1);
    s := StartNext(s, 1);
    steps := FinishMove(h, 2, steps, s, 1, Sent);
    s := FinishNext(s, 1, Sent);
    assert [1, 0][..1] == [1];
  }

  /** Sync sends block 0; its first job is still queued. */
  lemma SyncedOnce() returns (steps: Run, s: S)
    ensures Leads(UnsettledLimits, 2, steps, s)
    ensures s == State(2, 1,
                       map[0 := Buf(0, [2, 0], 1, true, false, Some([2])),
                           1 := Buf(2, [1, 0], 1, true, false, Some([1]))],
                       [0], map[],
                       [Job(0, 4, false, Queued), Job(1, 0, false, Done), Job(0, 0, true, Done)],
                       false, map[0 := [2], 2 := [1]], Idle)
  {
    hide Leads;
    var h := UnsettledLimits;
    steps, s := OtherBlockSent();
    steps := SyncMove(h, 2, steps, s);
    s := Submit(s.(client := Syncing([])), s.cache[0], true);
    steps := StartMove(h, 2, steps, s, 2);
    s := StartNext(s, 2);
    steps := FinishMove(h, 2, steps, s, 2, Sent);
    s := FinishNext(s, 2, Sent);
    steps := ReturnMove(h, 2, steps, s);
    s := s.(client := Idle);
    assert [2, 0][..1] == [2];
  }

  lemma EvictAndReviveByTwo() returns (steps: Run, s: S)
    ensures Leads(UnsettledLimits, 2, steps, s)
    ensures s == State(2, 1,
                       map[0 := Buf(0, [2, 0], 1, false, false, None), 1 := Buf(2, [1, 0], 1, false, true, None)],
                       [0], map[2 := 1], [Job(0, 4, false, Queued), Job(1, 4, false, Queued)], false, map[], Idle)
  {
    hide Leads;
    var h := UnsettledLimits;
    steps := FirstWrite(h, 2, [1]);
    s := FirstWritten(2, [1]);
    steps := NewWrite(h, 2, steps, s, 2, [1], 1);
    s := NewWritten(s, 2, [1], 1);
    steps := RevivingWrite(h, 2, steps, s, 0, [2], 2);
    s := RevivedWritten(s, 0, [2]);
    assert s.bufs[0].data == [2, 0] && s.bufs[1].data == [1, 0];
  }

  /** A second Sync finds the cached buffer clean and leaves it marked as flushing. */
  lemma SyncedTwice() returns (steps: Run, s: S)
    ensures Leads(UnsettledLimits, 2, steps, s)
    ensures s == State(2, 1,
                       map[0 := Buf(0, [2, 0], 1, true, true, Some([2])),
                           1 := Buf(2, [1, 0], 1, true, false, Some([1]))],
                       [0], map[],
                       [Job(0, 4, false, Queued), Job(1, 0, false, Done), Job(0, 0, true, Done),
                           Job(0, 0, true, Done)],
                       false, map[0 := [2], 2 := [1]], Idle)
  {
    hide Leads;
    var h := UnsettledLimits;
    steps, s := SyncedOnce();
    steps := SyncMove(h, 2, steps, s);
    s := Submit(s.(client := Syncing([])), s.cache[0], true);
    steps := StartMove(h, 2, steps, s, 3);
    s := StartNext(s, 3);
    steps := FinishMove(h, 2, steps, s, 3, Sent);
    s := FinishNext(s, 3, Sent);
    steps := ReturnMove(h, 2, steps, s);
    s := s.(client := Idle);
  }

  lemma SecondByteLocated() returns (steps: Run, s: S)
    ensures Leads(UnsettledLimits, 2, steps, s)
    ensures s == State(2, 1,
                       map[0 := Buf(0, [2, 0], 1, true, true, Some([2])),
                           1 := Buf(2, [1, 0], 1, true, false, Some([1]))],
                       [0], map[],
                       [Job(0, 4, false, Queued), Job(1, 0, false, Done), Job(0, 0, true, Done),
                           Job(0, 0, true, Done)],
                       false, map[0 := [2], 2 := [1]], Located(0, 1, [9]))
  {
    hide Leads;
    var before;
    steps, before := SyncedTwice();
    assert BlockOf(2, 1) == 0;
    assert Peek(before.cache, before.bufs, 0) == Some(0);
    s := before.(client := Located(0, 1, [9]));
    steps := OneStep(UnsettledLimits, 2, steps, before, Locate(1, [9], 2));
  }

  lemma CopiedButNotRaised() returns (steps: Run, s: S)
    ensures Leads(UnsettledLimits, 2, steps, s)
    ensures s == State(2, 1,
                       map[0 := Buf(0, [2, 9], 1, false, true, Some([2])),
                           1 := Buf(2, [1, 0], 1, true, false, Some([1]))],
                       [0], map[],
                       [Job(0, 4, false, Queued), Job(1, 0, false, Done), Job(0, 0, true, Done),
                           Job(0, 0, true, Done)],
                       false, map[0 := [2], 2 := [1]], Copied(0, 2))
  {
    hide Leads;
    steps, s := SecondByteLocated();
    var t := CopyNext(s);
    assert Splice([2, 0], 1, [9]) == [2, 9];
    steps := OneStep(UnsettledLimits, 2, steps, s, Copy);
    s := t;
  }

  /** The old job starts between the copy of a second byte and the raise of the limit. */
  lemma SentWithTheOldLimit() returns (steps: Run, s: S)
    ensures Leads(UnsettledLimits, 2, steps, s)
    ensures s == State(2, 1,
                       map[0 := Buf(0, [2, 9], 2, true, false, Some([2])),
                           1 := Buf(2, [1, 0], 1, true, false, Some([1]))],
                       [0], map[],
                       [Job(0, 0, false, Done), Job(1, 0, false, Done), Job(0, 0, true, Done), Job(0, 0, true, Done)],
                       false, map[0 := [2], 2 := [1]], Idle)
  {
    hide Leads;
    var h := UnsettledLimits;
    steps, s := CopiedButNotRaised();
    steps := StartMove(h, 2, steps, s, 0);
    s := StartNext(s, 0);
    steps := OneStep(h, 2, steps, s, Raise);
    s := RaiseNext(s);
    steps := FinishMove(h, 2, steps, s, 0, Sent);
    s := FinishNext(s, 0, Sent);
    assert [2, 9][..1] == [2] && Without([0], 0) == [];
  }

  /** The buffer is evicted, and its job finds it clean and skips it. */
  lemma EvictedClean() returns (steps: Run, s: S)
    ensures Leads(UnsettledLimits, 2, steps, s)
    ensures s == State(2, 1,
                       map[0 := Buf(0, [2, 9], 2, true, true, Some([2])),
                           1 := Buf(2, [1, 0], 1, true, false, Some([1])),
                           2 := Buf(4, [5, 0], 1, false, false, None)],
                       [2], map[],
                       [Job(0, 0, false, Done), Job(1, 0, false, Done), Job(0, 0, true, Done), Job(0, 0, true, Done),
                        Job(0, 0, false, Done)],
                       false, map[0 := [2], 2 := [1]], Idle)
  {
    hide Leads;
    var h := UnsettledLimits;
    steps, s := SentWithTheOldLimit();
    assert BlockOf(2, 4) == 4;
    steps := NewWrite(h, 2, steps, s, 4, [5], 2);
    s := NewWritten(s, 4, [5], 2);
    steps := StartMove(h, 2, steps, s, 4);
    s := StartNext(s, 4);
    steps := FinishMove(h, 2, steps, s, 4, Sent);
    s := FinishNext(s, 4, Sent);
    assert s.bufs[2].data == [5, 0];
  }

  /** A last Sync sends the other block and may return nil. */
  lemma SyncedWithoutTheByte() returns (steps: Run, s: S)
    ensures Leads(UnsettledLimits, 2, steps, s)
    ensures s == State(2, 1,
                       map[0 := Buf(0, [2, 9], 2, true, true, Some([2])),
                           1 := Buf(2, [1, 0], 1, true, false, Some([1])),
                           2 := Buf(4, [5, 0], 1, true, false, Some([5]))],
                       [2], map[],
                       [Job(0, 0, false, Done), Job(1, 0, false, Done), Job(0, 0, true, Done), Job(0, 0, true, Done),
                        Job(0, 0, false, Done), Job(2, 0, true, Done)],
                       false, map[0 := [2], 2 := [1], 4 := [5]], Syncing([]))
  {
    hide Leads;
    var h := UnsettledLimits;
    steps, s := EvictedClean();
    steps := SyncMove(h, 2, steps, s);
    s := Submit(s.(client := Syncing([])), s.cache[0], true);
    steps := StartMove(h, 2, steps, s, 5);
    s := StartNext(s, 5);
    steps := FinishMove(h, 2, steps, s, 5, Sent);
    s := FinishNext(s, 5, Sent);
    assert [5, 0][..1] == [5];
  }

  /**
   * A second Sync leaves a clean cached buffer marked as flushing.  An old job that starts between the
   * next copy and its raise sends the buffer with the old limit and marks it clean; when the buffer is
   * evicted, its job skips it.  Its last byte is nowhere but in a buffer that no list and no job has, and
   * Sync returns nil.
   */
  lemma AfterAnUnsettledLimit() returns (steps: Run, s: S)
    ensures Leads(UnsettledLimits, 2, steps, s)
    ensures Enabled(s, SyncReturn) && 0 in s.server && s.server[0] == [2] && forall j :: !Outstanding(s, j)
    ensures IsNewest(s, Newest(Opened(2, 1, map[]), steps, map[]), 0)
    ensures 0 in s.bufs && s.bufs[0].limit == 2 && s.bufs[0].data == [2, 9] && !Holds(s, 0) && 0 !in s.cache
  {
    steps, s := SyncedWithoutTheByte();
    NewestIs(UnsettledLimits, 2, steps, s, 0);
    hide Leads;
  }

  /** The newest buffer of a block is the largest of its buffers. */
  lemma NewestIs(h: Hypothesis, chunkSize: int, steps: Run, s: S, b: int)
    requires Leads(h, chunkSize, steps, s) && b in s.bufs
    requires forall c :: c in s.bufs && s.bufs[c].offset == s.bufs[b].offset ==> c <= b
    ensures Runs(Opened(chunkSize, 1, map[]), steps)
    ensures IsNewest(s, Newest(Opened(chunkSize, 1, map[]), steps, map[]), b)
  {
  }

  /** A failed attempt on block 0's buffer; the block gets a second buffer, which is evicted. */
  lemma NewerBufferEvicted() returns (steps: Run, s: S)
    ensures Leads(Retries, 1, steps, s)
    ensures s == State(1, 1,
                       map[0 := Buf(0, [7], 1, false, true, None), 1 := Buf(1, [8], 1, false, true, None),
                           2 := Buf(0, [9], 1, false, true, None), 3 := Buf(2, [5], 1, false, false, None)],
                       [3], map[1 := 1, 0 := 2],
                       [Job(0, 3, false, Queued), Job(1, 4, false, Queued), Job(2, 4, false, Queued)],
                       false, map[], Idle)
  {
    hide Leads;
    var h := Retries;
    steps, s := OneAttemptFailed(h);
    steps := NewWrite(h, 1, steps, s, 0, [9], 2);
    s := NewWritten(s, 0, [9], 2);
    assert s.bufs[2].data == [9];
    steps := NewWrite(h, 1, steps, s, 2, [5], 3);
    s := NewWritten(s, 2, [5], 3);
    assert s.bufs[3].data == [5];
  }

  /** The second buffer is sent. */
  lemma NewerBufferSent() returns (steps: Run, s: S)
    ensures Leads(Retries, 1, steps, s)
    ensures s == State(1, 1,
                       map[0 := Buf(0, [7], 1, false, true, None), 1 := Buf(1, [8], 1, false, true, None),
                           2 := Buf(0, [9], 1, true, false, Some([9])), 3 := Buf(2, [5], 1, false, false, None)],
                       [3], map[1 := 1],
                       [Job(0, 3, false, Queued), Job(1, 4, false, Queued), Job(2, 0, false, Done)],
                       false, map[0 := [9]], Idle)
  {
    hide Leads;
    var h := Retries;
    steps, s := NewerBufferEvicted();
    steps := StartMove(h, 1, steps, s, 2);
    s := StartNext(s, 2);
    steps := FinishMove(h, 1, steps, s, 2, Sent);
    s := FinishNext(s, 2, Sent);
    assert [9][..1] == [9];
  }

  /** The first buffer's retry overwrites the second one's byte. */
  lemma OlderBufferRetried() returns (steps: Run, s: S)
    ensures Leads(Retries, 1, steps, s)
    ensures s == State(1, 1,
                       map[0 := Buf(0, [7], 1, true, false, Some([7])), 1 := Buf(1, [8], 1, false, true, None),
                           2 := Buf(0, [9], 1, true, false, Some([9])), 3 := Buf(2, [5], 1, false, false, None)],
                       [3], map[1 := 1],
                       [Job(0, 0, false, Done), Job(1, 4, false, Queued), Job(2, 0, false, Done)],
                       false, map[0 := [7]], Idle)
  {
    hide Leads;
    var h := Retries;
    steps, s := NewerBufferSent();
    steps := StartMove(h, 1, steps, s, 0);
    s := StartNext(s, 0);
    steps := FinishMove(h, 1, steps, s, 0, Sent);
    s := FinishNext(s, 0, Sent);
    assert [7][..1] == [7];
  }

  /** The rest is sent as well. */
  lemma AllSentButOne() returns (steps: Run, s: S)
    ensures Leads(Retries, 1, steps, s)
    ensures s == State(1, 1,
                       map[0 := Buf(0, [7], 1, true, false, Some([7])), 1 := Buf(1, [8], 1, true, false, Some([8])),
                           2 := Buf(0, [9], 1, true, false, Some([9])), 3 := Buf(2, [5], 1, false, true, None)],
                       [3], map[2 := 3],
                       [Job(0, 0, false, Done), Job(1, 0, false, Done), Job(2, 0, false, Done),
                        Job(3, 4, true, Queued)],
                       false, map[0 := [7], 1 := [8]], Syncing([]))
  {
    hide Leads;
    var h := Retries;
    steps, s := OlderBufferRetried();
    steps := StartMove(h, 1, steps, s, 1);
    s := StartNext(s, 1);
    steps := FinishMove(h, 1, steps, s, 1, Sent);
    s := FinishNext(s, 1, Sent);
    assert [8][..1] == [8];
    steps := SyncMove(h, 1, steps, s);
    s := Submit(s.(client := Syncing([])), s.cache[0], true);
  }

  lemma SyncedWithTheOldByte() returns (steps: Run, s: S)
    ensures Leads(Retries, 1, steps, s)
    ensures s == State(1, 1,
                       map[0 := Buf(0, [7], 1, true, false, Some([7])), 1 := Buf(1, [8], 1, true, false, Some([8])),
                           2 := Buf(0, [9], 1, true, false, Some([9])), 3 := Buf(2, [5], 1, true, false, Some([5]))],
                       [3], map[],
                       [Job(0, 0, false, Done), Job(1, 0, false, Done), Job(2, 0, false, Done), Job(3, 0, true, Done)],
                       false, map[0 := [7], 1 := [8], 2 := [5]], Syncing([]))
  {
    hide Leads;
    var h := Retries;
    steps, s := AllSentButOne();
    steps := StartMove(h, 1, steps, s, 3);
    s := StartNext(s, 3);
    steps := FinishMove(h, 1, steps, s, 3, Sent);
    s := FinishNext(s, 3, Sent);
    assert [5][..1] == [5];
  }

  /**
   * Write, evict, one failed attempt, write again, evict, sent; then the first buffer is sent by its
   * retry.  The second write was acknowledged, no job is left, Sync returns nil, and the server has the
   * first write's byte.
   */
  lemma AfterAnOlderRetry() returns (steps: Run, s: S)
    ensures Leads(Retries, 1, steps, s)
    ensures Enabled(s, SyncReturn) && 0 in s.server && s.server[0] == [7] && forall j :: !Outstanding(s, j)
    ensures IsNewest(s, Newest(Opened(1, 1, map[]), steps, map[]), 2)
    ensures 2 in s.bufs && s.bufs[2].limit == 1 && s.bufs[2].data == [9] && !Holds(s, 2) && 2 !in s.cache
  {
    steps, s := SyncedWithTheOldByte();
    NewestIs(Retries, 1, steps, s, 2);
    hide Leads;
    assert [9][..1] == [9] && [7][0] != [9][0];
  }
}

/**
 * The workers run dry, and what they leave behind: the measure that every worker step lowers,
 * the entries of flushingBuffers when no job is left, and the sticky file error.
 */
module Quiescence {
  import opened Bytes
  import opened FileMachine
  import opened FileInvariants
  import opened StepForms

  function Weight<Id>(job: Job<Id>): nat {
    match job.phase
    case Queued => 2 * job.left + 1
    case Holding(_, _) => 2 * job.left
    case Done => 0
  }

  function Work<Id>(jobs: seq<Job<Id>>): nat {
    if jobs == [] then 0 else Weight(jobs[0]) + Work(jobs[1..])
  }

  lemma {:induction false} WorkUpdate<Id>(jobs: seq<Job<Id>>, j: nat, job: Job<Id>)
    requires j < |jobs|
    ensures Work(jobs[j := job]) == Work(jobs) - Weight(jobs[j]) + Weight(job)
    ensures Weight(jobs[j]) <= Work(jobs)
  {
    if j == 0 {
      assert jobs[0 := job][1..] == jobs[1..];
    } else {
      assert jobs[j := job][1..] == jobs[1..][j - 1 := job];
      WorkUpdate(jobs[1..], j - 1, job);
    }
  }

  lemma WorkerStepLowersWork<Id>(s: State<Id>, step: Step<Id>)
    requires Inv(s) && Enabled(s, step) && step.Worker()
    ensures Work(Apply(s, step).jobs) < Work(s.jobs)
  {
    WorkerStepLowersWeight(s, step);
    hide Inv, Enabled, Apply, Weight, Work;
    WorkUpdate(s.jobs, step.job, Apply(s, step).jobs[step.job]);
  }

  lemma WorkerStepLowersWeight<Id>(s: State<Id>, step: Step<Id>)
    requires Inv(s) && Enabled(s, step) && step.Worker()
    ensures var t := Apply(s, step); var j := step.job;
      && j < |s.jobs| == |t.jobs| && t.jobs == s.jobs[j := t.jobs[j]]
      && Weight(t.jobs[j]) < Weight(s.jobs[j])
  {
    assert Outstanding(s, step.job);
  }

  /** However the workers are scheduled and however attempts end, they take at most Work steps without the client. */
  lemma {:induction false} WorkersRunDry<Id>(s: State<Id>, steps: seq<Step<Id>>)
    requires Inv(s) && Runs(s, steps) && forall i :: 0 <= i < |steps| ==> steps[i].Worker()
    ensures |steps| <= Work(s.jobs)
    decreases |steps|
  {
    if steps != [] {
      StepKeepsInv(s, steps[0]);
      WorkerStepLowersWork(s, steps[0]);
      WorkersRunDry(Apply(s, steps[0]), steps[1..]);
    }
  }

  /** While a job is outstanding some worker can take a step: the pool is never stuck. */
  lemma WorkersProgress<Id>(s: State<Id>, j: int) returns (step: Step<Id>)
    requires Inv(s) && Outstanding(s, j)
    ensures step.Worker() && Enabled(s, step)
  {
    if k :| 0 <= k < |s.jobs| && s.jobs[k].phase.Holding? {
      step := Finish(k, Sent);
    } else {
      step := Start(j);
    }
  }

  lemma {:induction false} RunKeepsInv<Id>(s: State<Id>, steps: seq<Step<Id>>)
    requires Inv(s) && Runs(s, steps)
    ensures Inv(Exec(s, steps))
    decreases |steps|
  {
    if steps != [] {
      StepKeepsInv(s, steps[0]);
      RunKeepsInv(Apply(s, steps[0]), steps[1..]);
    }
  }

  /**
   * Sync's wait loop never waits for an entry that nobody will clear: without jobs there is no entry, or the file has
   * an error.
   */
  lemma QuietMeansCleared<Id>(chunkSize: int, bufferSize: int, server: map<int, Bytes>, steps: seq<Step<Id>>)
    requires chunkSize > 0 && bufferSize > 0 && Runs(Opened(chunkSize, bufferSize, server), steps)
    ensures var t := Exec(Opened(chunkSize, bufferSize, server), steps);
      (forall j :: !Outstanding(t, j)) ==> t.failed || t.flushing == map[]
  {
    RunKeepsInv(Opened(chunkSize, bufferSize, server), steps);
    var t := Exec(Opened(chunkSize, bufferSize, server), steps);
    if !t.failed && (forall j :: !Outstanding(t, j)) {
      forall off ensures off !in t.flushing {
        assert off in t.flushing ==> exists j :: JobAt(t, j, off) && Outstanding(t, j);
      }
      assert t.flushing.Keys == {};
    }
  }

  // ----- The sticky error -----

  /** An attempt on a buffer of the block is under way. */
  ghost predicate HeldBlock<Id>(s: State<Id>, off: int) {
    exists j :: 0 <= j < |s.jobs| && s.jobs[j].phase.Holding? && s.jobs[j].buf in s.bufs
      && s.bufs[s.jobs[j].buf].offset == off
  }

  ghost predicate SameAt(a: map<int, Bytes>, b: map<int, Bytes>, off: int) {
    (off in a <==> off in b) && (off in a && off in b ==> a[off] == b[off])
  }

  /** After a file error no Sync begins or returns nil, and no attempt begins. */
  lemma FailedStep<Id>(s: State<Id>, step: Step<Id>)
    requires s.failed && Enabled(s, step)
    ensures Apply(s, step).failed && !step.SyncBegin? && !step.SyncReturn?
    ensures forall j :: 0 <= j < |Apply(s, step).jobs| && Apply(s, step).jobs[j].phase.Holding? ==>
              j < |s.jobs| && s.jobs[j].phase.Holding? && Apply(s, step).jobs[j].buf == s.jobs[j].buf
  {
    if !step.Worker() {
      ClientQueuesOneJob(s, step);
      hide Apply, Enabled;
    }
  }

  /** Only the end of an attempt changes the server, and only at its buffer's block. */
  lemma ServerStep<Id>(s: State<Id>, step: Step<Id>, off: int)
    requires Enabled(s, step)
    ensures SameAt(Apply(s, step).server, s.server, off) || (step.Finish? && HeldBlock(s, off))
  {
    if !step.Worker() {
      ClientQueuesOneJob(s, step);
      hide Apply, Enabled;
    } else if step.Finish? {
      assert s.bufs[s.jobs[step.job].buf].offset == off ==> HeldBlock(s, off);
    }
  }

  lemma CacheAddOffsets<Id>(s: State<Id>, b: Id)
    requires WellFormed(s) && b in s.bufs
    ensures CacheAdd(s, b).bufs.Keys == s.bufs.Keys
    ensures forall x :: x in s.bufs ==> CacheAdd(s, b).bufs[x].offset == s.bufs[x].offset
  {
    hide Without;
  }

  /** Buffers stay, each with its block. */
  lemma OffsetsStay<Id>(s: State<Id>, step: Step<Id>)
    requires Enabled(s, step)
    ensures forall b :: b in s.bufs ==> b in Apply(s, step).bufs && Apply(s, step).bufs[b].offset == s.bufs[b].offset
  {
    hide BlockOf, Peek, Without, Splice, CacheAdd;
    match step
    case Locate(pos, bytes, spare) =>
      var off := BlockOf(s.chunkSize, pos);
      if Peek(s.cache, s.bufs, off).None? {
        if off in s.flushing {
          CacheAddOffsets(Revived(s, off), s.flushing[off]);
        } else {
          CacheAddOffsets(WithNewBuffer(s, off, spare), spare);
        }
      }
    case Raise => CacheAddOffsets(s, s.client.buf);
    case _ =>
  }

  lemma FailedBlockStays<Id>(s: State<Id>, step: Step<Id>, off: int)
    requires s.failed && Enabled(s, step) && !HeldBlock(s, off)
    ensures !HeldBlock(Apply(s, step), off) && SameAt(Apply(s, step).server, s.server, off)
  {
    FailedStep(s, step);
    ServerStep(s, step, off);
    OffsetsStay(s, step);
    assert WellFormed(s);
    hide Apply, Enabled;
  }

  /** A block that was not being sent when the error struck is never sent again. */
  lemma {:induction false} NothingSentAfterError<Id>(s: State<Id>, steps: seq<Step<Id>>, off: int)
    requires s.failed && Runs(s, steps) && !HeldBlock(s, off)
    ensures SameAt(Exec(s, steps).server, s.server, off)
    decreases |steps|
  {
    if steps != [] {
      FailedStep(s, steps[0]);
      FailedBlockStays(s, steps[0], off);
      hide Enabled, Apply, HeldBlock;
      NothingSentAfterError(Apply(s, steps[0]), steps[1..], off);
    }
  }

  /** The jobs as they were, and at most one new one with all its attempts. */
  ghost predicate MaybeOneMore<Id>(was: seq<Job<Id>>, now: seq<Job<Id>>) {
    was <= now && |now| <= |was| + 1 && (|now| > |was| ==> now[|was|].phase.Queued? && now[|was|].left == ATTEMPTS)
  }

  lemma CacheAddJobs<Id>(s: State<Id>, b: Id)
    requires WellFormed(s) && b in s.bufs
    ensures MaybeOneMore(s.jobs, CacheAdd(s, b).jobs) && CacheAdd(s, b).failed == s.failed
        && CacheAdd(s, b).server == s.server
  {
    hide Without;
  }

  lemma ClientQueuesOneJob<Id>(s: State<Id>, step: Step<Id>)
    requires Enabled(s, step) && !step.Worker()
    ensures MaybeOneMore(s.jobs, Apply(s, step).jobs)
    ensures Apply(s, step).failed == s.failed && Apply(s, step).server == s.server
  {
    hide BlockOf, Peek, Without, Splice, CacheAdd;
    match step
    case Locate(pos, bytes, spare) =>
      var off := BlockOf(s.chunkSize, pos);
      if Peek(s.cache, s.bufs, off).None? {
        if off in s.flushing {
          CacheAddJobs(Revived(s, off), s.flushing[off]);
        } else {
          CacheAddJobs(WithNewBuffer(s, off, spare), spare);
        }
      }
    case Raise => CacheAddJobs(s, s.client.buf);
    case _ =>
  }

  /**
   * Over any run a file error stays, no Sync begins or returns nil, and no attempt that starts afterwards
   * changes the server: blocks stay as they are but for those with an attempt under way when it struck.
   */
  lemma {:induction false} ErrorSticks<Id>(s: State<Id>, steps: seq<Step<Id>>)
    requires s.failed && Runs(s, steps)
    ensures Exec(s, steps).failed
    ensures forall i :: 0 <= i < |steps| ==> !steps[i].SyncBegin? && !steps[i].SyncReturn?
    ensures forall off :: !HeldBlock(s, off) ==> SameAt(Exec(s, steps).server, s.server, off)
    decreases |steps|
  {
    if steps != [] {
      FailedStep(s, steps[0]);
      hide Enabled, Apply, HeldBlock;
      ErrorSticks(Apply(s, steps[0]), steps[1..]);
      forall i | 0 <= i < |steps| ensures !steps[i].SyncBegin? && !steps[i].SyncReturn? {
        assert i > 0 ==> steps[i] == steps[1..][i - 1];
      }
    }
    forall off | !HeldBlock(s, off) ensures SameAt(Exec(s, steps).server, s.server, off) {
      NothingSentAfterError(s, steps, off);
    }
  }

  // ----- At most four attempts -----

  /** How many attempts of job j end among the steps. */
  function Attempts<Id>(steps: seq<Step<Id>>, j: nat): nat {
    if steps == [] then 0
    else (if steps[0].Finish? && steps[0].job == j then 1 else 0) + Attempts(steps[1..], j)
  }

  /** How many attempts job j has left; a job that is not queued yet will have all of them. */
  function Allowance<Id>(s: State<Id>, j: nat): int {
    if j >= |s.jobs| then ATTEMPTS else if s.jobs[j].phase.Done? then 0 else s.jobs[j].left
  }

  lemma StepUsesAllowance<Id>(s: State<Id>, step: Step<Id>, j: nat)
    requires Inv(s) && Enabled(s, step)
    ensures Allowance(Apply(s, step), j) + (if step.Finish? && step.job == j then 1 else 0) <= Allowance(s, j)
  {
    AllowanceIsLeft(s, j);
    if !step.Worker() {
      ClientQueuesOneJob(s, step);
      hide Apply, Inv, Enabled;
    } else {
      assert j < |s.jobs| && !s.jobs[j].phase.Done? ==> Outstanding(s, j);
      hide BuffersOk, CacheOk, FlushingOk, EntriesCleared;
    }
  }

  /** Over any run of an opened file, with any number of failures, no job makes more than four attempts. */
  lemma {:induction false} AtMostFourAttempts<Id>(s: State<Id>, steps: seq<Step<Id>>, j: nat)
    requires Inv(s) && Runs(s, steps)
    ensures Attempts(steps, j) <= Allowance(s, j) <= ATTEMPTS
    decreases |steps|
  {
    AllowanceIsLeft(s, j);
    if steps != [] {
      StepUsesAllowance(s, steps[0], j);
      StepKeepsInv(s, steps[0]);
      hide Inv, Enabled, Apply, Allowance;
      AtMostFourAttempts(Apply(s, steps[0]), steps[1..], j);
    }
  }

  lemma AllowanceIsLeft<Id>(s: State<Id>, j: nat)
    requires Inv(s)
    ensures 0 <= Allowance(s, j) <= ATTEMPTS
  {
    assert j < |s.jobs| && !s.jobs[j].phase.Done? ==> Outstanding(s, j);
  }

  // ----- Exactly four failures -----

  /** How many attempts of job j fail among the steps. */
  function Failures<Id>(steps: seq<Step<Id>>, j: nat): nat {
    if steps == [] then 0
    else (if steps[0].Finish? && steps[0].job == j && !steps[0].outcome.Sent? then 1 else 0) + Failures(steps[1..], j)
  }

  lemma {:induction false} FailuresMore<Id>(steps: seq<Step<Id>>, step: Step<Id>, j: nat)
    ensures Failures(steps + [step], j) ==
            Failures(steps, j) + if step.Finish? && step.job == j && !step.outcome.Sent? then 1 else 0
  {
    if steps == [] {
      assert [step][1..] == [];
    } else {
      assert (steps + [step])[1..] == steps[1..] + [step];
      FailuresMore(steps[1..], step, j);
    }
  }

  /** Job j, after these steps: what it has left, it has not failed yet; and it ends by a success or a file error. */
  ghost predicate Counted<Id>(s: State<Id>, steps: seq<Step<Id>>, j: nat) {
    && Failures(steps, j) <= 4 && (Failures(steps, j) == 4 ==> s.failed)
    && (j >= |s.jobs| ==> Failures(steps, j) == 0)
    && (j < |s.jobs| && !s.jobs[j].phase.Done? ==> Failures(steps, j) + s.jobs[j].left == 4 && s.jobs[j].left >= 1)
    && (j < |s.jobs| && s.jobs[j].phase.Done? ==> s.failed || Finish(j, Sent) in steps)
    && (Finish(j, Sent) in steps ==> j < |s.jobs| && s.jobs[j].phase.Done?)
  }

  ghost predicate Tried<Id>(s: State<Id>, steps: seq<Step<Id>>) {
    && (forall j: nat :: Counted(s, steps, j))
    && (s.failed ==> exists j: nat :: Failures(steps, j) == 4)
  }

  lemma StepCounts<Id>(s: State<Id>, steps: seq<Step<Id>>, step: Step<Id>, j: nat)
    requires Enabled(s, step) && Counted(s, steps, j)
    ensures Counted(Apply(s, step), steps + [step], j)
    ensures Apply(s, step).failed && step.Finish? && step.job == j ==> s.failed || Failures(steps + [step], j) == 4
  {
    FailuresMore(steps, step, j);
    hide Failures;
    if !step.Worker() {
      ClientQueuesOneJob(s, step);
      hide Apply, Enabled;
    } else if step.Finish? && step.job == j {
      assert step in steps + [step];
    }
  }

  lemma StepTries<Id>(s: State<Id>, steps: seq<Step<Id>>, step: Step<Id>)
    requires Enabled(s, step) && Tried(s, steps)
    ensures Tried(Apply(s, step), steps + [step])
  {
    var t := Apply(s, step);
    hide Counted, Failures;
    forall j: nat ensures Counted(t, steps + [step], j) {
      StepCounts(s, steps, step, j);
    }
    if t.failed {
      if s.failed {
        var j: nat :| Failures(steps, j) == 4;
        StillFour(s, steps, step, j);
      } else {
        FailsByFinish(s, step);
        StepCounts(s, steps, step, step.job);
      }
    }
  }

  lemma StillFour<Id>(s: State<Id>, steps: seq<Step<Id>>, step: Step<Id>, j: nat)
    requires Enabled(s, step) && Counted(s, steps, j) && Failures(steps, j) == 4
    ensures Failures(steps + [step], j) == 4
  {
    FailuresMore(steps, step, j);
    hide Failures;
  }

  lemma FailsByFinish<Id>(s: State<Id>, step: Step<Id>)
    requires Enabled(s, step) && !s.failed && Apply(s, step).failed
    ensures step.Finish? && !step.outcome.Sent?
  {
    if !step.Worker() { ClientQueuesOneJob(s, step); }
  }

  lemma {:induction false} RunTries<Id>(chunkSize: int, bufferSize: int, server: map<int, Bytes>, steps: seq<Step<Id>>)
    requires Runs(Opened(chunkSize, bufferSize, server), steps)
    ensures Tried(Exec(Opened(chunkSize, bufferSize, server), steps), steps)
    decreases |steps|
  {
    if steps != [] {
      var n := |steps| - 1;
      var o: State<Id> := Opened(chunkSize, bufferSize, server);
      assert steps == steps[..n] + [steps[n]];
      RunsSplit(o, steps[..n], [steps[n]]);
      LastOf(Exec(o, steps[..n]), steps[n]);
      RunTries(chunkSize, bufferSize, server, steps[..n]);
      hide Tried, Runs, Exec, Opened, Enabled, Apply;
      StepTries(Exec(o, steps[..n]), steps[..n], steps[n]);
    }
  }

  lemma LastOf<Id>(s: State<Id>, step: Step<Id>)
    requires Runs(s, [step])
    ensures Enabled(s, step) && Exec(s, [step]) == Apply(s, step)
  {
    assert Exec(s, [step]) == Exec(Apply(s, step), []);
  }

  /**
   * A file gets its error exactly by the fourth failure of one job.  Until then a job that failed tries again,
   * with four attempts in all, and it ends exactly by its success.
   */
  lemma FailedIffFourFailures<Id>(chunkSize: int, bufferSize: int, server: map<int, Bytes>, steps: seq<Step<Id>>)
    requires Runs(Opened(chunkSize, bufferSize, server), steps)
    ensures var t := Exec(Opened(chunkSize, bufferSize, server), steps);
      && (t.failed <==> exists j: nat :: Failures(steps, j) == 4)
      && (forall j: nat :: Failures(steps, j) <= 4)
      && (forall j: nat :: j < |t.jobs| && !t.failed ==> (Outstanding(t, j) <==> Finish(j, Sent) !in steps))
      && (forall j: nat :: j < |t.jobs| && Outstanding(t, j) ==> t.jobs[j].left == 4 - Failures(steps, j) >= 1)
  {
    RunTries(chunkSize, bufferSize, server, steps);
    var t := Exec(Opened(chunkSize, bufferSize, server), steps);
    hide Runs, Exec;
    forall j: nat
      ensures Failures(steps, j) <= 4 && (Failures(steps, j) == 4 ==> t.failed)
      ensures j < |t.jobs| && !t.failed ==> (Outstanding(t, j) <==> Finish(j, Sent) !in steps)
      ensures j < |t.jobs| && Outstanding(t, j) ==> t.jobs[j].left == 4 - Failures(steps, j) >= 1
    {
      assert Counted(t, steps, j);
    }
    assert t.failed ==> exists j: nat :: Failures(steps, j) == 4;
    assert (exists j: nat :: Failures(steps, j) == 4) ==> t.failed;
  }

  /** Without a failed attempt the file has no error. */
  lemma NoFailureNoError<Id>(chunkSize: int, bufferSize: int, server: map<int, Bytes>, steps: seq<Step<Id>>)
    requires Runs(Opened(chunkSize, bufferSize, server), steps)
    requires forall i :: 0 <= i < |steps| && steps[i].Finish? ==> steps[i].outcome.Sent?
    ensures !Exec(Opened(chunkSize, bufferSize, server), steps).failed
  {
    FailedIffFourFailures(chunkSize, bufferSize, server, steps);
    forall j: nat ensures Failures(steps, j) == 0 {
      NoneFails(steps, j);
    }
  }

  lemma {:induction false} NoneFails<Id>(steps: seq<Step<Id>>, j: nat)
    requires forall i :: 0 <= i < |steps| && steps[i].Finish? ==> steps[i].outcome.Sent?
    ensures Failures(steps, j) == 0
  {
    if steps != [] { NoneFails(steps[1..], j); }
  }
}

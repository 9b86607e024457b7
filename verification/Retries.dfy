/**
 * Failed attempts of a job leave no trace once the job succeeds: made one after the other, and also with
 * the client's and other workers' steps in between, as long as those leave the job's block alone.
 */
module Retries {
  import opened Bytes
  import opened FileMachine
  import opened FileInvariants
  import opened StepForms
  import opened Quiescence

  // ----- One attempt after the other -----

  /** `fails` failed attempts of job j, then a successful one. */
  function Retried<Id>(j: nat, fails: seq<Outcome>): seq<Step<Id>> {
    if fails == [] then [Start(j), Finish(j, Sent)]
    else [Start(j), Finish(j, fails[0])] + Retried(j, fails[1..])
  }

  ghost predicate CanFlush<Id>(s: State<Id>, j: nat) {
    && Inv(s) && !s.failed && Enabled(s, Start(j))
    && !s.bufs[s.jobs[j].buf].flushed && s.bufs[s.jobs[j].buf].flushing
  }

  /** One attempt of a job that can flush: the start is harmless, and then the end can be any. */
  lemma OneAttempt<Id>(s: State<Id>, j: nat, outcome: Outcome)
    requires CanFlush(s, j)
    ensures StartNext(s, j).jobs[j].phase == Holding(true, s.bufs[s.jobs[j].buf].limit)
    ensures FinishEnabled(StartNext(s, j), j, outcome) && Runs(s, [Start(j), Finish(j, outcome)])
    ensures var t := Exec(s, [Start(j), Finish(j, outcome)]); t == FinishNext(StartNext(s, j), j, outcome) && Inv(t)
  {
    StartStep(s, j);
    var s1 := StartNext(s, j);
    StepKeepsInv(s, Start(j));
    HolderFits(s1, j);
    FinishStep(s1, j, outcome);
    hide Enabled, Apply, Inv, FinishNext, Ending;
    StepKeepsInv(s1, Finish(j, outcome));
    RunsTwo(s, Start(j), Finish(j, outcome));
  }

  lemma FailedAttempt<Id>(s: State<Id>, j: nat, outcome: Outcome)
    requires CanFlush(s, j) && !outcome.Sent? && s.jobs[j].left > 1
    ensures Runs(s, [Start(j), Finish(j, outcome)])
    ensures var t := Exec(s, [Start(j), Finish(j, outcome)]);
      && CanFlush(t, j) && t.jobs == s.jobs[j := s.jobs[j].(left := s.jobs[j].left - 1)]
      && t == s.(jobs := t.jobs, server := t.server, flushing := t.flushing)
      && (t.flushing == s.flushing || t.flushing == s.flushing - {s.bufs[s.jobs[j].buf].offset})
      && t.server in {s.server,
          s.server[s.bufs[s.jobs[j].buf].offset := s.bufs[s.jobs[j].buf].data[..s.bufs[s.jobs[j].buf].limit]]}
  {
    OneAttempt(s, j, outcome);
    FailedEffect(s, j, outcome);
    hide Inv, Runs, Exec, FinishNext, Ending, StartNext;
  }

  lemma FailedEffect<Id>(s: State<Id>, j: nat, outcome: Outcome)
    requires CanFlush(s, j) && !outcome.Sent? && s.jobs[j].left > 1
    requires FinishEnabled(StartNext(s, j), j, outcome)
    requires Inv(FinishNext(StartNext(s, j), j, outcome))
    requires StartNext(s, j).jobs[j].phase == Holding(true, s.bufs[s.jobs[j].buf].limit)
    ensures var t := FinishNext(StartNext(s, j), j, outcome); var off := s.bufs[s.jobs[j].buf].offset;
      && CanFlush(t, j) && t.jobs == s.jobs[j := s.jobs[j].(left := s.jobs[j].left - 1)]
      && t == s.(jobs := t.jobs, server := t.server, flushing := t.flushing)
      && (t.flushing == s.flushing || t.flushing == s.flushing - {off})
      && t.server in {s.server, s.server[off := s.bufs[s.jobs[j].buf].data[..s.bufs[s.jobs[j].buf].limit]]}
  {
    hide Core;
    var t := FinishNext(StartNext(s, j), j, outcome);
    assert t.jobs == s.jobs[j := s.jobs[j].(left := s.jobs[j].left - 1)];
    assert t.bufs == s.bufs;
    assert WellFormed(t) by { InvIsWellFormed(t); }
    assert forall i :: 0 <= i < |s.jobs| && i != j ==> t.jobs[i] == s.jobs[i];
  }

  lemma InvIsWellFormed<Id>(s: State<Id>)
    requires Inv(s)
    ensures WellFormed(s)
  {
  }

  lemma SuccessfulAttempt<Id>(s: State<Id>, j: nat)
    requires CanFlush(s, j)
    ensures Runs(s, [Start(j), Finish(j, Sent)])
    ensures var b := s.jobs[j].buf; var buf := s.bufs[b]; var sent := buf.data[..buf.limit];
      Exec(s, [Start(j), Finish(j, Sent)]) ==
        s.(flushing := s.flushing - {buf.offset},
           server := s.server[buf.offset := sent],
           bufs := s.bufs[b := buf.(flushing := false, flushed := true, sent := Some(sent))],
           jobs := s.jobs[j := Job(b, 0, s.jobs[j].sync, Done)])
  {
    OneAttempt(s, j, Sent);
    var t := FinishNext(StartNext(s, j), j, Sent);
    hide Core, Runs, Exec;
    assert t.jobs == s.jobs[j := Job(s.jobs[j].buf, 0, s.jobs[j].sync, Done)];
  }

  /** Failed attempts before a successful one leave no trace: the file ends up as after one attempt. */
  lemma {:induction false} RetriesAreIdempotent<Id>(s: State<Id>, j: nat, fails: seq<Outcome>)
    requires CanFlush(s, j) && |fails| < s.jobs[j].left && forall i :: 0 <= i < |fails| ==> !fails[i].Sent?
    ensures Runs(s, Retried(j, fails)) && Runs(s, Retried(j, []))
    ensures Exec(s, Retried(j, fails)) == Exec(s, Retried(j, []))
    decreases |fails|
  {
    SuccessfulAttempt(s, j);
    if fails != [] {
      FailedAttempt(s, j, fails[0]);
      var t := Exec(s, [Start(j), Finish(j, fails[0])]);
      RetriesAreIdempotent(t, j, fails[1..]);
      SuccessfulAttempt(t, j);
      RunsAppend(s, [Start(j), Finish(j, fails[0])], Retried(j, fails[1..]));
      var b := s.jobs[j].buf;
      assert t.jobs[j := Job(b, 0, s.jobs[j].sync, Done)] == s.jobs[j := Job(b, 0, s.jobs[j].sync, Done)];
      assert t.flushing - {s.bufs[b].offset} == s.flushing - {s.bufs[b].offset};
    }
  }

  // ----- Retries with other steps in between -----

  /** The block of job j's buffer. */
  ghost function BlockOfJob<Id>(s: State<Id>, j: nat): int
    requires j < |s.jobs| && s.jobs[j].buf in s.bufs
  {
    s.bufs[s.jobs[j].buf].offset
  }

  /**
   * The step is job j's, or it has nothing to do with j's block: no write to it, no attempt of another
   * job on it, and no Sync that finds the flushing list empty.
   */
  ghost predicate LeavesBlock<Id>(s: State<Id>, j: nat, step: Step<Id>) {
    && Enabled(s, step) && j < |s.jobs|
    && match step
       case Locate(pos, _, _) => BlockOf(s.chunkSize, pos) != BlockOfJob(s, j)
       case Copy => s.bufs[s.client.buf].offset != BlockOfJob(s, j)
       case Raise => s.bufs[s.client.buf].offset != BlockOfJob(s, j)
       case SyncReturn => false
       case Start(k) => k == j || s.bufs[s.jobs[k].buf].offset != BlockOfJob(s, j)
       case Finish(k, _) => k == j || s.bufs[s.jobs[k].buf].offset != BlockOfJob(s, j)
       case _ => true
  }

  /** A run up to the success of job j in which every other step leaves j's block. */
  ghost predicate RetryRun<Id>(s: State<Id>, j: nat, steps: seq<Step<Id>>)
    decreases |steps|
  {
    && steps != [] && LeavesBlock(s, j, steps[0])
    && if steps[0] == Finish(j, Sent) then steps[1..] == [] else RetryRun(Apply(s, steps[0]), j, steps[1..])
  }

  /** How the attempt of job j that is under way, or comes next, ends. */
  ghost function NextOutcome<Id>(steps: seq<Step<Id>>, j: nat): Outcome {
    if steps == [] then Sent
    else if steps[0].Finish? && steps[0].job == j then steps[0].outcome
    else NextOutcome(steps[1..], j)
  }

  /** The run without the failed attempts of job j. */
  ghost function WithoutFailures<Id>(steps: seq<Step<Id>>, j: nat): seq<Step<Id>> {
    if steps == [] then []
    else
      var rest := WithoutFailures(steps[1..], j);
      if steps[0] == Start(j) && !NextOutcome(steps[1..], j).Sent? then rest
      else if steps[0].Finish? && steps[0].job == j && !steps[0].outcome.Sent? then rest
      else [steps[0]] + rest
  }

  ghost predicate SameServerBut(a: map<int, Bytes>, b: map<int, Bytes>, off: int) {
    forall o :: o != off ==> SameAt(a, b, o)
  }

  /** The second list may still have an entry at `off` that the first one lacks. */
  ghost predicate SameEntriesBut<Id>(a: map<int, Id>, b: map<int, Id>, off: int) {
    && (forall o :: o in a ==> o in b && b[o] == a[o])
    && (forall o :: o in b && o != off ==> o in a)
  }

  ghost predicate SameJobsBut<Id>(a: seq<Job<Id>>, b: seq<Job<Id>>, j: nat) {
    && j < |a| == |b| && a == b[j := a[j]] && a[j] == b[j].(left := a[j].left, phase := a[j].phase)
    && !a[j].phase.Done? && !b[j].phase.Done? && (b[j].phase.Holding? ==> b[j].phase == a[j].phase)
  }

  /** What failed attempts of job j can make of the file: its own attempts left, its block's entry and server block. */
  ghost predicate SameBut<Id>(s: State<Id>, u: State<Id>, j: nat) {
    && u == s.(jobs := u.jobs, server := u.server, flushing := u.flushing)
    && SameJobsBut(s.jobs, u.jobs, j) && s.jobs[j].buf in s.bufs
    && var off := BlockOfJob(s, j);
      && SameServerBut(s.server, u.server, off) && SameEntriesBut(s.flushing, u.flushing, off)
      && (off in u.flushing ==> u.flushing[off] in s.bufs)
  }

  lemma SubmitSame<Id>(s: State<Id>, u: State<Id>, j: nat, b: Id, sync: bool)
    requires SameBut(s, u, j) && b in s.bufs
    ensures SameBut(Submit(s, b, sync), Submit(u, b, sync), j)
  {
  }

  lemma CacheAddSame<Id>(s: State<Id>, u: State<Id>, j: nat, b: Id)
    requires WellFormed(s) && SameBut(s, u, j) && b in s.bufs
    ensures WellFormed(u) && SameBut(CacheAdd(s, b), CacheAdd(u, b), j)
  {
    SameWellFormed(s, u, j);
    var cache := s.cache + [b];
    if b !in s.cache && |cache| > s.bufferSize {
      hide SameBut, Submit;
      RecachedSame(s, u, j, cache[1..]);
      SubmitSame(s.(cache := cache[1..]), u.(cache := cache[1..]), j, cache[0], false);
    } else {
      RecachedSame(s, u, j, CacheAdd(s, b).cache);
    }
  }

  lemma RecachedSame<Id>(s: State<Id>, u: State<Id>, j: nat, cache: seq<Id>)
    requires SameBut(s, u, j)
    ensures SameBut(s.(cache := cache), u.(cache := cache), j) && u.cache == s.cache && u.bufs == s.bufs
    ensures u.bufferSize == s.bufferSize && u.chunkSize == s.chunkSize && u.client == s.client
  {
  }

  lemma SameWellFormed<Id>(s: State<Id>, u: State<Id>, j: nat)
    requires WellFormed(s) && SameBut(s, u, j)
    ensures WellFormed(u)
  {
    forall off | off in u.flushing ensures u.flushing[off] in u.bufs {
      assert off != BlockOfJob(s, j) ==> off in s.flushing;
    }
    assert forall k :: 0 <= k < |u.jobs| ==> u.jobs[k].buf == s.jobs[k].buf;
  }

  lemma ClientSame<Id>(s: State<Id>, u: State<Id>, j: nat, client: Client<Id>)
    requires SameBut(s, u, j)
    ensures SameBut(s.(client := client), u.(client := client), j)
  {
  }

  lemma RevivedSame<Id>(s: State<Id>, u: State<Id>, j: nat, off: int)
    requires Inv(s) && SameBut(s, u, j) && WellFormed(u) && off in s.flushing && off != BlockOfJob(s, j)
    ensures off in u.flushing && u.flushing[off] == s.flushing[off] && s.flushing[off] != s.jobs[j].buf
    ensures SameBut(Revived(s, off), Revived(u, off), j)
  {
    hide BuffersOk, CacheOk, JobsOk, EntriesCleared;
  }

  lemma TakenSame<Id>(s: State<Id>, u: State<Id>, j: nat, off: int, spare: Id)
    requires Inv(s) && SameBut(s, u, j) && off != BlockOfJob(s, j) && spare !in s.bufs
    ensures WellFormed(u) && spare !in u.bufs && Taken(u, off, spare).1 == Taken(s, off, spare).1
    ensures SameBut(Taken(s, off, spare).0, Taken(u, off, spare).0, j)
  {
    SameWellFormed(s, u, j);
    hide CacheAdd, BuffersOk, CacheOk, JobsOk, EntriesCleared;
    if Peek(s.cache, s.bufs, off).None? {
      if off in s.flushing {
        RevivedSame(s, u, j, off);
        hide SameBut;
        CacheAddSame(Revived(s, off), Revived(u, off), j, s.flushing[off]);
      } else {
        CacheAddSame(WithNewBuffer(s, off, spare), WithNewBuffer(u, off, spare), j, spare);
      }
    }
  }

  /** Other steps do the same to both files, and leave the job and its buffer. */
  ghost predicate InStep<Id>(s: State<Id>, u: State<Id>, j: nat, step: Step<Id>) {
    && Enabled(s, step) && Enabled(u, step) && j < |s.jobs| && j < |u.jobs|
    && SameBut(Apply(s, step), Apply(u, step), j)
    && Apply(s, step).jobs[j] == s.jobs[j] && Apply(u, step).jobs[j] == u.jobs[j]
  }

  lemma LocateInStep<Id>(s: State<Id>, u: State<Id>, j: nat, step: Step<Id>)
    requires Inv(s) && SameBut(s, u, j) && LeavesBlock(s, j, step) && step.Locate?
    ensures InStep(s, u, j, step)
  {
    var off := BlockOf(s.chunkSize, step.pos);
    TakenSame(s, u, j, off, step.spare);
    LocateIs(s, step);
    assert Enabled(u, step);
    LocateIs(u, step);
    ClientQueuesOneJob(s, step);
    ClientQueuesOneJob(u, step);
    hide Inv, Enabled, Apply, BlockOf, Taken;
    ClientSame(Taken(s, off, step.spare).0, Taken(u, off, step.spare).0, j, Apply(s, step).client);
  }

  lemma RaiseInStep<Id>(s: State<Id>, u: State<Id>, j: nat)
    requires Inv(s) && SameBut(s, u, j) && LeavesBlock(s, j, Raise)
    ensures InStep(s, u, j, Raise)
  {
    var b := s.client.buf;
    CacheAddSame(s, u, j, b);
    ClientQueuesOneJob(s, Raise);
    ClientQueuesOneJob(u, Raise);
    hide Inv, CacheAdd, BlockOfJob;
  }

  lemma SubmitInStep<Id>(s: State<Id>, u: State<Id>, j: nat)
    requires Inv(s) && SameBut(s, u, j) && LeavesBlock(s, j, SyncSubmit)
    ensures InStep(s, u, j, SyncSubmit)
  {
    SameWellFormed(s, u, j);
    var b := s.client.todo[0];
    var cache := Without(s.cache, b) + [b];
    var client := Syncing(s.client.todo[1..]);
    RecachedSame(s, u, j, cache);
    ClientSame(s.(cache := cache), u.(cache := cache), j, client);
    SubmitSame(s.(cache := cache, client := client), u.(cache := cache, client := client), j, b, true);
  }

  lemma ClientInStep<Id>(s: State<Id>, u: State<Id>, j: nat, step: Step<Id>)
    requires Inv(s) && SameBut(s, u, j) && LeavesBlock(s, j, step) && (step.Copy? || step.SyncBegin? || step.SyncAbort?)
    ensures InStep(s, u, j, step)
  {
    SameWellFormed(s, u, j);
    forall k | 0 <= k < |s.jobs|
      ensures u.jobs[k].buf == s.jobs[k].buf && u.jobs[k].sync == s.jobs[k].sync
      ensures s.jobs[k].phase.Done? <==> u.jobs[k].phase.Done?
      ensures u.jobs[k].phase.Holding? ==> s.jobs[k].phase.Holding?
    {
    }
    hide Core;
  }

  lemma StartInStep<Id>(s: State<Id>, u: State<Id>, j: nat, k: nat)
    requires Inv(s) && SameBut(s, u, j) && LeavesBlock(s, j, Start(k)) && k != j
    ensures InStep(s, u, j, Start(k))
  {
    SameWellFormed(s, u, j);
    forall i | 0 <= i < |s.jobs|
      ensures u.jobs[i].buf == s.jobs[i].buf && (u.jobs[i].phase.Holding? ==> s.jobs[i].phase.Holding?)
    {
    }
    assert u.jobs[k] == s.jobs[k];
    hide Core;
    assert Enabled(u, Start(k));
    hide WellFormed, Enabled, Held;
    assert StartNext(u, k).jobs[j] == u.jobs[j];
  }

  lemma FinishInStep<Id>(s: State<Id>, u: State<Id>, j: nat, k: nat, outcome: Outcome)
    requires Inv(s) && SameBut(s, u, j) && LeavesBlock(s, j, Finish(k, outcome)) && k != j
    ensures InStep(s, u, j, Finish(k, outcome))
  {
    SameWellFormed(s, u, j);
    assert u.jobs[k] == s.jobs[k];
    assert Enabled(u, Finish(k, outcome));
    hide Core, WellFormed, Enabled;
    FinishSame(s, u, j, k, outcome);
  }

  lemma FinishSame<Id>(s: State<Id>, u: State<Id>, j: nat, k: nat, outcome: Outcome)
    requires SameBut(s, u, j) && FinishEnabled(s, k, outcome) && FinishEnabled(u, k, outcome) && k != j
    requires s.bufs[s.jobs[k].buf].offset != BlockOfJob(s, j)
    ensures SameBut(FinishNext(s, k, outcome), FinishNext(u, k, outcome), j)
    ensures FinishNext(s, k, outcome).jobs[j] == s.jobs[j] && FinishNext(u, k, outcome).jobs[j] == u.jobs[j]
  {
    assert u.jobs[k] == s.jobs[k];
    var job := s.jobs[k];
    AttemptedSame(s, u, j, job.buf, job.phase.flush, job.phase.lim, outcome);
    var t := FinishNext(s, k, outcome);
    hide SameBut, Attempted;
    JobSame(Attempted(s, job.buf, job.phase.flush, job.phase.lim, outcome),
        Attempted(u, job.buf, job.phase.flush, job.phase.lim, outcome), j, k, t.jobs[k], t.failed);
  }

  lemma AttemptedSame<Id>(s: State<Id>, u: State<Id>, j: nat, b: Id, flush: bool, lim: int, outcome: Outcome)
    requires SameBut(s, u, j) && b in s.bufs && 0 <= lim <= |s.bufs[b].data|
    requires s.bufs[b].offset != BlockOfJob(s, j)
    ensures u.bufs == s.bufs && u.failed == s.failed
    ensures SameBut(Attempted(s, b, flush, lim, outcome), Attempted(u, b, flush, lim, outcome), j)
    ensures Attempted(s, b, flush, lim, outcome).jobs == s.jobs && Attempted(u, b, flush, lim, outcome).jobs == u.jobs
  {
    var off := s.bufs[b].offset;
    UpdatedSame(s.server, u.server, BlockOfJob(s, j), off, s.bufs[b].data[..lim]);
    DeletedSame(s.flushing, u.flushing, BlockOfJob(s, j), off);
    hide SameServerBut, SameEntriesBut;
  }

  lemma JobSame<Id>(s: State<Id>, u: State<Id>, j: nat, k: nat, job: Job<Id>, failed: bool)
    requires SameBut(s, u, j) && k < |s.jobs| && k != j
    ensures k < |u.jobs|
    ensures SameBut(s.(jobs := s.jobs[k := job], failed := failed), u.(jobs := u.jobs[k := job], failed := failed), j)
  {
    hide SameServerBut, SameEntriesBut;
  }

  lemma UpdatedSame(a: map<int, Bytes>, b: map<int, Bytes>, off: int, at: int, x: Bytes)
    requires SameServerBut(a, b, off)
    ensures SameServerBut(a[at := x], b[at := x], off)
  {
    var c := a[at := x];
    var d := b[at := x];
    forall o | o != off ensures SameAt(c, d, o) { assert SameAt(a, b, o); }
  }

  lemma DeletedSame<Id>(a: map<int, Id>, b: map<int, Id>, off: int, at: int)
    requires SameEntriesBut(a, b, off)
    ensures SameEntriesBut(a - {at}, b - {at}, off)
  {
  }

  lemma StepInStep<Id>(s: State<Id>, u: State<Id>, j: nat, step: Step<Id>)
    requires Inv(s) && SameBut(s, u, j) && LeavesBlock(s, j, step) && !(step.Worker() && step.job == j)
    ensures InStep(s, u, j, step)
  {
    hide Inv, SameBut, InStep;
    match step
    case Locate(_, _, _) => LocateInStep(s, u, j, step);
    case Raise => RaiseInStep(s, u, j);
    case SyncSubmit => SubmitInStep(s, u, j);
    case SyncReturn => assert false;
    case Start(k) => StartInStep(s, u, j, k);
    case Finish(k, outcome) => FinishInStep(s, u, j, k, outcome);
    case _ => ClientInStep(s, u, j, step);
  }

  /** Job j's buffer has bytes to send. */
  ghost predicate Dirty<Id>(s: State<Id>, j: nat) {
    j < |s.jobs| && s.jobs[j].buf in s.bufs && !s.bufs[s.jobs[j].buf].flushed && s.bufs[s.jobs[j].buf].flushing
  }

  lemma CacheAddLeaves<Id>(s: State<Id>, b: Id, x: Id)
    requires WellFormed(s) && b in s.bufs && x in s.bufs
    ensures var t := CacheAdd(s, b); x in t.bufs && t.bufs[x] == s.bufs[x].(flushing := t.bufs[x].flushing)
    ensures s.bufs[x].flushing ==> CacheAdd(s, b).bufs[x].flushing
  {
    hide Without;
  }

  lemma TakenLeaves<Id>(s: State<Id>, off: int, spare: Id, x: Id)
    requires Inv(s) && x in s.bufs && s.bufs[x].offset != off && spare !in s.bufs && s.bufs[x].flushing
    ensures x in Taken(s, off, spare).0.bufs && Taken(s, off, spare).0.bufs[x] == s.bufs[x]
  {
    hide CacheAdd, BuffersOk, CacheOk, JobsOk, EntriesCleared;
    if Peek(s.cache, s.bufs, off).None? {
      if off in s.flushing {
        CacheAddLeaves(Revived(s, off), s.flushing[off], x);
      } else {
        CacheAddLeaves(WithNewBuffer(s, off, spare), spare, x);
      }
    }
  }

  lemma StepKeepsDirty<Id>(s: State<Id>, j: nat, step: Step<Id>)
    requires Inv(s) && Dirty(s, j) && LeavesBlock(s, j, step) && step != Finish(j, Sent)
    ensures Dirty(Apply(s, step), j)
  {
    if step.Worker() {
      WorkerKeepsDirty(s, j, step);
    } else {
      ClientQueuesOneJob(s, step);
      if step.Locate? {
        LocateIs(s, step);
        TakenLeaves(s, BlockOf(s.chunkSize, step.pos), step.spare, s.jobs[j].buf);
        hide Apply, Taken, Enabled, Inv, BlockOf;
      } else if step.Raise? {
        CacheAddLeaves(s, s.client.buf, s.jobs[j].buf);
        hide CacheAdd, Inv;
      } else {
        hide Inv, Without;
      }
    }
  }

  lemma WorkerKeepsDirty<Id>(s: State<Id>, j: nat, step: Step<Id>)
    requires Dirty(s, j) && LeavesBlock(s, j, step) && step.Worker() && step != Finish(j, Sent)
    ensures Dirty(Apply(s, step), j)
  {
  }

  lemma DoneStays<Id>(s: State<Id>, j: nat, step: Step<Id>)
    requires Enabled(s, step) && j < |s.jobs| && s.jobs[j].phase.Done?
    ensures j < |Apply(s, step).jobs| && Apply(s, step).jobs[j].phase.Done?
  {
    if !step.Worker() {
      ClientQueuesOneJob(s, step);
      hide Apply, Enabled;
    }
  }

  /** A job that is over does not succeed any more. */
  lemma {:induction false} DoneNeverSucceeds<Id>(s: State<Id>, j: nat, steps: seq<Step<Id>>)
    requires j < |s.jobs| && s.jobs[j].phase.Done?
    ensures !RetryRun(s, j, steps)
    decreases |steps|
  {
    if steps != [] && Enabled(s, steps[0]) {
      DoneStays(s, j, steps[0]);
      DoneNeverSucceeds(Apply(s, steps[0]), j, steps[1..]);
    }
  }

  /** Where the two files stand with job j: together, or the second has not begun the attempts that fail. */
  ghost predicate Matched<Id>(s: State<Id>, u: State<Id>, j: nat, steps: seq<Step<Id>>) {
    && SameBut(s, u, j)
    && (s.jobs[j].phase.Queued? ==> u.jobs[j].phase.Queued?)
    && (s.jobs[j].phase.Holding? ==>
          s.jobs[j].phase.flush &&
          if NextOutcome(steps, j).Sent? then u.jobs[j].phase == s.jobs[j].phase else u.jobs[j].phase.Queued?)
  }

  lemma OwnStart<Id>(s: State<Id>, u: State<Id>, j: nat, rest: seq<Step<Id>>)
    requires WellFormed(s) && Dirty(s, j) && SameBut(s, u, j) && Enabled(s, Start(j)) && !s.failed
    requires u.jobs[j].phase.Queued?
    ensures if NextOutcome(rest, j).Sent?
            then Enabled(u, Start(j)) && Matched(StartNext(s, j), StartNext(u, j), j, rest)
            else Matched(StartNext(s, j), u, j, rest)
  {
    SameWellFormed(s, u, j);
    forall i | 0 <= i < |s.jobs|
      ensures u.jobs[i].buf == s.jobs[i].buf && (u.jobs[i].phase.Holding? ==> s.jobs[i].phase.Holding?)
    {
    }
    hide WellFormed, NextOutcome;
  }

  lemma OwnFailure<Id>(s: State<Id>, u: State<Id>, j: nat, outcome: Outcome, rest: seq<Step<Id>>)
    requires SameBut(s, u, j) && FinishEnabled(s, j, outcome) && !outcome.Sent? && s.jobs[j].left > 1
    requires u.jobs[j].phase.Queued?
    ensures Matched(FinishNext(s, j, outcome), u, j, rest)
  {
    var t := FinishNext(s, j, outcome);
    assert SameServerBut(t.server, u.server, BlockOfJob(s, j)) by {
      forall o | o != BlockOfJob(s, j) ensures SameAt(t.server, u.server, o) {
        assert SameAt(s.server, u.server, o);
      }
    }
    hide NextOutcome;
  }

  lemma EndsAlike<Id>(s: State<Id>, u: State<Id>, j: nat)
    requires WellFormed(s) && SameBut(s, u, j) && Enabled(s, Finish(j, Sent)) && s.jobs[j].phase.flush
    requires u.jobs[j].phase == s.jobs[j].phase
    ensures Enabled(u, Finish(j, Sent)) && Apply(u, Finish(j, Sent)) == Apply(s, Finish(j, Sent))
  {
    SameWellFormed(s, u, j);
    hide WellFormed;
    var t := FinishNext(s, j, Sent);
    var v := FinishNext(u, j, Sent);
    SameAfter(s.server, u.server, BlockOfJob(s, j), s.bufs[s.jobs[j].buf].data[..s.jobs[j].phase.lim]);
    SameAfterDeletion(s.flushing, u.flushing, BlockOfJob(s, j));
    assert t.jobs == v.jobs;
  }

  lemma SameAfter(a: map<int, Bytes>, b: map<int, Bytes>, off: int, x: Bytes)
    requires SameServerBut(a, b, off)
    ensures a[off := x] == b[off := x]
  {
    var c := a[off := x];
    var d := b[off := x];
    forall o ensures SameAt(c, d, o) { assert o != off ==> SameAt(a, b, o); }
    forall o ensures o in c <==> o in d { assert SameAt(c, d, o); }
    assert c.Keys == d.Keys;
    forall o | o in c ensures c[o] == d[o] { assert SameAt(c, d, o); }
  }

  lemma SameAfterDeletion<Id>(a: map<int, Id>, b: map<int, Id>, off: int)
    requires SameEntriesBut(a, b, off)
    ensures a - {off} == b - {off}
  {
    var c := a - {off};
    var d := b - {off};
    forall o ensures o in c <==> o in d {
      assert o in b && o != off ==> o in a;
    }
    assert c.Keys == d.Keys;
    forall o | o in c ensures c[o] == d[o] { assert o in a && o in b; }
  }

  /** Both files take the step, or it belongs to an attempt that fails and the second file does not take it. */
  ghost predicate Follows<Id>(s: State<Id>, u: State<Id>, j: nat, steps: seq<Step<Id>>, both: bool)
    requires steps != [] && Enabled(s, steps[0])
  {
    var rest := steps[1..];
    if both then
      && Enabled(u, steps[0]) && Matched(Apply(s, steps[0]), Apply(u, steps[0]), j, rest)
      && WithoutFailures(steps, j) == [steps[0]] + WithoutFailures(rest, j)
    else
      Matched(Apply(s, steps[0]), u, j, rest) && WithoutFailures(steps, j) == WithoutFailures(rest, j)
  }

  lemma OwnStep<Id>(s: State<Id>, u: State<Id>, j: nat, steps: seq<Step<Id>>) returns (both: bool)
    requires Inv(s) && RetryRun(s, j, steps) && Dirty(s, j) && Matched(s, u, j, steps)
    requires steps[0].Worker() && steps[0].job == j && steps[0] != Finish(j, Sent)
    ensures Follows(s, u, j, steps, both)
  {
    var rest := steps[1..];
    both := false;
    assert !Apply(s, steps[0]).jobs[j].phase.Done? by {
      if Apply(s, steps[0]).jobs[j].phase.Done? { DoneNeverSucceeds(Apply(s, steps[0]), j, rest); }
    }
    hide Inv, SameBut, RetryRun, WithoutFailures;
    match steps[0]
    case Start(_) =>
      OwnStart(s, u, j, rest);
      both := NextOutcome(rest, j).Sent?;
    case Finish(_, outcome) =>
      OwnFailure(s, u, j, outcome, rest);
  }

  lemma OtherStep<Id>(s: State<Id>, u: State<Id>, j: nat, steps: seq<Step<Id>>)
    requires steps != [] && LeavesBlock(s, j, steps[0]) && Matched(s, u, j, steps)
    requires !(steps[0].Worker() && steps[0].job == j) && InStep(s, u, j, steps[0])
    ensures Follows(s, u, j, steps, true)
  {
    hide Enabled, Apply, SameBut;
  }

  lemma {:induction false} Simulated<Id>(s: State<Id>, u: State<Id>, j: nat, steps: seq<Step<Id>>)
    requires Inv(s) && RetryRun(s, j, steps) && Dirty(s, j) && Matched(s, u, j, steps)
    ensures Runs(s, steps) && Runs(u, WithoutFailures(steps, j))
    ensures Exec(u, WithoutFailures(steps, j)) == Exec(s, steps)
    decreases |steps|
  {
    var step := steps[0];
    if step == Finish(j, Sent) {
      SuccessAlike(s, u, j, steps);
    } else {
      StepKeepsInv(s, step);
      StepKeepsDirty(s, j, step);
      var both := true;
      if step.Worker() && step.job == j {
        both := OwnStep(s, u, j, steps);
      } else {
        StepInStep(s, u, j, step);
        OtherStep(s, u, j, steps);
      }
      hide Inv, Matched, Dirty, Enabled, Apply, LeavesBlock, WithoutFailures;
      Simulated(Apply(s, step), if both then Apply(u, step) else u, j, steps[1..]);
    }
  }

  lemma SuccessAlike<Id>(s: State<Id>, u: State<Id>, j: nat, steps: seq<Step<Id>>)
    requires Inv(s) && RetryRun(s, j, steps) && Matched(s, u, j, steps) && steps[0] == Finish(j, Sent)
    ensures Runs(s, steps) && Runs(u, WithoutFailures(steps, j))
    ensures Exec(u, WithoutFailures(steps, j)) == Exec(s, steps)
  {
    EndsAlike(s, u, j);
    assert WithoutFailures(steps[1..], j) == [];
    assert WithoutFailures(steps, j) == [steps[0]] == steps;
    hide Inv, SameBut, Apply, Enabled;
    RunsOne(s, steps[0]);
    RunsOne(u, steps[0]);
  }

  /**
   * Whatever other buffers the client writes and other workers send between the attempts of a job: if the
   * job's block is left alone until the job succeeds, its failed attempts leave no trace.  The file is the
   * one in which only the successful attempt was made.
   */
  lemma RetriesLeaveNoTrace<Id>(s: State<Id>, j: nat, steps: seq<Step<Id>>)
    requires Inv(s) && Dirty(s, j) && s.jobs[j].phase.Queued? && RetryRun(s, j, steps)
    ensures Runs(s, steps) && Runs(s, WithoutFailures(steps, j))
    ensures Exec(s, WithoutFailures(steps, j)) == Exec(s, steps)
  {
    assert s.jobs[j := s.jobs[j]] == s.jobs;
    Simulated(s, s, j, steps);
  }

  /** The attempts are counted: a fourth failure is the file's error, and the job is over. */
  lemma LastFailureIsTheFilesError<Id>(s: State<Id>, j: nat, outcome: Outcome)
    requires CanFlush(s, j) && !outcome.Sent?
    ensures Runs(s, [Start(j), Finish(j, outcome)])
    ensures var t := Exec(s, [Start(j), Finish(j, outcome)]);
      t.failed <==> s.jobs[j].left == 1
    ensures var t := Exec(s, [Start(j), Finish(j, outcome)]);
      Outstanding(t, j) <==> s.jobs[j].left > 1
  {
    OneAttempt(s, j, outcome);
    assert Outstanding(s, j);
    hide Core, Runs, Exec;
  }
}

/** The machine's steps in closed form: what each makes of the state, when it is enabled. */
module StepForms {
  import opened Bytes
  import opened FileMachine
  import opened FileInvariants

  lemma LocateIsTaken<Id>(s: State<Id>, pos: int, bytes: Bytes, spare: Id)
    requires Inv(s) && s.client.Idle? && Fits(s, pos, bytes) && spare !in s.bufs
    ensures Enabled(s, Locate(pos, bytes, spare))
    ensures var off := BlockOf(s.chunkSize, pos); var (t, b) := Taken(s, off, spare);
      Apply(s, Locate(pos, bytes, spare)) == t.(client := Located(b, pos - off, bytes)) && t.server == s.server
  {
  }

  /** A new buffer has no job: an evicted buffer was there before. */
  lemma TakenJobs<Id>(s: State<Id>, off: int, spare: Id)
    requires WellFormed(s) && spare !in s.bufs
    ensures var jobs := Taken(s, off, spare).0.jobs; forall j :: 0 <= j < |jobs| ==> jobs[j].buf in s.bufs
  {
    hide Peek;
  }

  lemma CopyStep<Id>(s: State<Id>, b: Id, at: int, piece: Bytes)
    requires Inv(s) && s.client == Located(b, at, piece) && !Held(s, b)
    ensures b in s.bufs && 0 <= at && at + |piece| <= |s.bufs[b].data| && Enabled(s, Copy)
    ensures var buf := s.bufs[b];
      Apply(s, Copy) == s.(bufs := s.bufs[b := buf.(data := Splice(buf.data, at, piece), flushed := false)],
          client := Copied(b, at + |piece|))
  {
  }

  /** The buffer a piece was copied to is still cached, and the only one cached for its block. */
  lemma RaiseStep<Id>(s: State<Id>, b: Id, end: int)
    requires Inv(s) && s.client == Copied(b, end)
    ensures Enabled(s, Raise) && WellFormed(s) && b in s.cache && b in s.bufs
    ensures forall c :: c in s.cache && s.bufs[c].offset == s.bufs[b].offset ==> c == b
    ensures Apply(s, Raise) == Raised(s, b, end).(client := Idle) && Raised(s, b, end).server == s.server
  {
  }

  lemma StartStep<Id>(s: State<Id>, j: nat)
    requires Inv(s) && j < |s.jobs| && s.jobs[j].phase.Queued? && !Held(s, s.jobs[j].buf)
    ensures s.jobs[j].buf in s.bufs && Enabled(s, Start(j)) && Apply(s, Start(j)) == StartNext(s, j)
    ensures StartNext(s, j).server == s.server && StartNext(s, j).client == s.client
        && OnlyJob(s.jobs, StartNext(s, j).jobs, j)
  {
  }

  ghost predicate Ending<Id>(s: State<Id>, j: nat) {
    && j < |s.jobs| && s.jobs[j].phase.Holding? && s.jobs[j].buf in s.bufs && s.jobs[j].left >= 1
    && 0 <= s.jobs[j].phase.lim <= |s.bufs[s.jobs[j].buf].data| == s.chunkSize
  }

  lemma HolderFits<Id>(s: State<Id>, j: nat)
    requires Inv(s) && j < |s.jobs| && s.jobs[j].phase.Holding?
    ensures Ending(s, j)
  {
    assert Outstanding(s, j);
  }

  lemma FinishStep<Id>(s: State<Id>, j: nat, outcome: Outcome)
    requires Inv(s) && Ending(s, j) && (!s.jobs[j].phase.flush ==> outcome.Sent?)
    ensures Enabled(s, Finish(j, outcome)) && Apply(s, Finish(j, outcome)) == FinishNext(s, j, outcome)
    ensures FinishNext(s, j, outcome).client == s.client && OnlyJob(s.jobs, FinishNext(s, j, outcome).jobs, j)
  {
  }

  lemma FinishJobs<Id>(s: State<Id>, j: nat, outcome: Outcome)
    requires FinishEnabled(s, j, outcome)
    ensures FinishNext(s, j, outcome).client == s.client
    ensures var jobs := FinishNext(s, j, outcome).jobs;
      |jobs| == |s.jobs| && forall k :: 0 <= k < |jobs| ==> jobs[k].buf == s.jobs[k].buf
  {
  }

  lemma SubmitStep<Id>(s: State<Id>, b: Id, rest: seq<Id>)
    requires Inv(s) && s.client == Syncing([b] + rest)
    ensures Enabled(s, SyncSubmit) && b in s.bufs
    ensures Apply(s, SyncSubmit) == FileMachine.Submit(s.(cache := Without(s.cache, b) + [b]), b,
        true).(client := Syncing(rest))
    ensures Apply(s, SyncSubmit).server == s.server
  {
    assert s.client.todo[0] == b && s.client.todo[1..] == rest;
  }

  lemma AttemptedIs<Id>(s: State<Id>, b: Id, flush: bool, lim: int, outcome: Outcome, flushing: map<int, Id>,
      server: map<int, Bytes>, buf: Buf)
    requires b in s.bufs && 0 <= lim <= |s.bufs[b].data|
    requires flushing == if outcome.ChunkerFailed? then s.flushing else s.flushing - {s.bufs[b].offset}
    requires server == if flush && (outcome.Sent? || outcome.ReplyLost?)
      then s.server[s.bufs[b].offset := s.bufs[b].data[..lim]] else s.server
    requires buf == if flush && outcome.Sent?
      then s.bufs[b].(flushing := false, flushed := true, sent := Some(s.bufs[b].data[..lim])) else s.bufs[b]
    ensures Attempted(s, b, flush, lim, outcome) == s.(flushing := flushing, server := server, bufs := s.bufs[b := buf])
  {
    assert s.bufs[b := s.bufs[b]] == s.bufs;
  }

  /** While a job is outstanding, some job can take a step. */
  lemma SomeoneCanWork<Id>(s: State<Id>)
    requires Inv(s) && exists j :: Outstanding(s, j)
    ensures exists j: nat ::
      j < |s.jobs| && (s.jobs[j].phase.Holding? || (s.jobs[j].phase.Queued? && !Held(s, s.jobs[j].buf)))
  {
    var j :| Outstanding(s, j);
    if Held(s, s.jobs[j].buf) {
      var k: nat :| k < |s.jobs| && s.jobs[k].buf == s.jobs[j].buf && s.jobs[k].phase.Holding?;
    } else {
      var k: nat := j;
      assert s.jobs[k].phase.Holding? || s.jobs[k].phase.Queued?;
    }
  }

  ghost predicate OnlyJob<Id>(was: seq<Job<Id>>, now: seq<Job<Id>>, j: nat) {
    && j < |was| == |now| && now == was[j := now[j]] && now[j].sync == was[j].sync && now[j].buf == was[j].buf
    && was[j].phase != Done
  }

  lemma DoneKept<Id>(s: State<Id>, t: State<Id>, j: nat)
    requires OnlyJob(s.jobs, t.jobs, j)
    ensures SyncJobsDone(s) ==> SyncJobsDone(t)
  {
  }

  lemma OneMore<Id>(start: State<Id>, trace: seq<Step<Id>>, step: Step<Id>)
    requires Runs(start, trace) && Enabled(Exec(start, trace), step)
    ensures Runs(start, trace + [step]) && Exec(start, trace + [step]) == Apply(Exec(start, trace), step)
  {
    hide Enabled, Apply;
    RunsOne(Exec(start, trace), step);
    RunsAppend(start, trace, [step]);
  }
}

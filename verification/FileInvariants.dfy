/** What every step of FileMachine keeps, whatever the workers' timing and however attempts end. */
module FileInvariants {
  import opened Bytes
  import opened FileMachine

  ghost predicate Distinct<Id>(cache: seq<Id>, bufs: map<Id, Buf>)
    requires forall b :: b in cache ==> b in bufs
  {
    forall i, k :: 0 <= i < k < |cache| ==> bufs[cache[i]].offset != bufs[cache[k]].offset
  }

  /** Where the zeros of a buffer start; between Copy and Raise the limit lags behind the bytes. */
  ghost function Top<Id>(s: State<Id>, b: Id): int
    requires b in s.bufs
  {
    if s.client.Copied? && s.client.buf == b && s.client.end > s.bufs[b].limit then s.client.end else s.bufs[b].limit
  }

  ghost predicate BuffersOk<Id>(s: State<Id>) {
    forall b :: b in s.bufs ==>
      && |s.bufs[b].data| == s.chunkSize
      && 0 <= s.bufs[b].limit <= Top(s, b) <= s.chunkSize
      && forall k :: Top(s, b) <= k < s.chunkSize ==> s.bufs[b].data[k] == 0
  }

  ghost predicate CacheOk<Id>(s: State<Id>)
    requires WellFormed(s)
  {
    Distinct(s.cache, s.bufs) && |s.cache| <= s.bufferSize
  }

  ghost predicate FlushingOk<Id>(s: State<Id>)
    requires WellFormed(s)
  {
    forall off :: off in s.flushing ==> s.bufs[s.flushing[off]].offset == off
  }

  ghost predicate ClientOk<Id>(s: State<Id>) {
    match s.client
    case Idle => true
    case Located(b, at, bytes) => b in s.cache && 0 <= at && at + |bytes| <= s.chunkSize && bytes != []
    case Copied(b, end) => b in s.cache
    case Syncing(todo) => forall b :: b in todo ==> b in s.cache
  }

  /** buffer.mu: at most one attempt holds a buffer. */
  ghost predicate JobsOk<Id>(s: State<Id>) {
    && (forall i, k :: 0 <= i < k < |s.jobs| && s.jobs[i].phase.Holding? && s.jobs[k].phase.Holding? ==>
          s.jobs[i].buf != s.jobs[k].buf)
    && (forall j :: 0 <= j < |s.jobs| && s.jobs[j].phase.Holding? ==> 0 <= s.jobs[j].phase.lim <= s.chunkSize)
    && (forall j :: Outstanding(s, j) ==> 1 <= s.jobs[j].left <= ATTEMPTS)
  }

  ghost predicate JobAt<Id>(s: State<Id>, j: int, off: int) {
    Outstanding(s, j) && s.jobs[j].buf in s.bufs && s.bufs[s.jobs[j].buf].offset == off
  }

  /** Some job will clear every flushing entry, unless the file has an error. */
  ghost predicate EntriesCleared<Id>(s: State<Id>) {
    s.failed || forall off :: off in s.flushing ==> exists j :: JobAt(s, j, off)
  }

  ghost predicate Core<Id>(s: State<Id>) {
    WellFormed(s) && BuffersOk(s) && CacheOk(s) && FlushingOk(s) && JobsOk(s) && EntriesCleared(s)
  }

  ghost predicate Inv<Id>(s: State<Id>) {
    Core(s) && ClientOk(s)
  }

  /** EntriesCleared survives when the entries left still have their jobs. */
  lemma EntriesFrame<Id>(s: State<Id>, t: State<Id>)
    requires EntriesCleared(s)
    requires t.failed || (!s.failed && t.flushing.Keys <= s.flushing.Keys)
    requires t.failed || forall j, off :: off in t.flushing && JobAt(s, j, off) ==> JobAt(t, j, off)
    ensures EntriesCleared(t)
  {
    if !t.failed {
      forall off | off in t.flushing ensures exists j :: JobAt(t, j, off) {
        var j :| JobAt(s, j, off);
        assert JobAt(t, j, off);
      }
    }
  }

  lemma {:induction false} WithoutKeepsDistinct<Id>(cache: seq<Id>, bufs: map<Id, Buf>, b: Id)
    requires b in bufs && forall x :: x in cache ==> x in bufs
    requires Distinct(cache, bufs)
    requires b in cache || forall x :: x in cache ==> bufs[x].offset != bufs[b].offset
    ensures Distinct(Without(cache, b) + [b], bufs)
    ensures forall x :: x in Without(cache, b) ==> bufs[x].offset != bufs[b].offset
  {
    if cache != [] {
      var rest := cache[1..];
      assert forall x :: x in rest ==> exists i :: 1 <= i < |cache| && cache[i] == x;
      if cache[0] == b {
        assert Without(rest, b) == rest;
      } else {
        WithoutKeepsDistinct(rest, bufs, b);
        var tail := Without(rest, b) + [b];
        assert Without(cache, b) + [b] == [cache[0]] + tail;
        forall i | 0 <= i < |tail| ensures bufs[tail[i]].offset != bufs[cache[0]].offset {
          assert i < |tail| - 1 ==> tail[i] == Without(rest, b)[i] && tail[i] in rest;
          assert b in cache ==> b in rest;
        }
      }
    }
  }

  /** What Submit and CacheAdd do to everything but the cache order. */
  lemma SubmitKeeps<Id>(s: State<Id>, b: Id, sync: bool)
    requires b in s.bufs && Core(s)
    ensures Core(Submit(s, b, sync))
  {
    var t := Submit(s, b, sync);
    assert JobAt(t, |s.jobs|, s.bufs[b].offset);
    if !s.failed {
      forall off | off in t.flushing && off != s.bufs[b].offset ensures exists j :: JobAt(t, j, off) {
        var j :| JobAt(s, j, off);
        assert JobAt(t, j, off);
      }
    }
  }

  /** Only the order of the cache matters to CacheOk, and only its members to the rest. */
  lemma RecacheKeeps<Id>(s: State<Id>, cache: seq<Id>)
    requires Core(s)
    requires (forall x :: x in cache ==> x in s.bufs) && Distinct(cache, s.bufs) && |cache| <= s.bufferSize
    ensures Core(s.(cache := cache))
  {
    EntriesFrame(s, s.(cache := cache));
  }

  lemma CacheAddKeeps<Id>(s: State<Id>, b: Id)
    requires b in s.bufs && Core(s)
    requires b in s.cache || forall x :: x in s.cache ==> s.bufs[x].offset != s.bufs[b].offset
    ensures var t := CacheAdd(s, b);
      Core(t) && b in t.cache && forall x :: x in t.cache ==> x == b || x in s.cache
  {
    WithoutKeepsDistinct(s.cache, s.bufs, b);
    if b in s.cache {
      RecacheKeeps(s, Without(s.cache, b) + [b]);
    } else {
      var cache := s.cache + [b];
      if |cache| <= s.bufferSize {
        RecacheKeeps(s, cache);
      } else {
        assert cache[1..][|cache| - 2] == b;
        RecacheKeeps(s, cache[1..]);
        SubmitKeeps(s.(cache := cache[1..]), cache[0], false);
      }
    }
  }

  lemma ClientKeeps<Id>(s: State<Id>, client: Client<Id>)
    requires Core(s) && !s.client.Copied? && !client.Copied?
    requires client.Located? ==> client.buf in s.bufs
    requires client.Syncing? ==> forall b :: b in client.todo ==> b in s.bufs
    ensures Core(s.(client := client))
  {
    EntriesFrame(s, s.(client := client));
  }

  lemma ReviveKeeps<Id>(s: State<Id>, off: int)
    requires Core(s) && off in s.flushing
    ensures Core(Revived(s, off)) && Revived(s, off).bufs[s.flushing[off]].offset == off
    ensures forall x :: x in s.cache ==> Revived(s, off).bufs[x].offset == s.bufs[x].offset
  {
    EntriesFrame(s, Revived(s, off));
  }

  lemma NewBufferKeeps<Id>(s: State<Id>, off: int, spare: Id)
    requires Core(s) && spare !in s.bufs && !s.client.Copied?
    ensures Core(WithNewBuffer(s, off, spare))
  {
    EntriesFrame(s, WithNewBuffer(s, off, spare));
  }

  lemma AddLocatedKeeps<Id>(s: State<Id>, b: Id, at: int, bytes: Bytes)
    requires Core(s) && b in s.bufs && !s.client.Copied?
    requires forall x :: x in s.cache ==> s.bufs[x].offset != s.bufs[b].offset
    requires 0 <= at && at + |bytes| <= s.chunkSize && bytes != []
    ensures Inv(CacheAdd(s, b).(client := Located(b, at, bytes)))
  {
    CacheAddKeeps(s, b);
    ClientKeeps(CacheAdd(s, b), Located(b, at, bytes));
  }

  lemma LocateHitKeeps<Id>(s: State<Id>, pos: int, bytes: Bytes, spare: Id)
    requires Inv(s) && s.client.Idle? && Fits(s, pos, bytes) && spare !in s.bufs
    requires Peek(s.cache, s.bufs, BlockOf(s.chunkSize, pos)).Some?
    ensures Inv(LocateNext(s, pos, bytes, spare))
  {
    var off := BlockOf(s.chunkSize, pos);
    ClientKeeps(s, Located(Peek(s.cache, s.bufs, off).value, pos - off, bytes));
  }

  lemma LocateRevivedKeeps<Id>(s: State<Id>, off: int, at: int, bytes: Bytes)
    requires Inv(s) && s.client.Idle? && off in s.flushing
    requires forall x :: x in s.cache ==> s.bufs[x].offset != off
    requires 0 <= at && at + |bytes| <= s.chunkSize && bytes != []
    ensures Inv(CacheAdd(Revived(s, off), s.flushing[off]).(client := Located(s.flushing[off], at, bytes)))
  {
    ReviveKeeps(s, off);
    AddLocatedKeeps(Revived(s, off), s.flushing[off], at, bytes);
  }

  lemma LocateNewKeeps<Id>(s: State<Id>, off: int, at: int, bytes: Bytes, spare: Id)
    requires Inv(s) && s.client.Idle? && spare !in s.bufs
    requires forall x :: x in s.cache ==> s.bufs[x].offset != off
    requires 0 <= at && at + |bytes| <= s.chunkSize && bytes != []
    ensures Inv(CacheAdd(WithNewBuffer(s, off, spare), spare).(client := Located(spare, at, bytes)))
  {
    NewBufferKeeps(s, off, spare);
    AddLocatedKeeps(WithNewBuffer(s, off, spare), spare, at, bytes);
  }

  lemma LocateKeeps<Id>(s: State<Id>, pos: int, bytes: Bytes, spare: Id)
    requires Inv(s) && s.client.Idle? && Fits(s, pos, bytes) && spare !in s.bufs
    ensures Inv(LocateNext(s, pos, bytes, spare))
  {
    hide BuffersOk, CacheOk, FlushingOk, JobsOk, EntriesCleared;
    if Peek(s.cache, s.bufs, BlockOf(s.chunkSize, pos)).Some? {
      LocateHitKeeps(s, pos, bytes, spare);
    } else {
      var off := BlockOf(s.chunkSize, pos);
      if off in s.flushing {
        LocateRevivedKeeps(s, off, pos - off, bytes);
      } else {
        LocateNewKeeps(s, off, pos - off, bytes, spare);
      }
    }
  }

  lemma CopyKeeps<Id>(s: State<Id>)
    requires Inv(s) && Enabled(s, Copy)
    ensures Inv(CopyNext(s))
  {
    EntriesFrame(s, CopyNext(s));
  }

  lemma LimitKeeps<Id>(s: State<Id>)
    requires Core(s) && s.client.Copied?
    ensures var b := s.client.buf;
      Core(s.(bufs := s.bufs[b := s.bufs[b].(limit := Top(s, b))], client := Idle))
  {
    var b := s.client.buf;
    EntriesFrame(s, s.(bufs := s.bufs[b := s.bufs[b].(limit := Top(s, b))], client := Idle));
  }

  lemma RaiseKeeps<Id>(s: State<Id>)
    requires Inv(s) && s.client.Copied?
    ensures Inv(RaiseNext(s))
  {
    CacheAddKeeps(s, s.client.buf);
    LimitKeeps(CacheAdd(s, s.client.buf));
  }

  lemma SyncSubmitKeeps<Id>(s: State<Id>)
    requires Inv(s) && Enabled(s, SyncSubmit)
    ensures Inv(SyncSubmitNext(s))
  {
    var b := s.client.todo[0];
    WithoutKeepsDistinct(s.cache, s.bufs, b);
    var s1 := s.(cache := Without(s.cache, b) + [b], client := Syncing(s.client.todo[1..]));
    EntriesFrame(s, s1);
    SubmitKeeps(s1, b, true);
  }

  lemma StartKeeps<Id>(s: State<Id>, j: nat)
    requires Inv(s) && Enabled(s, Start(j))
    ensures Inv(StartNext(s, j))
  {
    EntriesFrame(s, StartNext(s, j));
  }

  /** FinishNext step by step: the flushing entry, the server, the buffer's flags, the job. */
  lemma EndKeeps<Id>(s: State<Id>, t: State<Id>, j: nat, job: Job<Id>)
    requires Inv(s) && j < |s.jobs| && s.jobs[j].phase.Holding?
    requires t == s.(flushing := t.flushing, server := t.server, failed := t.failed, jobs := s.jobs[j := job])
    requires job.buf == s.jobs[j].buf && !job.phase.Holding? && (job.phase.Done? || 1 <= job.left <= ATTEMPTS)
    requires t.flushing == s.flushing || t.flushing == s.flushing - {s.bufs[job.buf].offset}
    requires s.failed ==> t.failed
    requires job.phase.Done? && t.flushing == s.flushing ==> t.failed || s.bufs[job.buf].offset !in s.flushing
    ensures Inv(t)
  {
    EntriesFrame(s, t);
  }

  lemma FlagsKeep<Id>(s: State<Id>, b: Id, flushed: bool, flushing: bool, sent: Option<Bytes>)
    requires Inv(s) && b in s.bufs
    ensures Inv(s.(bufs := s.bufs[b := s.bufs[b].(flushed := flushed, flushing := flushing, sent := sent)]))
  {
    EntriesFrame(s, s.(bufs := s.bufs[b := s.bufs[b].(flushed := flushed, flushing := flushing, sent := sent)]));
  }

  lemma FinishKeeps<Id>(s: State<Id>, j: nat, outcome: Outcome)
    requires Inv(s) && Enabled(s, Finish(j, outcome))
    ensures Inv(FinishNext(s, j, outcome))
  {
    var t := FinishNext(s, j, outcome);
    var b := s.jobs[j].buf;
    var s1 := s.(bufs := t.bufs);
    if s.jobs[j].phase.flush && outcome.Sent? {
      FlagsKeep(s, b, true, false, t.bufs[b].sent);
    } else {
      assert s1 == s;
    }
    EndKeeps(s1, t, j, t.jobs[j]);
  }

  lemma StepKeepsInv<Id>(s: State<Id>, step: Step<Id>)
    requires Inv(s) && Enabled(s, step)
    ensures Inv(Apply(s, step))
  {
    match step
    case Locate(pos, bytes, spare) => LocateKeeps(s, pos, bytes, spare);
    case Copy => CopyKeeps(s);
    case Raise => RaiseKeeps(s);
    case SyncBegin => EntriesFrame(s, Apply(s, step));
    case SyncSubmit => SyncSubmitKeeps(s);
    case SyncReturn => EntriesFrame(s, Apply(s, step));
    case SyncAbort => EntriesFrame(s, Apply(s, step));
    case Start(j) => StartKeeps(s, j);
    case Finish(j, outcome) => FinishKeeps(s, j, outcome);
  }

  /** The buffer whose limit is raised is cached still: it only becomes the most recent one. */
  lemma RaiseEffect<Id>(s: State<Id>)
    requires Inv(s) && s.client.Copied?
    ensures var t := RaiseNext(s); var b := s.client.buf;
      && b in s.bufs && t.client.Idle? && t.chunkSize == s.chunkSize && t.server == s.server && t.jobs == s.jobs
      && t.flushing == s.flushing && t.failed == s.failed
      && t.cache != [] && t.cache[|t.cache| - 1] == b && (forall x :: x in t.cache <==> x in s.cache)
      && t.bufs == s.bufs[b := s.bufs[b].(limit := if s.client.end > s.bufs[b].limit then s.client.end
          else s.bufs[b].limit)]
  {
    hide BlockOf, BuffersOk, EntriesCleared, JobsOk, FlushingOk;
  }
}

/**
 * One open file of the dedupe engine as a state machine: the client thread's steps
 * (locate a buffer, copy a piece into it, raise its limit, sync) interleaved with the
 * steps of the pool's workers (start an attempt, finish it).  Buffers are named by an
 * arbitrary type Id; the Engine module uses the buffer objects themselves.
 *
 * A step is as long as the source's locks make it: a file.mu section for Locate, the
 * chunk.mu section for Copy, and for an attempt the two ends of its buffer.mu section.
 */
module FileMachine {
  import opened Bytes

  const ATTEMPTS: nat := 4

  /** `sent` is a history variable: the bytes of this buffer the server last acknowledged. */
  datatype Buf = Buf(offset: int, data: Bytes, limit: int, flushed: bool, flushing: bool, sent: Option<Bytes>)

  datatype Phase = Queued | Holding(flush: bool, lim: int) | Done

  datatype Job<Id> = Job(buf: Id, left: nat, sync: bool, phase: Phase)

  datatype Client<Id> =
    | Idle
    | Located(buf: Id, at: int, bytes: Bytes)
    | Copied(buf: Id, end: int)
    | Syncing(todo: seq<Id>)

  /** `cache` lists the cached buffers from the least to the most recently used. */
  datatype State<Id> = State(
    chunkSize: int,
    bufferSize: int,
    bufs: map<Id, Buf>,
    cache: seq<Id>,
    flushing: map<int, Id>,
    jobs: seq<Job<Id>>,
    failed: bool,
    server: map<int, Bytes>,
    client: Client<Id>)

  /** How a flushing attempt ends; ReplyLost is an error after the server applied the position map. */
  datatype Outcome = Sent | ChunkerFailed | RpcFailed | ReplyLost

  datatype Step<Id> =
    | Locate(pos: int, bytes: Bytes, spare: Id)
    | Copy
    | Raise
    | SyncBegin
    | SyncSubmit
    | SyncReturn
    | SyncAbort
    | Start(job: nat)
    | Finish(job: nat, outcome: Outcome)
  {
    predicate Worker() { Start? || Finish? }
  }

  ghost predicate WellFormed<Id>(s: State<Id>) {
    && s.chunkSize > 0
    && s.bufferSize > 0
    && (forall b :: b in s.cache ==> b in s.bufs)
    && (forall off :: off in s.flushing ==> s.flushing[off] in s.bufs)
    && (forall j :: 0 <= j < |s.jobs| ==> s.jobs[j].buf in s.bufs)
    && (s.client.Located? || s.client.Copied? ==> s.client.buf in s.bufs)
    && (s.client.Syncing? ==> forall b :: b in s.client.todo ==> b in s.bufs)
  }

  function BlockOf(chunkSize: int, pos: int): (off: int)
    requires chunkSize > 0 && pos >= 0
    ensures 0 <= off <= pos < off + chunkSize
  {
    assert pos == chunkSize * (pos / chunkSize) + pos % chunkSize;
    pos / chunkSize * chunkSize
  }

  /** The block of a position is the only multiple of the chunk size that is within one chunk below it. */
  lemma BlockOfUnique(chunkSize: int, pos: int, k: int)
    requires chunkSize > 0 && pos >= 0 && k * chunkSize <= pos < k * chunkSize + chunkSize
    ensures BlockOf(chunkSize, pos) == k * chunkSize
  {
    var q := pos / chunkSize;
    assert BlockOf(chunkSize, pos) == q * chunkSize;
    hide BlockOf;
    MultiplesApart(chunkSize, q, k);
    MultiplesApart(chunkSize, k, q);
  }

  lemma {:induction false} MultiplesApart(chunkSize: int, a: int, b: int)
    requires chunkSize > 0
    ensures a < b ==> a * chunkSize + chunkSize <= b * chunkSize
    decreases b - a
  {
    if a < b {
      assert (a + 1) * chunkSize == a * chunkSize + chunkSize;
      MultiplesApart(chunkSize, a + 1, b);
    }
  }

  /** The cached buffer of the block at `off`: cache.Peek(off). */
  ghost function Peek<Id>(cache: seq<Id>, bufs: map<Id, Buf>, off: int): (r: Option<Id>)
    requires forall b :: b in cache ==> b in bufs
    ensures r.Some? ==> r.value in cache && bufs[r.value].offset == off
    ensures r.None? ==> forall b :: b in cache ==> bufs[b].offset != off
  {
    if cache == [] then None
    else if bufs[cache[0]].offset == off then Some(cache[0])
    else Peek(cache[1..], bufs, off)
  }

  function Without<Id(==)>(cache: seq<Id>, b: Id): (r: seq<Id>)
    ensures b !in r
    ensures forall x :: x in r ==> x in cache
    ensures forall x :: x in cache && x != b ==> x in r
    ensures |r| <= |cache|
    ensures b in cache ==> |r| < |cache|
    ensures b !in cache ==> r == cache
  {
    if cache == [] then []
    else if cache[0] == b then Without(cache[1..], b)
    else [cache[0]] + Without(cache[1..], b)
  }

  // ----- The client thread -----

  /** The eviction callback: the buffer is listed as flushing and a job for it is queued. */
  ghost function Submit<Id>(s: State<Id>, b: Id, sync: bool): State<Id>
    requires b in s.bufs
  {
    s.(flushing := s.flushing[s.bufs[b].offset := b],
       bufs := s.bufs[b := s.bufs[b].(flushing := true)],
       jobs := s.jobs + [Job(b, ATTEMPTS, sync, Queued)])
  }

  /**
   * cache.Add: the buffer becomes the most recent one, and the least recent one is evicted when the cache is over its
   * size.
   */
  ghost function CacheAdd<Id>(s: State<Id>, b: Id): State<Id>
    requires WellFormed(s) && b in s.bufs
  {
    if b in s.cache then s.(cache := Without(s.cache, b) + [b])
    else
      var cache := s.cache + [b];
      if |cache| <= s.bufferSize then s.(cache := cache)
      else Submit(s.(cache := cache[1..]), cache[0], false)
  }

  ghost predicate Fits<Id>(s: State<Id>, pos: int, bytes: Bytes) {
    && s.chunkSize > 0 && pos >= 0 && bytes != []
    && pos - BlockOf(s.chunkSize, pos) + |bytes| <= s.chunkSize
  }

  /** A buffer found in flushingBuffers leaves that list, and both its flags are cleared. */
  ghost function Revived<Id>(s: State<Id>, off: int): State<Id>
    requires WellFormed(s) && off in s.flushing
  {
    var b := s.flushing[off];
    s.(flushing := s.flushing - {off}, bufs := s.bufs[b := s.bufs[b].(flushing := false, flushed := false)])
  }

  ghost function WithNewBuffer<Id>(s: State<Id>, off: int, spare: Id): State<Id>
    requires s.chunkSize > 0
  {
    s.(bufs := s.bufs[spare := Buf(off, Zeros(s.chunkSize), 0, false, false, None)])
  }

  /**
   * The buffer that a block's write goes to, and the file once it is in the cache: a cached buffer, one that
   * waits to be flushed and is taken back, or else `spare`, which is made.
   */
  ghost function Taken<Id>(s: State<Id>, off: int, spare: Id): (State<Id>, Id)
    requires WellFormed(s) && spare !in s.bufs
  {
    match Peek(s.cache, s.bufs, off)
    case Some(b) => (s, b)
    case None =>
      if off in s.flushing then (CacheAdd(Revived(s, off), s.flushing[off]), s.flushing[off])
      else (CacheAdd(WithNewBuffer(s, off, spare), spare), spare)
  }

  /** The file.mu section of Write: the client holds on to the buffer for the piece it will copy. */
  ghost function LocateNext<Id>(s: State<Id>, pos: int, bytes: Bytes, spare: Id): State<Id>
    requires WellFormed(s) && s.client.Idle? && Fits(s, pos, bytes) && spare !in s.bufs
  {
    var off := BlockOf(s.chunkSize, pos);
    var (t, b) := Taken(s, off, spare);
    t.(client := Located(b, pos - off, bytes))
  }

  ghost predicate Held<Id>(s: State<Id>, b: Id) {
    exists j :: 0 <= j < |s.jobs| && s.jobs[j].buf == b && s.jobs[j].phase.Holding?
  }

  ghost predicate CopyEnabled<Id>(s: State<Id>)
    requires WellFormed(s)
  {
    && s.client.Located? && !Held(s, s.client.buf)
    && 0 <= s.client.at && s.client.at + |s.client.bytes| <= |s.bufs[s.client.buf].data|
  }

  /** The chunk.mu section of Write. */
  ghost function CopyNext<Id>(s: State<Id>): State<Id>
    requires WellFormed(s) && s.client.Located? && CopyEnabled(s)
  {
    var Located(b, at, bytes) := s.client;
    var buf := s.bufs[b];
    s.(bufs := s.bufs[b := buf.(data := Splice(buf.data, at, bytes), flushed := false)],
       client := Copied(b, at + |bytes|))
  }

  ghost function Raised<Id>(s: State<Id>, b: Id, end: int): State<Id>
    requires WellFormed(s) && b in s.bufs
  {
    var t := CacheAdd(s, b);
    var buf := t.bufs[b];
    t.(bufs := t.bufs[b := buf.(limit := if end > buf.limit then end else buf.limit)])
  }

  /**
   * The rest of one turn of Write's loop: the buffer is added to the cache again, and its limit is raised outside
   * chunk.mu.
   */
  ghost function RaiseNext<Id>(s: State<Id>): State<Id>
    requires WellFormed(s) && s.client.Copied?
  {
    Raised(s, s.client.buf, s.client.end).(client := Idle)
  }

  /** One turn of Sync's loop over the cached keys. */
  ghost function SyncSubmitNext<Id>(s: State<Id>): State<Id>
    requires WellFormed(s) && s.client.Syncing? && s.client.todo != []
  {
    var b := s.client.todo[0];
    Submit(s.(cache := Without(s.cache, b) + [b], client := Syncing(s.client.todo[1..])), b, true)
  }

  /** wg.Wait has returned: no job that Sync submitted is outstanding. */
  ghost predicate SyncJobsDone<Id>(s: State<Id>) {
    forall j :: 0 <= j < |s.jobs| && s.jobs[j].sync ==> s.jobs[j].phase.Done?
  }

  // ----- The workers -----

  ghost predicate Outstanding<Id>(s: State<Id>, j: int) {
    0 <= j < |s.jobs| && !s.jobs[j].phase.Done?
  }

  ghost function End<Id>(s: State<Id>, j: nat): State<Id>
    requires j < |s.jobs|
  {
    s.(jobs := s.jobs[j := s.jobs[j].(left := 0, phase := Done)])
  }

  /** An attempt takes buffer.mu and tests the flags; after a file error the job gives up instead. */
  ghost function StartNext<Id>(s: State<Id>, j: nat): State<Id>
    requires j < |s.jobs| && s.jobs[j].buf in s.bufs
  {
    var buf := s.bufs[s.jobs[j].buf];
    if s.failed then End(s, j)
    else s.(jobs := s.jobs[j := s.jobs[j].(phase := Holding(!buf.flushed && buf.flushing, buf.limit))])
  }

  ghost predicate FinishEnabled<Id>(s: State<Id>, j: nat, outcome: Outcome) {
    && j < |s.jobs| && s.jobs[j].phase.Holding? && s.jobs[j].buf in s.bufs
    && (!s.jobs[j].phase.flush ==> outcome.Sent?)
    && 0 <= s.jobs[j].phase.lim <= |s.bufs[s.jobs[j].buf].data|
  }

  /** An attempt's effect on the server, on the flags and on the flushing list. */
  ghost function Attempted<Id>(s: State<Id>, b: Id, flush: bool, lim: int, outcome: Outcome): State<Id>
    requires b in s.bufs && 0 <= lim <= |s.bufs[b].data|
  {
    var buf := s.bufs[b];
    var sent := buf.data[..lim];
    s.(flushing := if outcome.ChunkerFailed? then s.flushing else s.flushing - {buf.offset},
       server := if flush && (outcome.Sent? || outcome.ReplyLost?) then s.server[buf.offset := sent] else s.server,
       bufs := if flush && outcome.Sent?
         then s.bufs[b := buf.(flushing := false, flushed := true, sent := Some(sent))] else s.bufs)
  }

  /** The attempt's end: buffer.mu is released; after a failure the job tries again, or the file has an error. */
  ghost function FinishNext<Id>(s: State<Id>, j: nat, outcome: Outcome): State<Id>
    requires FinishEnabled(s, j, outcome)
  {
    var job := s.jobs[j];
    var t := Attempted(s, job.buf, job.phase.flush, job.phase.lim, outcome);
    if outcome.Sent? then End(t, j)
    else if job.left <= 1 then End(t.(failed := true), j)
    else t.(jobs := s.jobs[j := job.(left := job.left - 1, phase := Queued)])
  }

  // ----- Steps and runs -----

  ghost predicate Enabled<Id>(s: State<Id>, step: Step<Id>) {
    WellFormed(s) &&
    match step
    case Locate(pos, bytes, spare) => s.client.Idle? && Fits(s, pos, bytes) && spare !in s.bufs
    case Copy => CopyEnabled(s)
    case Raise => s.client.Copied?
    case SyncBegin => s.client.Idle? && !s.failed
    case SyncSubmit => s.client.Syncing? && s.client.todo != []
    case SyncReturn => s.client == Syncing([]) && SyncJobsDone(s) && s.flushing == map[] && !s.failed
    case SyncAbort => s.client == Syncing([]) && SyncJobsDone(s)
    case Start(j) => j < |s.jobs| && s.jobs[j].phase.Queued? && !Held(s, s.jobs[j].buf)
    case Finish(j, outcome) => FinishEnabled(s, j, outcome)
  }

  ghost function Apply<Id>(s: State<Id>, step: Step<Id>): State<Id>
    requires Enabled(s, step)
  {
    match step
    case Locate(pos, bytes, spare) => LocateNext(s, pos, bytes, spare)
    case Copy => CopyNext(s)
    case Raise => RaiseNext(s)
    case SyncBegin => s.(client := Syncing(s.cache))
    case SyncSubmit => SyncSubmitNext(s)
    case SyncReturn => s.(client := Idle)
    case SyncAbort => s.(client := Idle)
    case Start(j) => StartNext(s, j)
    case Finish(j, outcome) => FinishNext(s, j, outcome)
  }

  lemma LocateIs<Id>(s: State<Id>, step: Step<Id>)
    requires Enabled(s, step) && step.Locate?
    ensures WellFormed(s) && step.pos >= 0 && step.spare !in s.bufs
    ensures var off := BlockOf(s.chunkSize, step.pos); var (t, b) := Taken(s, off, step.spare);
      Apply(s, step) == t.(client := Located(b, step.pos - off, step.bytes))
  {
    hide BlockOf, Taken, WellFormed;
  }

  ghost predicate Runs<Id>(s: State<Id>, steps: seq<Step<Id>>)
    decreases |steps|
  {
    steps == [] || (Enabled(s, steps[0]) && Runs(Apply(s, steps[0]), steps[1..]))
  }

  ghost function Exec<Id>(s: State<Id>, steps: seq<Step<Id>>): State<Id>
    requires Runs(s, steps)
    decreases |steps|
  {
    if steps == [] then s else Exec(Apply(s, steps[0]), steps[1..])
  }

  /** A file that was just opened, on a server that holds `server` for it. */
  function Opened<Id>(chunkSize: int, bufferSize: int, server: map<int, Bytes>): State<Id> {
    State(chunkSize, bufferSize, map[], [], map[], [], false, server, Idle)
  }

  lemma {:induction false} RunsAppend<Id>(s: State<Id>, a: seq<Step<Id>>, b: seq<Step<Id>>)
    requires Runs(s, a) && Runs(Exec(s, a), b)
    ensures Runs(s, a + b) && Exec(s, a + b) == Exec(Exec(s, a), b)
    decreases |a|
  {
    hide Enabled, Apply;
    if a == [] {
      assert a + b == b;
    } else {
      RunsAppend(Apply(s, a[0]), a[1..], b);
      assert (a + b)[0] == a[0] && (a + b)[1..] == a[1..] + b;
    }
  }

  lemma {:induction false} RunsSplit<Id>(s: State<Id>, a: seq<Step<Id>>, b: seq<Step<Id>>)
    requires Runs(s, a + b)
    ensures Runs(s, a) && Runs(Exec(s, a), b) && Exec(s, a + b) == Exec(Exec(s, a), b)
    decreases |a|
  {
    if a == [] {
      assert a + b == b;
    } else {
      assert (a + b)[0] == a[0] && (a + b)[1..] == a[1..] + b;
      RunsSplit(Apply(s, a[0]), a[1..], b);
    }
  }

  lemma RunsOne<Id>(s: State<Id>, a: Step<Id>)
    requires Enabled(s, a)
    ensures Runs(s, [a]) && Exec(s, [a]) == Apply(s, a)
  {
    hide Enabled, Apply;
    var t := Apply(s, a);
    assert [a][1..] == [];
    assert Runs(t, []) && Exec(t, []) == t;
  }

  lemma RunsTwo<Id>(s: State<Id>, a: Step<Id>, b: Step<Id>)
    requires Enabled(s, a) && Enabled(Apply(s, a), b)
    ensures Runs(s, [a, b]) && Exec(s, [a, b]) == Apply(Apply(s, a), b)
  {
    hide Enabled, Apply;
    RunsOne(s, a);
    RunsOne(Apply(s, a), b);
    RunsAppend(s, [a], [b]);
    assert [a] + [b] == [a, b];
  }
}

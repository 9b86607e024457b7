/**
 * One open file of the engine as the source has it: buffers with byte arrays and flags, a recency
 * list, the map of flushing buffers, and the pool's jobs, updated in place.  Every method below is
 * proved to take exactly the steps of FileMachine that it records in `trace`; between two of a
 * client's steps the workers may take any number of theirs.
 */
module Engine {
  import opened Bytes
  import opened FileMachine
  import opened FileInvariants
  import opened Storage
  import opened WritePieces
  import opened StepForms
  import opened Histories
  import Fingers
  import Flush
  import Quiescence

  class DedupeBuffer {
    const offset: int
    const buffer: array<byte>
    var limit: int
    var flushed: bool
    var flushing: bool
    var fileHandle: int
    ghost var sent: Option<Bytes>

    constructor (offset: int, chunkSize: nat)
      ensures fresh(buffer) && Value() == Buf(offset, Zeros(chunkSize), 0, false, false, None)
    {
      this.offset := offset;
      buffer := new byte[chunkSize](_ => 0);
      limit, flushed, flushing, fileHandle, sent := 0, false, false, 0, None;
      new;
      assert buffer[..] == Zeros(chunkSize);
    }

    ghost function Value(): Buf
      reads this, buffer
    {
      Buf(offset, buffer[..], limit, flushed, flushing, sent)
    }
  }

  /** Panic stands for Go's slice bounds panic. */
  datatype WriteFailure = FileError(error: Error) | Panic

  class DedupeFile {
    const fileName: string
    const pVolumeID: int
    const chunkSize: int
    const bufferSize: int
    const deduper: Flush.Deduper
    const chunker: Bytes -> seq<Flush.Next>
    var cache: seq<DedupeBuffer>
    var flushingBuffers: map<int, DedupeBuffer>
    var jobs: seq<Job<DedupeBuffer?>>
    var err: Option<Error>
    var fileHandles: set<int>
    ghost var bufs: set<DedupeBuffer>
    ghost var state: State<DedupeBuffer?>
    ghost var trace: seq<Step<DedupeBuffer?>>
    ghost const stored: map<int, Bytes>

    constructor (fileName: string, pVolumeID: int, chunkSize: int, bufferSize: int,
                 deduper: Flush.Deduper, chunker: Bytes -> seq<Flush.Next>)
      requires 0 < chunkSize < TWO_TO_THE_31 && bufferSize > 0
      requires Lossless(deduper.codec) && CollisionFree(deduper.codec) && Honest(deduper.codec, deduper.remote.net)
      requires StoreOk(deduper.codec, deduper.remote.state)
      requires forall x :: Flush.ChunkerOk(chunker(x), 0, |x|)
      ensures Valid() && trace == []
          && state == Start() == Opened(chunkSize, bufferSize, Blocks(deduper.remote.state, File()))
      ensures bufs == {} && fileHandles == {} && err == None && this.deduper == deduper && this.chunkSize == chunkSize
      ensures this.fileName == fileName && this.pVolumeID == pVolumeID
      ensures this.bufferSize == bufferSize && this.chunker == chunker
    {
      this.fileName, this.pVolumeID := fileName, pVolumeID;
      this.chunkSize, this.bufferSize, this.deduper, this.chunker := chunkSize, bufferSize, deduper, chunker;
      cache, flushingBuffers, jobs, err, fileHandles := [], map[], [], None, {};
      bufs, trace := {}, [];
      state := Opened(chunkSize, bufferSize, Blocks(deduper.remote.state, FileKey(fileName, pVolumeID)));
      stored := Blocks(deduper.remote.state, FileKey(fileName, pVolumeID));
    }

    /** The file of the service that this is an open file of. */
    ghost function File(): FileKey {
      FileKey(fileName, pVolumeID)
    }

    /** The service gave the handle out for this file. */
    ghost predicate Owns(fileHandle: int) {
      deduper.remote.net.owner(fileHandle, pVolumeID) == File()
    }

    /**
     * The buffers have a handle of this file from their first write on; until then no job has them, and the
     * client is about to write to them.
     */
    ghost predicate Handled(client: Client<DedupeBuffer?>)
      reads this`jobs, this`bufs, bufs`fileHandle
    {
      forall b :: b in bufs ==>
        Owns(b.fileHandle)
        || (client.Located? && client.buf == b && forall j :: 0 <= j < |jobs| ==> jobs[j].buf != b)
    }

    ghost function Arrays(): set<object>
      reads this`bufs
    {
      set b: DedupeBuffer | b in bufs :: b.buffer
    }

    /** The objects are in the machine's state `state`. */
    ghost predicate Linked()
      reads this`cache, this`flushingBuffers, this`jobs, this`err, this`state, this`bufs, bufs, Arrays()
    {
      && (forall b, c :: b in bufs && c in bufs && b != c ==> b.buffer != c.buffer)
      && state.bufs.Keys == bufs
      && (forall b :: b in bufs ==> b.Value() == state.bufs[b])
      && cache == state.cache && flushingBuffers == state.flushing && jobs == state.jobs
      && err.Some? == state.failed && chunkSize == state.chunkSize && bufferSize == state.bufferSize
    }

    /** The libraries and the service keep their promises. */
    ghost predicate Libraries() {
      && Lossless(deduper.codec) && CollisionFree(deduper.codec) && Honest(deduper.codec, deduper.remote.net)
      && (forall x :: Flush.ChunkerOk(chunker(x), 0, |x|))
      && chunkSize < TWO_TO_THE_31
    }

    /** And the server is what the machine takes it for. */
    ghost predicate Environment()
      reads this`state, deduper.remote
    {
      && Blocks(deduper.remote.state, File()) == state.server
      && StoreOk(deduper.codec, deduper.remote.state) && Libraries()
    }

    /** The file as it was opened, on a server that held `stored` for it. */
    ghost function Start(): State<DedupeBuffer?> {
      Opened(chunkSize, bufferSize, stored)
    }

    /** Where the file is, it came by the steps in `trace`. */
    ghost predicate Reached()
      reads this`state, this`trace
    {
      Inv(state) && Runs(Start(), trace) && Exec(Start(), trace) == state && (Answering() ==> NeverFailed(trace))
    }

    /** The server answers every call, and the chunker and the marshaller never fail. */
    ghost predicate Answering() {
      && Answers(deduper.codec, deduper.remote.net)
      && (deduper.compress ==> forall m :: deduper.codec.marshal(m).Some?)
      && forall x :: !Flush.ChunkerFails(chunker(x))
    }

    ghost predicate Good()
      reads this`cache, this`flushingBuffers, this`jobs, this`err, this`state, this`bufs, bufs, Arrays(), this`trace
    {
      Linked() && Reached() && Handled(state.client)
    }

    ghost predicate Valid()
      reads this`cache, this`flushingBuffers, this`jobs, this`err, this`state, this`bufs, bufs, Arrays(), this`trace,
          deduper.remote
    {
      Good() && Environment()
    }

    /** The file's own part of what its only client thread needs to act on it. */
    ghost predicate Settled()
      reads this`cache, this`flushingBuffers, this`jobs, this`err, this`state, this`bufs, bufs, Arrays(), this`trace
    {
      Good() && state.client.Idle? && Libraries()
    }

    /** The server's part: it is in order, and holds for this file what the file takes it to hold. */
    ghost predicate Matches(server: ServerState)
      reads this`state
    {
      StoreOk(deduper.codec, server) && Blocks(server, File()) == state.server
    }

    /** The file can be acted on. */
    ghost predicate Usable()
      reads this`cache, this`flushingBuffers, this`jobs, this`err, this`state, this`bufs, bufs, Arrays(), this`trace,
          deduper.remote
    {
      Settled() && Matches(deduper.remote.state)
    }

    lemma UsableIsValid()
      ensures Usable() <==> Valid() && state.client.Idle?
    {
      hide Good, Lossless, CollisionFree, Honest, StoreOk, Blocks, Flush.ChunkerOk;
    }

    lemma ServerInOrder(server: ServerState)
      requires Matches(server)
      ensures StoreOk(deduper.codec, server)
    {
    }

    /** Changes to the server that keep this file's blocks leave the file usable. */
    lemma StillMatches(was: ServerState, now: ServerState, file: FileKey)
      requires Matches(was) && StoreOk(deduper.codec, now) && OthersKept(was, now, file) && file != File()
      ensures Matches(now)
    {
    }

    method DropHandle(fileHandle: int)
      requires Usable()
      modifies this`fileHandles
      ensures Usable() && fileHandles == old(fileHandles) - {fileHandle}
    {
      hide Settled, Matches;
      assert this !in Arrays();
      fileHandles := fileHandles - {fileHandle};
    }

    /** The history: with the client at `client`, one more step of the machine was taken. */
    ghost method Note(before: State<DedupeBuffer?>, client: Client<DedupeBuffer?>, step: Step<DedupeBuffer?>)
      requires Linked() && Handled(client) && Inv(before) && Runs(Start(), trace) && Exec(Start(), trace) == before
      requires Enabled(before, step) && state.(client := client) == Apply(before, step)
      requires Answering() ==> NeverFailed(trace) && (step.Finish? ==> step.outcome.Sent?)
      modifies this`state, this`trace
      ensures Good() && trace == old(trace) + [step] && state == old(state).(client := client)
    {
      hide Inv, Enabled, Apply, Runs, Exec, Answering, NeverFailed;
      if Answering() { NeverFailedMore(trace, step); }
      StepKeepsInv(before, step);
      OneMore(Start(), trace, step);
      state := state.(client := client);
      trace := trace + [step];
    }

    /** The pool's Submit together with what precedes it in onEvicted and in Sync. */
    method Submit(b: DedupeBuffer, sync: bool)
      requires Linked() && b in bufs
      modifies this`flushingBuffers, this`jobs, this`state, b`flushing
      ensures Linked() && state == FileMachine.Submit(old(state), b, sync)
    {
      flushingBuffers := flushingBuffers[b.offset := b];
      b.flushing := true;
      jobs := jobs + [Job(b, ATTEMPTS, sync, Queued)];
      state := FileMachine.Submit(state, b, sync);
    }

    /** cache.Peek */
    method Peek(off: int) returns (b: DedupeBuffer?)
      requires Linked() && WellFormed(state)
      ensures FileMachine.Peek(state.cache, state.bufs, off) == if b == null then None else Some(b)
    {
      for i := 0 to |cache|
        invariant FileMachine.Peek(state.cache[i..], state.bufs, off) == FileMachine.Peek(state.cache, state.bufs,
            off)
      {
        assert state.cache[i..][0] == cache[i] && state.cache[i..][1..] == state.cache[i + 1..];
        assert cache[i].Value() == state.bufs[cache[i]];
        if cache[i].offset == off {
          return cache[i];
        }
      }
      b := null;
    }

    /** cache.Add: keyed by the block offset; over the size limit the oldest entry goes to onEvicted. */
    method CacheAdd(b: DedupeBuffer)
      requires Linked() && WellFormed(state) && b in bufs
      requires forall c :: c in cache && c.offset == b.offset ==> c == b
      modifies this`cache, this`flushingBuffers, this`jobs, this`state, bufs`flushing
      ensures Linked() && state == FileMachine.CacheAdd(old(state), b)
    {
      var same := Peek(b.offset);
      assert same != null ==> same == b && b in state.cache;
      assert same == null ==> b !in state.cache;
      hide FileMachine.Peek;
      if same != null {
        cache := MoveToBack(b);
        state := state.(cache := Without(state.cache, b) + [b]);
      } else {
        AddToBack(b);
      }
    }

    method MoveToBack(b: DedupeBuffer) returns (moved: seq<DedupeBuffer>)
      ensures moved == Without<DedupeBuffer?>(cache, b) + [b]
    {
      var rest := Without<DedupeBuffer?>(cache, b);
      assert forall i :: 0 <= i < |rest| ==> rest[i] in cache;
      moved := rest + [b];
    }

    method AddToBack(b: DedupeBuffer)
      requires Linked() && WellFormed(state) && b in bufs && b !in cache
      modifies this`cache, this`flushingBuffers, this`jobs, this`state, bufs`flushing
      ensures Linked() && state == FileMachine.CacheAdd(old(state), b)
    {
      cache := cache + [b];
      state := state.(cache := state.cache + [b]);
      if |cache| > bufferSize {
        var oldest := cache[0];
        cache := cache[1..];
        state := state.(cache := state.cache[1..]);
        Submit(oldest, false);
      }
    }

    /** getOffset; Go truncates, which is the floor here because positions are not negative. */
    function GetOffset(position: int): int
      requires chunkSize > 0 && position >= 0
      ensures GetOffset(position) == BlockOf(chunkSize, position)
    {
      position / chunkSize * chunkSize
    }

    /** A buffer that waits for its job is taken back from it. */
    method Revive(fpos: int, b: DedupeBuffer)
      requires Linked() && WellFormed(state) && fpos in flushingBuffers && b == flushingBuffers[fpos]
      modifies this`flushingBuffers, this`state, b`flushing, b`flushed
      ensures Linked() && state == Revived(old(state), fpos)
    {
      flushingBuffers := flushingBuffers - {fpos};
      b.flushing := false;
      b.flushed := false;
      state := Revived(state, fpos);
    }

    method NewBuffer(fpos: int) returns (b: DedupeBuffer)
      requires Linked() && chunkSize > 0
      modifies this`bufs, this`state
      ensures fresh(b) && fresh(b.buffer) && bufs == old(bufs) + {b}
      ensures Linked() && state == WithNewBuffer(old(state), fpos, b)
    {
      b := new DedupeBuffer(fpos, chunkSize);
      bufs := bufs + {b};
      state := WithNewBuffer(state, fpos, b);
    }

    /** What Write does under its first file.mu section. */
    method TakeBuffer(fpos: int) returns (chunk: DedupeBuffer, ghost spare: DedupeBuffer?)
      requires Linked() && Inv(state) && state.client.Idle?
      modifies this`cache, this`flushingBuffers, this`jobs, this`state, this`bufs, bufs`flushing, bufs`flushed
      ensures Linked() && chunk in bufs && old(bufs) <= bufs && jobs == state.jobs
      ensures forall b :: b in bufs && b !in old(bufs) ==> fresh(b) && fresh(b.buffer)
      ensures spare !in old(bufs) && Taken(old(state), fpos, spare) == (state, chunk)
      ensures chunk in old(bufs) || bufs == old(bufs) + {chunk}
    {
      assert WellFormed(state);
      hide FileMachine.CacheAdd, Revived, WithNewBuffer, FileMachine.Peek, Inv;
      var val := Peek(fpos);
      if val != null {
        chunk, spare := val, null;
      } else if fpos in flushingBuffers {
        chunk, spare := flushingBuffers[fpos], null;
        TakeBack(fpos, chunk);
      } else {
        chunk := TakeNew(fpos);
        spare := chunk;
      }
    }

    /** A cache miss on a block that waits to be flushed. */
    method TakeBack(fpos: int, b: DedupeBuffer)
      requires Linked() && Inv(state) && FileMachine.Peek(state.cache, state.bufs, fpos).None?
      requires fpos in flushingBuffers && b == flushingBuffers[fpos]
      modifies this`cache, this`flushingBuffers, this`jobs, this`state, bufs`flushing, bufs`flushed
      ensures Linked() && state == FileMachine.CacheAdd(Revived(old(state), fpos), b)
    {
      Revive(fpos, b);
      assert WellFormed(state) && state.bufs[b].offset == fpos;
      CacheAdd(b);
    }

    /** A cache miss on any other block. */
    method TakeNew(fpos: int) returns (b: DedupeBuffer)
      requires Linked() && Inv(state) && FileMachine.Peek(state.cache, state.bufs, fpos).None?
      modifies this`cache, this`flushingBuffers, this`jobs, this`state, this`bufs, bufs`flushing
      ensures fresh(b) && fresh(b.buffer) && bufs == old(bufs) + {b}
      ensures Linked() && state == FileMachine.CacheAdd(WithNewBuffer(old(state), fpos, b), b)
    {
      b := NewBuffer(fpos);
      assert WellFormed(state) && state.bufs[b].offset == fpos;
      CacheAdd(b);
    }

    /** No job has a buffer that was just made. */
    method TakeUnqueued(fpos: int) returns (chunk: DedupeBuffer, ghost spare: DedupeBuffer?)
      requires Linked() && Inv(state) && state.client.Idle?
      modifies this`cache, this`flushingBuffers, this`jobs, this`state, this`bufs, bufs`flushing, bufs`flushed
      ensures Linked() && chunk in bufs && old(bufs) <= bufs <= old(bufs) + {chunk}
      ensures forall b :: b in bufs && b !in old(bufs) ==> fresh(b) && fresh(b.buffer)
      ensures spare !in old(bufs) && Taken(old(state), fpos, spare) == (state, chunk)
      ensures forall j :: 0 <= j < |jobs| ==> jobs[j].buf in old(bufs)
    {
      ghost var before := state;
      assert WellFormed(before) && before.bufs.Keys == bufs;
      hide Inv, Taken, WellFormed, Linked;
      chunk, spare := TakeBuffer(fpos);
      TakenJobs(before, fpos, spare);
      assert Taken(before, fpos, spare).0.jobs == jobs;
    }

    /** The client is about to write to the buffer, so the handles are in order. */
    method TakeFor(fpos: int, ghost at: int, ghost bytes: Bytes)
        returns (chunk: DedupeBuffer, ghost spare: DedupeBuffer?)
      requires Linked() && Inv(state) && state.client.Idle? && Handled(state.client)
      modifies this`cache, this`flushingBuffers, this`jobs, this`state, this`bufs, bufs`flushing, bufs`flushed
      ensures Linked() && chunk in bufs && old(bufs) <= bufs
      ensures forall b :: b in bufs && b !in old(bufs) ==> fresh(b) && fresh(b.buffer)
      ensures spare !in old(bufs) && Taken(old(state), fpos, spare) == (state, chunk)
      ensures Handled(Client<DedupeBuffer?>.Located(chunk, at, bytes))
    {
      hide Taken, Inv, Linked;
      chunk, spare := TakeUnqueued(fpos);
      assert forall b :: b in old(bufs) ==> Owns(b.fileHandle);
    }

    /** The same as a step of the machine: the client holds on to the buffer for the piece it will copy. */
    method FindBuffer(pos: int, ghost bytes: Bytes) returns (chunk: DedupeBuffer, ghost spare: DedupeBuffer?)
      requires Good() && state.client.Idle? && Fits(state, pos, bytes)
      modifies this`cache, this`flushingBuffers, this`jobs, this`state, this`bufs, this`trace, bufs`flushing,
          bufs`flushed
      ensures Good() && state.server == old(state).server && trace == old(trace) + [Locate(pos, bytes, spare)]
      ensures old(bufs) <= bufs
      ensures forall b :: b in bufs && b !in old(bufs) ==> fresh(b) && fresh(b.buffer)
      ensures state.client == Client<DedupeBuffer?>.Located(chunk, pos - BlockOf(chunkSize, pos), bytes)
          && chunk in bufs
    {
      ghost var before := state;
      var fpos := GetOffset(pos);
      chunk, spare := TakeFor(fpos, pos - fpos, bytes);
      LocateIsTaken(before, pos, bytes, spare);
      hide BlockOf, Fits, Taken, Inv, Runs, Exec, Enabled, Apply, WellFormed, Handled;
      Note(before, Client<DedupeBuffer?>.Located(chunk, pos - fpos, bytes), Locate(pos, bytes, spare));
    }

    method FillBuffer(chunk: DedupeBuffer, at: int, piece: Bytes, fileHandle: int)
      requires Linked() && chunk in bufs && 0 <= at && at + |piece| <= chunk.buffer.Length
      modifies this`state, chunk`flushed, chunk`fileHandle, chunk.buffer
      ensures Linked() && |old(state).bufs[chunk].data| == chunk.buffer.Length
      ensures var buf := old(state).bufs[chunk];
        state == old(state).(bufs := old(state).bufs[chunk := buf.(data := Splice(buf.data, at, piece),
            flushed := false)])
      ensures chunk.fileHandle == fileHandle
    {
      assert chunk.Value() == state.bufs[chunk];
      chunk.fileHandle := fileHandle;
      CopyBytes(chunk.buffer, at, piece);
      chunk.flushed := false;
      state := state.(bufs := state.bufs[chunk := chunk.Value()]);
    }

    method RaiseLimit(chunk: DedupeBuffer, end: int)
      requires Linked() && chunk in bufs
      modifies this`state, chunk`limit
      ensures Linked()
      ensures var buf := old(state).bufs[chunk];
        state == old(state).(bufs := old(state).bufs[chunk := buf.(limit := if end > buf.limit then end
            else buf.limit)])
    {
      assert chunk.Value() == state.bufs[chunk];
      if end > chunk.limit {
        chunk.limit := end;
      }
      state := state.(bufs := state.bufs[chunk := chunk.Value()]);
    }

    method AddAndRaise(chunk: DedupeBuffer, end: int)
      requires Linked() && WellFormed(state) && chunk in bufs
      requires forall c :: c in state.cache && state.bufs[c].offset == state.bufs[chunk].offset ==> c == chunk
      modifies this`cache, this`flushingBuffers, this`jobs, this`state, bufs`flushing, chunk`limit
      ensures Linked() && state == Raised(old(state), chunk, end)
    {
      assert forall c :: c in bufs ==> c.Value() == state.bufs[c];
      hide FileMachine.CacheAdd;
      CacheAdd(chunk);
      RaiseLimit(chunk, end);
    }

    /** Write's chunk.mu section: the piece is copied and the buffer is dirty. */
    method CopyPiece(chunk: DedupeBuffer, at: int, piece: Bytes, fileHandle: int)
      requires Owns(fileHandle)
      requires Good() && state.client == Client<DedupeBuffer?>.Located(chunk, at, piece) && !Held(state, chunk)
      modifies this`state, this`trace, chunk`flushed, chunk`fileHandle, chunk.buffer
      ensures Good() && state.server == old(state).server && trace == old(trace) + [Copy]
      ensures state.client == Client<DedupeBuffer?>.Copied(chunk, at + |piece|) && chunk.fileHandle == fileHandle
    {
      ghost var before := state;
      CopyStep(before, chunk, at, piece);
      assert chunk.Value() == before.bufs[chunk];
      hide Inv, Runs, Exec, Held, WellFormed, Apply, Enabled;
      FillBuffer(chunk, at, piece, fileHandle);
      Note(before, Client<DedupeBuffer?>.Copied(chunk, at + |piece|), Copy);
    }

    /** Write's second file.mu section, and the limit, which is raised after it. */
    method AddAgain(chunk: DedupeBuffer, end: int)
      requires Good() && state.client == Client<DedupeBuffer?>.Copied(chunk, end)
      modifies this`cache, this`flushingBuffers, this`jobs, this`state, this`trace, bufs`flushing, chunk`limit
      ensures Good() && state.server == old(state).server && trace == old(trace) + [Raise]
      ensures state.client == Client<DedupeBuffer?>.Idle
    {
      ghost var before := state;
      RaiseStep(before, chunk, end);
      hide Inv, Runs, Exec, WellFormed, Apply, Enabled, Raised;
      AddAndRaise(chunk, end);
      Note(before, Client<DedupeBuffer?>.Idle, Raise);
    }

    // ----- The workers -----

    method TestFlags(j: nat)
      requires Linked() && j < |jobs| && state.jobs[j].buf in state.bufs
      modifies this`jobs, this`state
      ensures Linked() && state == StartNext(old(state), j)
    {
      var b: DedupeBuffer := jobs[j].buf;
      assert b.Value() == state.bufs[b];
      if err.Some? {
        jobs := jobs[j := jobs[j].(left := 0, phase := Done)];
      } else {
        jobs := jobs[j := jobs[j].(phase := Holding(!b.flushed && b.flushing, b.limit))];
      }
      state := state.(jobs := jobs);
    }

    /** An attempt begins: under buffer.mu the flags are tested; after a file error the job gives up. */
    method StartAttempt(j: nat)
      requires Good() && j < |jobs| && jobs[j].phase.Queued? && !Held(state, jobs[j].buf)
      modifies this`jobs, this`state, this`trace
      ensures Good() && state.server == old(state).server && state.client == old(state).client
      ensures trace == old(trace) + [Step<DedupeBuffer?>.Start(j)]
          && Quiescence.Work(jobs) < Quiescence.Work(old(jobs))
      ensures OnlyJob(old(jobs), jobs, j)
    {
      ghost var before := state;
      StartStep(before, j);
      Quiescence.WorkerStepLowersWork(before, Step<DedupeBuffer?>.Start(j));
      hide Inv, Runs, Exec, WellFormed, Apply, Enabled, StartNext, Quiescence.Work;
      TestFlags(j);
      Note(before, state.client, Step<DedupeBuffer?>.Start(j));
    }

    /** There are `lim` bytes to send, and the chunker can cut them. */
    ghost predicate CanSend(b: DedupeBuffer?, lim: int)
      reads if b == null then {} else {b, b.buffer}
    {
      b != null && 0 <= lim <= b.buffer.Length && Flush.ChunkerOk(chunker(b.buffer[..lim]), 0, lim)
    }

    /** What an attempt on the buffer comes to when it sends the first `lim` bytes: the server and the result. */
    ghost function FlushOf(b: DedupeBuffer?, lim: int): (ServerState, Result<(), Error>)
      requires CanSend(b, lim)
      reads if b == null then {} else {b, b.buffer}, deduper.remote
    {
      Flush.AttemptOf(deduper.codec, deduper.compress, deduper.remote.net, deduper.remote.state, b.buffer[..lim],
          chunker(b.buffer[..lim]), Flush.Target(b.fileHandle, b.offset, b.limit, pVolumeID))
    }

    /**
     * runDedupe from the flag test on: what it does to the flags, to flushingBuffers and to the server.  It
     * fails only as its exchanges fail.
     */
    method RunDedupe(b: DedupeBuffer, flush: bool, lim: int) returns (r: Result<(), Error>, ghost outcome: Outcome)
      requires Environment() && Owns(b.fileHandle) && 0 <= lim <= b.buffer.Length < TWO_TO_THE_31
      modifies this`flushingBuffers, deduper.remote, b`flushing, b`flushed, b`sent
      ensures StoreOk(deduper.codec, deduper.remote.state)
      ensures r.Success? <==> outcome.Sent?
      ensures !flush ==> outcome.Sent?
      ensures flush ==> old(CanSend(b, lim)) && (deduper.remote.state, r) == old(FlushOf(b, lim))
      ensures outcome.ChunkerFailed? <==> flush && Flush.ChunkerFails(chunker(b.buffer[..lim]))
      ensures Answering() ==> outcome.Sent?
      ensures flushingBuffers == if outcome.ChunkerFailed? then old(flushingBuffers)
          else old(flushingBuffers) - {b.offset}
      ensures Blocks(deduper.remote.state, File()) ==
              if flush && (outcome.Sent? || outcome.ReplyLost?) then state.server[b.offset := b.buffer[..lim]]
                  else state.server
      ensures b.Value() == if flush && outcome.Sent?
                then old(b.Value()).(flushing := false, flushed := true, sent := Some(b.buffer[..lim]))
                    else old(b.Value())
      ensures OthersKept(old(deduper.remote.state), deduper.remote.state, File())
    {
      hide Lossless, CollisionFree, Honest, StoreOk, Blocks, Fingers.Tile, Flush.ChunkerOk, Flush.Values,
          Flush.Exchange, Flush.HashedBy, Flush.FingersFrom, Answers;
      ghost var piece := b.buffer[..lim];
      r, outcome := Success(()), Sent;
      if flush {
        var cut := deduper.Cut(b.buffer, lim, chunker(b.buffer[..lim]));
        if cut.Failure? {
          return Failure(cut.error), ChunkerFailed;
        }
        r, outcome := SendFingers(b, cut.value, lim);
        if r.Failure? {
          flushingBuffers := flushingBuffers - {b.offset};
          return;
        }
        b.flushing := false;
        b.flushed := true;
        b.sent := Some(piece);
      }
      flushingBuffers := flushingBuffers - {b.offset};
    }

    /** The fingers are hashed and sent; b.limit is read again for the position map's Len. */
    method SendFingers(b: DedupeBuffer, fingers: seq<Flush.Finger>, lim: int)
        returns (r: Result<(), Error>, ghost outcome: Outcome)
      requires Environment() && Owns(b.fileHandle) && 0 <= lim <= b.buffer.Length
      requires Flush.Distinct(fingers) && Fingers.Tile(Flush.Values(fingers), b.buffer[..lim])
      requires forall i :: 0 <= i < |fingers| ==> !fingers[i].dedup
      modifies deduper.remote, fingers
      ensures StoreOk(deduper.codec, deduper.remote.state)
      ensures (deduper.remote.state, r) == Flush.Exchange(deduper.codec, deduper.compress, deduper.remote.net,
          old(deduper.remote.state), Flush.HashedBy(deduper.codec, old(Flush.Values(fingers))),
          Flush.Target(b.fileHandle, b.offset, b.limit, pVolumeID))
      ensures Answering() ==> outcome.Sent?
      ensures (r.Success? <==> outcome.Sent?) && !outcome.ChunkerFailed?
      ensures Blocks(deduper.remote.state, File()) ==
              if outcome.Sent? || outcome.ReplyLost? then state.server[b.offset := b.buffer[..lim]] else state.server
      ensures OthersKept(old(deduper.remote.state), deduper.remote.state, File())
    {
      hide Fingers.Tile, Fingers.Hashed, Flush.Values, Lossless, CollisionFree, Honest, StoreOk, Grows, Blocks,
          Flush.ChunkerOk, Flush.Exchange, Flush.HashedBy, Answers;
      deduper.HashAll(fingers, b.buffer[..lim]);
      if Answering() {
        Flush.AnsweredIsSent(deduper.codec, deduper.compress, deduper.remote.net, deduper.remote.state,
            Flush.Values(fingers), b.buffer[..lim], Flush.Target(b.fileHandle, b.offset, b.limit, pVolumeID));
      }
      r := deduper.Send(fingers, b.fileHandle, b.offset, b.limit, pVolumeID, b.buffer[..lim]);
      outcome := if r.Success? then Sent else if Blocks(deduper.remote.state, File()) == state.server then RpcFailed
          else ReplyLost;
    }

    /**
     * What Do makes of an attempt's result: the next of its attempts, or its end, with the file's error after the
     * last.
     */
    method Conclude(j: nat, r: Result<(), Error>)
      requires Linked() && j < |jobs|
      modifies this`jobs, this`err, this`state
      ensures Linked()
      ensures var job := old(state).jobs[j]; var again := r.Failure? && job.left > 1;
        state == old(state).(
          jobs := old(state).jobs[j := if again then job.(left := job.left - 1, phase := Queued)
              else job.(left := 0, phase := Done)],
          failed := old(state).failed || (r.Failure? && !again))
      ensures err == if r.Failure? && old(state).jobs[j].left <= 1 then Some(r.error) else old(err)
    {
      var job := jobs[j];
      if r.Failure? && job.left > 1 {
        jobs := jobs[j := job.(left := job.left - 1, phase := Queued)];
      } else {
        if r.Failure? {
          err := Some(r.error);
        }
        jobs := jobs[j := job.(left := 0, phase := Done)];
      }
      state := state.(jobs := jobs, failed := err.Some?);
    }

    /** RunDedupe on one of the file's buffers: the others stay as they are. */
    method RunOn(b: DedupeBuffer, flush: bool, lim: int) returns (r: Result<(), Error>, ghost outcome: Outcome)
      requires Linked() && Environment() && Owns(b.fileHandle)
      requires b in bufs && 0 <= lim <= |state.bufs[b].data| == chunkSize
      modifies this`flushingBuffers, deduper.remote, b`flushing, b`flushed, b`sent
      ensures StoreOk(deduper.codec, deduper.remote.state)
      ensures (r.Success? <==> outcome.Sent?) && (!flush ==> outcome.Sent?)
      ensures Answering() ==> outcome.Sent?
      ensures flush ==> old(CanSend(b, lim)) && (deduper.remote.state, r) == old(FlushOf(b, lim))
      ensures forall c :: c in bufs && c != b ==> c.Value() == state.bufs[c]
      ensures Attempted(state, b, flush, lim, outcome) == state.(flushing := flushingBuffers,
          server := Blocks(deduper.remote.state, File()), bufs := state.bufs[b := b.Value()])
      ensures OthersKept(old(deduper.remote.state), deduper.remote.state, File())
    {
      assert b.Value() == state.bufs[b] && state.flushing == flushingBuffers;
      assert forall c :: c in bufs ==> c.Value() == state.bufs[c];
      assert forall c :: c in bufs && c != b ==> c.buffer != b.buffer;
      hide StoreOk, Blocks, Answering, FlushOf, CanSend, OthersKept,
          Linked, Attempted, Libraries;
      r, outcome := RunDedupe(b, flush, lim);
      AttemptedIs(state, b, flush, lim, outcome, flushingBuffers, Blocks(deduper.remote.state, File()), b.Value());
    }

    method Attempt(b: DedupeBuffer, flush: bool, lim: int) returns (r: Result<(), Error>, ghost outcome: Outcome)
      requires Linked() && Environment() && Owns(b.fileHandle)
      requires b in bufs && 0 <= lim <= |state.bufs[b].data| == chunkSize
      modifies this`flushingBuffers, this`state, deduper.remote, b`flushing, b`flushed, b`sent
      ensures Linked() && Environment()
      ensures (r.Success? <==> outcome.Sent?) && (!flush ==> outcome.Sent?)
      ensures Answering() ==> outcome.Sent?
      ensures flush ==> old(CanSend(b, lim)) && (deduper.remote.state, r) == old(FlushOf(b, lim))
      ensures state == Attempted(old(state), b, flush, lim, outcome)
      ensures OthersKept(old(deduper.remote.state), deduper.remote.state, File())
    {
      hide Blocks, StoreOk, Libraries, Answering, FlushOf, CanSend, OthersKept, Attempted;
      r, outcome := RunOn(b, flush, lim);
      Relink(b, Attempted(state, b, flush, lim, outcome));
    }

    /** After one buffer and some of the file's own fields changed, the objects are in state `next`. */
    ghost method Relink(b: DedupeBuffer, next: State<DedupeBuffer?>)
      requires b in bufs && state.bufs.Keys == bufs
      requires forall c, d :: c in bufs && d in bufs && c != d ==> c.buffer != d.buffer
      requires forall c :: c in bufs && c != b ==> c.Value() == state.bufs[c]
      requires next.bufs == state.bufs[b := b.Value()]
      requires cache == next.cache && flushingBuffers == next.flushing && jobs == next.jobs
      requires err.Some? == next.failed && chunkSize == next.chunkSize && bufferSize == next.bufferSize
      modifies this`state
      ensures Linked() && state == next
    {
      state := next;
    }

    method EndAttempt(j: nat) returns (r: Result<(), Error>, ghost outcome: Outcome)
      requires Linked() && Environment() && Handled(state.client)
      requires j < |jobs| && jobs[j].phase.Holding? && Ending(state, j)
      modifies this`flushingBuffers, this`jobs, this`err, this`state, deduper.remote, bufs`flushing, bufs`flushed,
          bufs`sent
      ensures Linked() && Environment()
      ensures FinishEnabled(old(state), j, outcome) && state == FinishNext(old(state), j, outcome)
      ensures (r.Success? <==> outcome.Sent?) && (Answering() ==> outcome.Sent?)
      ensures old(jobs[j].phase.flush) ==>
                old(CanSend(jobs[j].buf, jobs[j].phase.lim))
                && (deduper.remote.state, r) == old(FlushOf(jobs[j].buf, jobs[j].phase.lim))
      ensures err == if r.Failure? && old(jobs[j].left) <= 1 then Some(r.error) else old(err)
      ensures OthersKept(old(deduper.remote.state), deduper.remote.state, File())
    {
      hide StoreOk, Blocks, Attempted, Answering, FlushOf, CanSend, Libraries;
      var b: DedupeBuffer := jobs[j].buf;
      var Holding(flush, lim) := jobs[j].phase;
      r, outcome := Attempt(b, flush, lim);
      Conclude(j, r);
    }

    /** The jobs' buffers are the same afterwards, so the handles stay in order. */
    method EndHandled(j: nat) returns (r: Result<(), Error>, ghost outcome: Outcome)
      requires Linked() && Environment() && Handled(state.client)
      requires j < |jobs| && jobs[j].phase.Holding? && Ending(state, j)
      modifies this`flushingBuffers, this`jobs, this`err, this`state, deduper.remote, bufs`flushing, bufs`flushed,
          bufs`sent
      ensures Linked() && Environment() && Handled(state.client) && jobs == state.jobs
      ensures FinishEnabled(old(state), j, outcome) && state == FinishNext(old(state), j, outcome)
      ensures (r.Success? <==> outcome.Sent?) && (Answering() ==> outcome.Sent?)
      ensures old(jobs[j].phase.flush) ==>
                old(CanSend(jobs[j].buf, jobs[j].phase.lim))
                && (deduper.remote.state, r) == old(FlushOf(jobs[j].buf, jobs[j].phase.lim))
      ensures err == if r.Failure? && old(jobs[j].left) <= 1 then Some(r.error) else old(err)
      ensures OthersKept(old(deduper.remote.state), deduper.remote.state, File())
    {
      hide Environment, FinishNext, Ending, Answering, FlushOf, CanSend;
      ghost var before := state;
      assert jobs == before.jobs;
      r, outcome := EndAttempt(j);
      FinishJobs(before, j, outcome);
      assert jobs == state.jobs;
      hide Linked;
    }

    /** An attempt ends, somehow. */
    method FinishAttempt(j: nat) returns (r: Result<(), Error>, ghost outcome: Outcome)
      requires Valid() && j < |jobs| && jobs[j].phase.Holding?
      modifies this`flushingBuffers, this`jobs, this`err, this`state, this`trace, deduper.remote, bufs`flushing,
          bufs`flushed, bufs`sent
      ensures Valid() && state.client == old(state).client
      ensures trace == old(trace) + [Step<DedupeBuffer?>.Finish(j, outcome)]
          && Quiescence.Work(jobs) < Quiescence.Work(old(jobs))
      ensures OnlyJob(old(jobs), jobs, j)
      ensures (r.Success? <==> outcome.Sent?) && (Answering() ==> outcome.Sent?)
      ensures old(jobs[j].phase.flush) ==>
                old(CanSend(jobs[j].buf, jobs[j].phase.lim))
                && (deduper.remote.state, r) == old(FlushOf(jobs[j].buf, jobs[j].phase.lim))
      ensures err == if r.Failure? && old(jobs[j].left) <= 1 then Some(r.error) else old(err)
      ensures OthersKept(old(deduper.remote.state), deduper.remote.state, File())
    {
      ghost var before := state;
      HolderFits(before, j);
      hide Answering, FlushOf, CanSend, NeverFailed;
      r, outcome := EndHandled(j);
      FinishStep(before, j, outcome);
      Quiescence.WorkerStepLowersWork(before, Step<DedupeBuffer?>.Finish(j, outcome));
      hide Handled, Quiescence.Work, Inv, Runs, Exec, Libraries, StoreOk, Blocks, Answering,
          Apply, Enabled, WellFormed, FinishNext;
      Note(before, state.client, Step<DedupeBuffer?>.Finish(j, outcome));
    }

    /** Whatever the workers may do in the meantime. */
    method Workers()
      requires Valid()
      modifies this`flushingBuffers, this`jobs, this`err, this`state, this`trace, deduper.remote, bufs`flushing,
          bufs`flushed, bufs`sent
      ensures Valid() && state.client == old(state).client
      ensures ByWorkers(old(trace), trace) && (SyncJobsDone(old(state)) ==> SyncJobsDone(state))
      ensures OthersKept(old(deduper.remote.state), deduper.remote.state, File())
    {
      var turns: int := *;
      while turns > 0
        invariant OthersKept(old(deduper.remote.state), deduper.remote.state, File())
        invariant Valid() && state.client == old(state).client && ByWorkers(old(trace), trace)
        invariant SyncJobsDone(old(state)) ==> SyncJobsDone(state)
      {
        var j: int := *;
        if 0 <= j < |jobs| {
          ghost var was := trace;
          TakeTurn(j);
          ByWorkersTrans(old(trace), was, trace);
        }
        turns := turns - 1;
      }
    }

    /** One step of job j, if it can take one. */
    method TakeTurn(j: nat)
      requires Valid() && j < |jobs|
      modifies this`flushingBuffers, this`jobs, this`err, this`state, this`trace, deduper.remote, bufs`flushing,
          bufs`flushed, bufs`sent
      ensures Valid() && state.client == old(state).client
      ensures ByWorkers(old(trace), trace)
      ensures old(CanStep(j)) ==> Quiescence.Work(jobs) < Quiescence.Work(old(jobs))
      ensures SyncJobsDone(old(state)) ==> SyncJobsDone(state)
      ensures OthersKept(old(deduper.remote.state), deduper.remote.state, File())
    {
      hide Inv, Runs, Exec, Libraries, StoreOk, Blocks, Answering, OnlyJob, SyncJobsDone,
          Quiescence.Work;
      ghost var before := state;
      if jobs[j].phase.Holding? {
        var _, outcome := FinishAttempt(j);
        DoneKept(before, state, j);
      } else if jobs[j].phase.Queued? && !IsHeld(jobs[j].buf) {
        StartAttempt(j);
        DoneKept(before, state, j);
      }
    }

    /** Whether buffer.mu is held by an attempt. */
    predicate IsHeld(b: DedupeBuffer?)
      reads this`jobs
    {
      exists j :: 0 <= j < |jobs| && jobs[j].buf == b && jobs[j].phase.Holding?
    }

    predicate CanStep(j: nat)
      reads this`jobs
    {
      j < |jobs| && (jobs[j].phase.Holding? || (jobs[j].phase.Queued? && !IsHeld(jobs[j].buf)))
    }

    /** chunk.mu.Lock(): the client waits until no attempt holds the buffer. */
    method Acquire(chunk: DedupeBuffer)
      requires Valid()
      modifies this`flushingBuffers, this`jobs, this`err, this`state, this`trace, deduper.remote, bufs`flushing,
          bufs`flushed, bufs`sent
      ensures Valid() && state.client == old(state).client
      ensures ByWorkers(old(trace), trace) && !Held(state, chunk)
      ensures OthersKept(old(deduper.remote.state), deduper.remote.state, File())
    {
      while IsHeld(chunk)
        invariant OthersKept(old(deduper.remote.state), deduper.remote.state, File())
        invariant Valid() && state.client == old(state).client && ByWorkers(old(trace), trace)
        decreases Quiescence.Work(jobs)
      {
        var j: nat :| j < |jobs| && jobs[j].buf == chunk && jobs[j].phase.Holding?;
        ghost var was := trace;
        TakeTurn(j);
        ByWorkersTrans(old(trace), was, trace);
      }
    }

    // ----- Write -----

    /** The three parts of one turn of Write's loop, each followed by whatever the workers do next. */
    method LockFor(pos: int, ghost piece: Bytes) returns (chunk: DedupeBuffer, ghost spare: DedupeBuffer?)
      requires Valid() && state.client.Idle? && Fits(state, pos, piece)
      modifies this`cache, this`flushingBuffers, this`jobs, this`err, this`state, this`trace, this`bufs, bufs,
          Arrays(), deduper.remote
      ensures Valid() && old(bufs) <= bufs && chunk in bufs && !Held(state, chunk)
      ensures forall b :: b in bufs && b !in old(bufs) ==> fresh(b) && fresh(b.buffer)
      ensures state.client == Client<DedupeBuffer?>.Located(chunk, pos - BlockOf(chunkSize, pos), piece)
      ensures ByWorkers(old(trace) + [Step<DedupeBuffer?>.Locate(pos, piece, spare)], trace)
      ensures OthersKept(old(deduper.remote.state), deduper.remote.state, File())
    {
      hide Inv, Runs, Exec, Libraries, StoreOk, Blocks, Answering, Fits, BlockOf, Held;
      chunk, spare := FindBuffer(pos, piece);
      ghost var was := trace;
      Workers();
      ghost var then_ := trace;
      Acquire(chunk);
      ByWorkersTrans(was, then_, trace);
    }

    method CopyIn(chunk: DedupeBuffer, at: int, piece: Bytes, fileHandle: int)
      requires Valid() && Owns(fileHandle) && chunk in bufs && !Held(state, chunk)
      requires state.client == Client<DedupeBuffer?>.Located(chunk, at, piece)
      modifies this`cache, this`flushingBuffers, this`jobs, this`err, this`state, this`trace, bufs, Arrays(),
          deduper.remote
      ensures Valid()
      ensures state.client == Client<DedupeBuffer?>.Copied(chunk, at + |piece|)
      ensures ByWorkers(old(trace) + [Step<DedupeBuffer?>.Copy], trace)
      ensures OthersKept(old(deduper.remote.state), deduper.remote.state, File())
    {
      hide Inv, Runs, Exec, Libraries, StoreOk, Blocks, Answering, Held;
      CopyPiece(chunk, at, piece, fileHandle);
      Workers();
    }

    method Settle(chunk: DedupeBuffer, end: int)
      requires Valid() && chunk in bufs && state.client == Client<DedupeBuffer?>.Copied(chunk, end)
      modifies this`cache, this`flushingBuffers, this`jobs, this`err, this`state, this`trace, bufs, deduper.remote
      ensures Valid() && state.client.Idle?
      ensures ByWorkers(old(trace) + [Step<DedupeBuffer?>.Raise], trace)
      ensures OthersKept(old(deduper.remote.state), deduper.remote.state, File())
    {
      hide Inv, Runs, Exec, Libraries, StoreOk, Blocks, Answering;
      AddAgain(chunk, end);
      Workers();
    }

    method WritePiece(pos: int, piece: Bytes, fileHandle: int)
      requires Valid() && Owns(fileHandle) && state.client.Idle? && Fits(state, pos, piece)
      modifies this`cache, this`flushingBuffers, this`jobs, this`err, this`state, this`trace, this`bufs, bufs,
          Arrays(), deduper.remote
      ensures Valid() && state.client.Idle? && old(bufs) <= bufs
      ensures forall b :: b in bufs && b !in old(bufs) ==> fresh(b) && fresh(b.buffer)
      ensures old(trace) <= trace && OneWrite(trace[|old(trace)|..], pos, piece)
      ensures OthersKept(old(deduper.remote.state), deduper.remote.state, File())
    {
      hide Inv, Runs, Exec, Libraries, StoreOk, Blocks, Answering, Fits, Held, BlockOf,
          OneWrite, ByWorkers, Handled, Linked;
      ghost var t0 := trace;
      var chunk, spare := LockFor(pos, piece);
      ghost var t1 := trace;
      var at := pos - GetOffset(pos);
      CopyIn(chunk, at, piece, fileHandle);
      ghost var t2 := trace;
      Settle(chunk, at + |piece|);
      OneWriteMade(t0, pos, piece, spare, t1, t2, trace);
    }

    /**
     * The int32 arithmetic of one turn: the piece starts at bspos of its block and ends at ep, which wraps when it is
     * too large.
     */
    method NextPiece(noffset: int, length: int, bytesWritten: int) returns (bspos: int, bepos: int, ep: int, sep: int)
      requires 0 < chunkSize < TWO_TO_THE_31 && noffset >= 0 && 0 <= bytesWritten < length < TWO_TO_THE_31
      ensures if EndFits(chunkSize, noffset, length - bytesWritten)
              then
                && 0 <= bspos <= ep <= chunkSize && bytesWritten < sep <= length
                && bepos == sep - bytesWritten == PieceLength(chunkSize, noffset, length - bytesWritten)
              else ep < 0
    {
      var fpos := GetOffset(noffset);
      ModIsFromBlock(chunkSize, noffset);
      PieceFits(chunkSize, noffset, length - bytesWritten);
      bspos := Int32(noffset - fpos);
      bepos := Int32(length - bytesWritten);
      if Int32(bepos + bspos) > Int32(chunkSize) {
        bepos := Int32(Int32(chunkSize) - bspos);
      }
      ep := Int32(bspos + bepos);
      sep := Int32(bytesWritten + bepos);
    }

    /** One turn of Write's loop, or its panic. */
    method WriteTurn(fileHandle: int, offset: int, wbuffer: Bytes, length: int, bytesWritten: int,
        ghost t0: seq<Step<DedupeBuffer?>>) returns (written: int, panic: bool)
      requires Owns(fileHandle)
      requires Valid() && state.client.Idle? && chunkSize < TWO_TO_THE_31
      requires 0 <= bytesWritten < length <= |wbuffer| && length < TWO_TO_THE_31
      requires Progress(t0, trace, chunkSize, offset, wbuffer[..length], bytesWritten)
      modifies this`cache, this`flushingBuffers, this`jobs, this`err, this`state, this`trace, this`bufs, bufs,
          Arrays(), deduper.remote
      ensures Valid() && old(bufs) <= bufs && old(trace) <= trace
      ensures forall b :: b in bufs && b !in old(bufs) ==> fresh(b) && fresh(b.buffer)
      ensures panic <==> bytesWritten == 0 && !EndFits(chunkSize, offset, length)
      ensures !panic ==>
                && state.client.Idle? && bytesWritten < written <= length
                && Progress(t0, trace, chunkSize, offset, wbuffer[..length], written)
      ensures OthersKept(old(deduper.remote.state), deduper.remote.state, File())
    {
      ghost var t1 := trace;
      var noffset := offset + bytesWritten;
      hide Inv, Runs, Exec, Libraries, StoreOk, Blocks, Answering, BlockOf, OneWrite,
          PieceLength, EndFits, WritingSoFar;
      OverflowsAtFirst(t0, trace, chunkSize, offset, wbuffer[..length], bytesWritten);
      hide Progress;
      var bspos, bepos, ep, sep := NextPiece(noffset, length, bytesWritten);
      panic := !(0 <= bspos <= ep <= chunkSize && 0 <= bytesWritten <= sep <= |wbuffer|);
      written := Int32(bytesWritten + bepos);
      PieceFitsBlock(chunkSize, noffset, length - bytesWritten);
      if panic {
        PanicAt(noffset);
      } else {
        assert wbuffer[..length][bytesWritten..sep] == wbuffer[bytesWritten..sep];
        WritePiece(noffset, wbuffer[bytesWritten..sep], fileHandle);
        Advance(t0, t1, trace, chunkSize, offset, wbuffer[..length], bytesWritten, sep);
      }
    }

    /** The buffer was found and locked when the slice expression panics. */
    method PanicAt(pos: int)
      requires Valid() && state.client.Idle? && pos >= 0
      modifies this`cache, this`flushingBuffers, this`jobs, this`err, this`state, this`trace, this`bufs, bufs,
          Arrays(), deduper.remote
      ensures Valid() && old(bufs) <= bufs && old(trace) <= trace
      ensures forall b :: b in bufs && b !in old(bufs) ==> fresh(b) && fresh(b.buffer)
      ensures OthersKept(old(deduper.remote.state), deduper.remote.state, File())
    {
      assert Fits(state, pos, [0]);
      var chunk, spare := LockFor(pos, [0]);
    }

    /** Write's loop. */
    method WriteAll(fileHandle: int, offset: int, wbuffer: Bytes, length: int) returns (panic: bool)
      requires Owns(fileHandle)
      requires Valid() && state.client.Idle?
      requires offset >= 0 && 0 <= length <= |wbuffer| && length < TWO_TO_THE_31
      modifies this`cache, this`flushingBuffers, this`jobs, this`err, this`state, this`trace, this`bufs, bufs,
          Arrays(), deduper.remote
      ensures Valid() && old(bufs) <= bufs && old(trace) <= trace
      ensures forall b :: b in bufs && b !in old(bufs) ==> fresh(b) && fresh(b.buffer)
      ensures panic <==> !EndFits(chunkSize, offset, length)
      ensures !panic ==>
        state.client.Idle? && Progress(old(trace), trace, chunkSize, offset, wbuffer[..length], length)
      ensures OthersKept(old(deduper.remote.state), deduper.remote.state, File())
    {
      ShortFits(chunkSize, offset);
      hide Progress, Inv, Runs, Exec, Lossless, CollisionFree, Honest, StoreOk, Blocks, Flush.ChunkerOk, EndFits;
      ghost var t0 := trace;
      var bytesWritten := 0;
      NoProgress(t0, chunkSize, offset, wbuffer[..length]);
      panic := false;
      while bytesWritten < length
        invariant OthersKept(old(deduper.remote.state), deduper.remote.state, File())
        invariant Valid() && state.client.Idle? && old(bufs) <= bufs && t0 <= trace
        invariant forall b :: b in bufs && b !in old(bufs) ==> fresh(b) && fresh(b.buffer)
        invariant 0 <= bytesWritten <= length
            && Progress(t0, trace, chunkSize, offset, wbuffer[..length], bytesWritten)
        invariant bytesWritten > 0 ==> EndFits(chunkSize, offset, length)
      {
        bytesWritten, panic := WriteTurn(fileHandle, offset, wbuffer, length, bytesWritten, t0);
        if panic {
          return;
        }
      }
    }

    /**
     * Write.  With no file error it makes exactly the pieces of [offset, offset + length), or it
     * panics, exactly when the first piece's end does not fit an int32.
     */
    method Write(fileHandle: int, offset: int, wbuffer: Bytes, length: int, ghost data: Bytes)
        returns (r: Result<(), WriteFailure>)
      requires Owns(fileHandle)
      requires Valid() && state.client.Idle? && Writable(offset, wbuffer, length, data)
      modifies this`cache, this`flushingBuffers, this`jobs, this`err, this`state, this`trace, this`bufs, bufs,
          Arrays(), deduper.remote
      ensures Valid() && old(bufs) <= bufs && old(trace) <= trace
      ensures forall b :: b in bufs && b !in old(bufs) ==> fresh(b) && fresh(b.buffer)
      ensures old(err.Some?) ==> r == Failure(FileError(old(err).value)) && trace == old(trace) && err == old(err)
      ensures r != Failure(Panic) ==> state.client.Idle?
      ensures old(err.None?) ==> (r == Failure(Panic) <==> !EndFits(chunkSize, offset, |data|))
      ensures old(err.None?) && r != Failure(Panic) ==>
                && r == Success(()) && WritingOnly(trace[|old(trace)|..])
                && WritesOf(trace[|old(trace)|..]) == Pieces(chunkSize, offset, data, 0)
      ensures OthersKept(old(deduper.remote.state), deduper.remote.state, File())
    {
      if err.Some? {
        return Failure(FileError(err.value));
      }
      hide Inv, Runs, Exec, Libraries, StoreOk, Blocks, Answering;
      var panic := WriteAll(fileHandle, offset, wbuffer, if length > 0 then length else 0);
      r := if panic then Failure(Panic) else Success(());
    }

    // ----- Sync -----

    method GetAndSubmit(b: DedupeBuffer)
      requires Linked() && b in bufs
      modifies this`cache, this`flushingBuffers, this`jobs, this`state, bufs`flushing
      ensures Linked()
      ensures state == FileMachine.Submit(old(state).(cache := Without(old(state).cache, b) + [b]), b, true)
    {
      cache := MoveToBack(b);
      state := state.(cache := Without(state.cache, b) + [b]);
      Submit(b, true);
    }

    /**
     * One turn of the loop over the cached keys: Get makes the buffer the most recent one, and a job is submitted for
     * it.
     */
    method SubmitCached(b: DedupeBuffer, ghost rest: seq<DedupeBuffer?>)
      requires Good() && state.client == Client<DedupeBuffer?>.Syncing([b] + rest)
      modifies this`cache, this`flushingBuffers, this`jobs, this`state, this`trace, bufs`flushing
      ensures Good() && state.server == old(state).server && state.client == Client<DedupeBuffer?>.Syncing(rest)
      ensures trace == old(trace) + [Step<DedupeBuffer?>.SyncSubmit]
    {
      ghost var before := state;
      SubmitStep(before, b, rest);
      hide Inv, Runs, Exec, Apply, Enabled;
      GetAndSubmit(b);
      Note(before, Client<DedupeBuffer?>.Syncing(rest), Step<DedupeBuffer?>.SyncSubmit);
    }

    method BeginSync()
      requires Good() && state.client.Idle? && err.None?
      modifies this`state, this`trace
      ensures Good() && state.server == old(state).server && state.client == Client<DedupeBuffer?>.Syncing(cache)
      ensures trace == old(trace) + [Step<DedupeBuffer?>.SyncBegin]
    {
      ghost var before := state;
      assert Enabled(before, Step<DedupeBuffer?>.SyncBegin);
      hide Inv, Runs, Exec;
      Note(before, Client<DedupeBuffer?>.Syncing(before.cache), Step<DedupeBuffer?>.SyncBegin);
    }

    /** Sync's end: nil, or an error after a failed attempt or the timeout. */
    method EndSync(nil: bool)
      requires Good() && state.client == Client<DedupeBuffer?>.Syncing([]) && SyncJobsDone(state)
      requires nil ==> flushingBuffers == map[] && err.None?
      modifies this`state, this`trace
      ensures Good() && state.server == old(state).server && state.client == Client<DedupeBuffer?>.Idle
      ensures trace == old(trace) + [if nil then Step<DedupeBuffer?>.SyncReturn else Step<DedupeBuffer?>.SyncAbort]
    {
      ghost var before := state;
      ghost var step := if nil then Step<DedupeBuffer?>.SyncReturn else Step<DedupeBuffer?>.SyncAbort;
      assert Enabled(before, step);
      hide Inv, Runs, Exec;
      Note(before, Client<DedupeBuffer?>.Idle, step);
    }

    /** Any job that can take a step; there is one while a job is not done. */
    method SomeJob() returns (j: nat)
      requires Good() && exists j :: 0 <= j < |jobs| && !jobs[j].phase.Done?
      ensures CanStep(j)
    {
      ghost var i :| 0 <= i < |jobs| && !jobs[i].phase.Done?;
      assert Outstanding(state, i);
      SomeoneCanWork(state);
      ghost var k: nat :| k < |state.jobs|
          && (state.jobs[k].phase.Holding? || (state.jobs[k].phase.Queued? && !Held(state, state.jobs[k].buf)));
      assert CanStep(k);
      j :| j < |jobs| && CanStep(j);
    }

    /** Some job takes a step. */
    method WorkOnce()
      requires Valid() && exists j :: 0 <= j < |jobs| && !jobs[j].phase.Done?
      modifies this`flushingBuffers, this`jobs, this`err, this`state, this`trace, deduper.remote, bufs`flushing,
          bufs`flushed, bufs`sent
      ensures Valid() && state.client == old(state).client
      ensures ByWorkers(old(trace), trace) && Quiescence.Work(jobs) < Quiescence.Work(old(jobs))
      ensures OthersKept(old(deduper.remote.state), deduper.remote.state, File())
    {
      hide Inv, Runs, Exec, Libraries, StoreOk, Blocks, Answering, Quiescence.Work,
          CanStep, IsHeld, ByWorkers, SyncJobsDone;
      var j := SomeJob();
      TakeTurn(j);
    }

    /** wg.Wait(): the pool works, in any order, until the jobs Sync submitted are done. */
    method Drain()
      requires Valid()
      modifies this`flushingBuffers, this`jobs, this`err, this`state, this`trace, deduper.remote, bufs`flushing,
          bufs`flushed, bufs`sent
      ensures Valid() && state.client == old(state).client
      ensures ByWorkers(old(trace), trace) && SyncJobsDone(state)
      ensures OthersKept(old(deduper.remote.state), deduper.remote.state, File())
    {
      hide Inv, Runs, Exec, Libraries, StoreOk, Blocks, Answering, Quiescence.Work;
      while exists j :: 0 <= j < |jobs| && jobs[j].sync && !jobs[j].phase.Done?
        invariant OthersKept(old(deduper.remote.state), deduper.remote.state, File())
        invariant Valid() && state.client == old(state).client && ByWorkers(old(trace), trace)
        decreases Quiescence.Work(jobs)
      {
        ghost var was := trace;
        WorkOnce();
        ByWorkersTrans(old(trace), was, trace);
      }
    }

    method SubmitTurn(b: DedupeBuffer, ghost rest: seq<DedupeBuffer?>)
      requires Valid() && state.client == Client<DedupeBuffer?>.Syncing([b] + rest)
      modifies this`cache, this`flushingBuffers, this`jobs, this`err, this`state, this`trace, bufs`flushing,
          bufs`flushed, bufs`sent, deduper.remote
      ensures Valid() && state.client == Client<DedupeBuffer?>.Syncing(rest)
      ensures BySyncing(old(trace), trace)
      ensures OthersKept(old(deduper.remote.state), deduper.remote.state, File())
    {
      hide Inv, Runs, Exec, Libraries, StoreOk, Blocks, Answering;
      SubmitCached(b, rest);
      Workers();
    }

    /** The submissions, with the workers already at it. */
    method SubmitAll()
      requires Valid() && state.client == Client<DedupeBuffer?>.Syncing(cache)
      modifies this`cache, this`flushingBuffers, this`jobs, this`err, this`state, this`trace, bufs`flushing,
          bufs`flushed, bufs`sent, deduper.remote
      ensures Valid() && state.client == Client<DedupeBuffer?>.Syncing([])
      ensures BySyncing(old(trace), trace)
      ensures OthersKept(old(deduper.remote.state), deduper.remote.state, File())
    {
      hide Inv, Runs, Exec, Libraries, StoreOk, Blocks, Answering, BySyncing;
      assert BySyncing(trace, trace) by { NothingSynced(trace); }
      var keys := cache;
      for i := 0 to |keys|
        invariant OthersKept(old(deduper.remote.state), deduper.remote.state, File())
        invariant Valid() && state.client == Client<DedupeBuffer?>.Syncing(keys[i..])
        invariant BySyncing(old(trace), trace)
      {
        assert keys[i..] == [keys[i]] + keys[i + 1..];
        ghost var was := trace;
        SubmitTurn(keys[i], keys[i + 1..]);
        BySyncingTrans(old(trace), was, trace);
      }
    }

    /** After these steps an entry was listed; if the file has handles, the jobs of its Sync were all done. */
    ghost predicate Waiting(steps: seq<Step<DedupeBuffer?>>, handled: bool) {
      && Runs(Start(), steps)
      && var s := Exec(Start(), steps);
         s.flushing != map[] && (handled ==> s.client == Client<DedupeBuffer?>.Syncing([]) && SyncJobsDone(s))
    }

    /** The wait ended with an entry that was still listed when it was last tested. */
    ghost predicate GaveUp(was: seq<Step<DedupeBuffer?>>, now: seq<Step<DedupeBuffer?>>, handled: bool) {
      exists n: nat :: |was| <= n <= |now| && Waiting(now[..n], handled)
    }

    lemma GaveUpThen(was: seq<Step<DedupeBuffer?>>, tested: seq<Step<DedupeBuffer?>>,
        now: seq<Step<DedupeBuffer?>>, handled: bool)
      requires was <= tested <= now && Waiting(tested, handled)
      ensures GaveUp(was, now, handled)
    {
      assert now[..|tested|] == tested;
    }

    /** A file without an error had none before. */
    lemma NoErrorBefore(earlier: seq<Step<DedupeBuffer?>>)
      requires Valid() && earlier <= trace
      ensures Runs(Start(), earlier) && (err.None? ==> !Exec(Start(), earlier).failed)
    {
      var later := trace[|earlier|..];
      assert trace == earlier + later;
      hide Inv, Enabled, Apply, Environment, Handled;
      RunsSplit(Start(), earlier, later);
      if Exec(Start(), earlier).failed {
        Quiescence.ErrorSticks(Exec(Start(), earlier), later);
      }
    }

    /**
     * The wait for flushingBuffers to empty: false after a file error, or when an entry was still listed at
     * each of 18000 tests; by the end of the last turn, after which there is no test, it may be gone.  There was
     * no error when the last turn began, unless it was the first.
     */
    method AwaitFlushing(ghost handled: bool) returns (emptied: bool, cntdown: int,
        ghost tested: seq<Step<DedupeBuffer?>>)
      requires Valid() && (handled ==> state.client == Client<DedupeBuffer?>.Syncing([]) && SyncJobsDone(state))
      modifies this`flushingBuffers, this`jobs, this`err, this`state, this`trace, deduper.remote, bufs`flushing,
          bufs`flushed, bufs`sent
      ensures Valid() && state.client == old(state).client && (SyncJobsDone(old(state)) ==> SyncJobsDone(state))
      ensures ByWorkers(old(trace), trace) && (emptied ==> flushingBuffers == map[])
      ensures !emptied && err.None? ==> cntdown == 18000 && old(trace) <= tested <= trace && Waiting(tested, handled)
      ensures 0 < cntdown < 18000 ==> Runs(Start(), tested) && !Exec(Start(), tested).failed
      ensures OthersKept(old(deduper.remote.state), deduper.remote.state, File())
    {
      hide Inv, Runs, Exec, Libraries, StoreOk, Blocks, Answering;
      cntdown, tested := 0, trace;
      while flushingBuffers != map[]
        invariant OthersKept(old(deduper.remote.state), deduper.remote.state, File())
        invariant Valid() && state.client == old(state).client && ByWorkers(old(trace), trace)
        invariant SyncJobsDone(old(state)) ==> SyncJobsDone(state)
        invariant 0 <= cntdown < 18000
        invariant cntdown > 0 ==> err.None? && Runs(Start(), tested) && !Exec(Start(), tested).failed
        decreases 18000 - cntdown
      {
        tested := trace;
        assert Waiting(tested, handled);
        Workers();
        ByWorkersTrans(old(trace), tested, trace);
        NoErrorBefore(tested);
        if err.Some? {
          return false, cntdown, tested;
        }
        cntdown := cntdown + 1;
        if cntdown == 18000 {
          return false, cntdown, tested;
        }
      }
      emptied := true;
    }

    /** Everything Sync does before it decides what to return. */
    method SyncAll() returns (emptied: bool, ghost tested: seq<Step<DedupeBuffer?>>)
      requires Valid() && state.client.Idle? && err.None?
      modifies this`cache, this`flushingBuffers, this`jobs, this`err, this`state, this`trace, bufs`flushing,
          bufs`flushed, bufs`sent, deduper.remote
      ensures Valid() && state.client == Client<DedupeBuffer?>.Syncing([]) && SyncJobsDone(state)
      ensures BySyncing(old(trace), trace) && (emptied ==> flushingBuffers == map[])
      ensures !emptied && err.None? ==> old(trace) <= tested <= trace && Waiting(tested, true)
      ensures OthersKept(old(deduper.remote.state), deduper.remote.state, File())
    {
      hide Inv, Runs, Exec, Libraries, StoreOk, Blocks, Answering, Waiting;
      var cntdown;
      BeginSync();
      SubmitAll();
      Drain();
      emptied, cntdown, tested := AwaitFlushing(true);
    }

    /** Sync of a file with handles and no error. */
    method SubmitAndWait() returns (nil: bool)
      requires Valid() && state.client.Idle? && err.None?
      modifies this`cache, this`flushingBuffers, this`jobs, this`err, this`state, this`trace, bufs`flushing,
          bufs`flushed, bufs`sent, deduper.remote
      ensures Valid() && state.client.Idle?
      ensures Synced(old(trace), trace, nil)
      ensures nil ==> flushingBuffers == map[] && err.None?
      ensures !nil ==> err.Some? || GaveUp(old(trace), trace, true)
      ensures OthersKept(old(deduper.remote.state), deduper.remote.state, File())
    {
      hide Inv, Runs, Exec, Libraries, StoreOk, Blocks, Answering, Waiting,
          GaveUp;
      var emptied, tested := SyncAll();
      nil := emptied && err.None?;
      EndSync(nil);
      if !emptied && err.None? {
        GaveUpThen(old(trace), tested, trace, true);
      }
    }

    /** Sync of one without handles: it only waits. */
    method WaitOnly() returns (nil: bool)
      requires Valid() && state.client.Idle? && err.None?
      modifies this`flushingBuffers, this`jobs, this`err, this`state, this`trace, deduper.remote, bufs`flushing,
          bufs`flushed, bufs`sent
      ensures Valid() && state.client.Idle?
      ensures ByWorkers(old(trace), trace)
      ensures nil ==> flushingBuffers == map[] && err.None?
      ensures !nil ==> err.Some? || GaveUp(old(trace), trace, false)
      ensures OthersKept(old(deduper.remote.state), deduper.remote.state, File())
    {
      hide Inv, Runs, Exec, Libraries, StoreOk, Blocks, Answering, Waiting,
          GaveUp;
      var emptied, cntdown, tested := AwaitFlushing(false);
      nil := emptied && err.None?;
      if !emptied && err.None? {
        GaveUpThen(old(trace), tested, trace, false);
      }
    }

    /**
     * Sync.  nil means that flushingBuffers is empty and the file has no error; anything else means an
     * error or an entry that stayed through the wait.  Only what has handles is submitted.
     */
    method Sync() returns (nil: bool)
      requires Valid() && state.client.Idle?
      modifies this`cache, this`flushingBuffers, this`jobs, this`err, this`state, this`trace, bufs`flushing,
          bufs`flushed, bufs`sent, deduper.remote
      ensures Valid() && state.client.Idle?
      ensures old(err.Some?) ==> !nil && trace == old(trace) && err == old(err)
      ensures old(err.None?) && fileHandles != {} ==> Synced(old(trace), trace, nil)
      ensures old(err.None?) && fileHandles == {} ==> ByWorkers(old(trace), trace)
      ensures nil ==> flushingBuffers == map[] && err.None?
      ensures !nil ==> err.Some? || GaveUp(old(trace), trace, fileHandles != {})
      ensures OthersKept(old(deduper.remote.state), deduper.remote.state, File())
    {
      hide Inv, Runs, Exec, Libraries, StoreOk, Blocks, Answering, Synced, ByWorkers,
          Answering, Waiting, GaveUp;
      nil := false;
      if err.None? {
        if fileHandles != {} {
          nil := SubmitAndWait();
        } else {
          nil := WaitOnly();
        }
      }
    }

    // ----- The same on usable files -----

    method WorkUsable()
      requires Usable()
      modifies this`flushingBuffers, this`jobs, this`err, this`state, this`trace, deduper.remote, bufs`flushing,
          bufs`flushed, bufs`sent
      ensures Usable() && ByWorkers(old(trace), trace)
      ensures OthersKept(old(deduper.remote.state), deduper.remote.state, File())
    {
      UsableIsValid();
      hide Settled, Matches, ByWorkers, OthersKept, Good, Environment;
      Workers();
      UsableIsValid();
    }

    method SyncUsable() returns (nil: bool)
      requires Usable()
      modifies this`cache, this`flushingBuffers, this`jobs, this`err, this`state, this`trace, bufs`flushing,
          bufs`flushed, bufs`sent, deduper.remote
      ensures Usable()
      ensures old(err.Some?) ==> !nil && trace == old(trace) && err == old(err)
      ensures old(err.None?) && fileHandles != {} ==> Synced(old(trace), trace, nil)
      ensures old(err.None?) && fileHandles == {} ==> ByWorkers(old(trace), trace)
      ensures nil ==> flushingBuffers == map[] && err.None?
      ensures !nil ==> err.Some? || GaveUp(old(trace), trace, fileHandles != {})
      ensures OthersKept(old(deduper.remote.state), deduper.remote.state, File())
    {
      UsableIsValid();
      hide Settled, Matches, Synced, ByWorkers, OthersKept, Good, Environment, GaveUp;
      nil := Sync();
      UsableIsValid();
    }

    method WriteUsable(fileHandle: int, offset: int, wbuffer: Bytes, length: int, ghost data: Bytes)
        returns (r: Result<(), WriteFailure>)
      requires Usable() && Owns(fileHandle) && Writable(offset, wbuffer, length, data)
      modifies this`cache, this`flushingBuffers, this`jobs, this`err, this`state, this`trace, this`bufs, bufs,
          Arrays(), deduper.remote
      ensures chunkSize > 0
      ensures Valid() && (r != Failure(Panic) ==> Usable()) && old(bufs) <= bufs && old(trace) <= trace
      ensures forall b :: b in bufs && b !in old(bufs) ==> fresh(b) && fresh(b.buffer)
      ensures old(err.Some?) ==> r == Failure(FileError(old(err).value)) && trace == old(trace) && err == old(err)
      ensures old(err.None?) ==> (r == Failure(Panic) <==> !EndFits(chunkSize, offset, |data|))
      ensures old(err.None?) && r != Failure(Panic) ==>
                && r == Success(()) && WritingOnly(trace[|old(trace)|..])
                && WritesOf(trace[|old(trace)|..]) == Pieces(chunkSize, offset, data, 0)
      ensures OthersKept(old(deduper.remote.state), deduper.remote.state, File())
      ensures StoreOk(deduper.codec, deduper.remote.state)
    {
      UsableIsValid();
      assert chunkSize > 0;
      hide Settled, Matches, OthersKept, Good, EndFits, Writable, WritesOf, WritingOnly;
      r := Write(fileHandle, offset, wbuffer, length, data);
      UsableIsValid();
    }
  }

  method CopyBytes(a: array<byte>, at: int, piece: Bytes)
    requires 0 <= at && at + |piece| <= a.Length
    modifies a
    ensures a[..] == Splice(old(a[..]), at, piece)
  {
    forall k | 0 <= k < |piece| {
      a[at + k] := piece[k];
    }
  }
}

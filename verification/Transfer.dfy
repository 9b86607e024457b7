/** The transfer loops of the client: Upload writes a local file block by block, Download reads one back. */
module Transfer {
  import opened Bytes
  import opened FileMachine
  import opened FileInvariants
  import opened ViewRefinement
  import opened SequentialUpload
  import opened WritePieces
  import opened Engine
  import opened Histories
  import opened Storage
  import Flush
  import Quiescence

  // ----- Runs of a synced file -----

  /** A run of contiguous writes in which no attempt fails is an upload run. */
  lemma {:induction false} RunIsUpload<Id>(s: State<Id>, steps: seq<Step<Id>>, src: Bytes, data: Bytes)
    requires Runs(s, steps) && NeverFailed(steps) && Partition(WritesOf(steps), |src|, data)
    ensures UploadRun(s, steps, src)
    decreases |steps|
  {
    if steps != [] {
      var w := WritesOf(steps);
      var step := steps[0];
      assert forall i :: 0 <= i < |steps| - 1 ==> steps[1..][i] == steps[i + 1];
      if step.Locate? {
        assert w[0] == Piece(step.pos, step.bytes) && w[1..] == WritesOf(steps[1..]);
        RunIsUpload(Apply(s, step), steps[1..], src + step.bytes, data[|step.bytes|..]);
      } else {
        assert w == WritesOf(steps[1..]);
        RunIsUpload(Apply(s, step), steps[1..], src, data);
      }
    }
  }

  /**
   * A new file, contiguous writes of `src` with Syncs anywhere among them, no failed attempt: when a Sync has
   * returned nil, the server has exactly `src`.
   */
  lemma UploadedExactly<Id>(chunkSize: int, bufferSize: int, steps: seq<Step<Id>>, src: Bytes)
    requires chunkSize > 0 && bufferSize > 0
    requires Runs(Opened(chunkSize, bufferSize, map[]), steps + [SyncReturn])
    requires NeverFailed(steps) && Partition(WritesOf(steps), 0, src)
    ensures HoldsExactly(Exec(Opened(chunkSize, bufferSize, map[]), steps + [SyncReturn]).server, chunkSize, src)
  {
    hide Enabled, Apply, WritesOf, Partition, HoldsExactly, UploadRun;
    var o: State<Id> := Opened(chunkSize, bufferSize, map[]);
    RunsSplit(o, steps, [SyncReturn]);
    RunIsUpload(o, steps, [], src);
    UploadIsExact(chunkSize, bufferSize, steps);
    PartitionUploads(steps, [], src);
    assert [] + src == src;
    LastStep(Exec(o, steps));
  }

  /** A Sync makes no writes. */
  lemma SyncWritesNothing<Id>(writes: seq<Step<Id>>, all: seq<Step<Id>>)
    requires Synced(writes, all, true)
    ensures all != [] && all == all[..|all| - 1] + [SyncReturn]
    ensures WritesOf(all[..|all| - 1]) == WritesOf(writes)
  {
    var front := all[..|all| - 1];
    var syncing := front[|writes|..];
    assert front == writes + syncing;
    assert forall i :: 0 <= i < |syncing| ==> syncing[i] == front[|writes| + i];
    WorkersWriteNothing(syncing);
    WritesAppend(writes, syncing);
    assert WritesOf(writes) + [] == WritesOf(writes);
  }

  lemma LastStep<Id>(t: State<Id>)
    requires Runs(t, [SyncReturn])
    ensures Enabled(t, SyncReturn) && Exec(t, [SyncReturn]).server == t.server
  {
    assert Exec(t, [SyncReturn]) == Exec(Apply(t, SyncReturn), []);
  }

  /** The flat file after two runs is the second one's writes over the first one's. */
  lemma {:induction false} ReplayAppend<Id>(a: seq<Step<Id>>, b: seq<Step<Id>>, p: int, x: byte)
    ensures Replay(a + b, p, x) == Replay(b, p, Replay(a, p, x))
    decreases |a|
  {
    if a == [] {
      assert a + b == b;
    } else {
      assert (a + b)[0] == a[0] && (a + b)[1..] == a[1..] + b;
      ReplayAppend(a[1..], b, p, if Covers(a[0], p) then a[0].bytes[p - a[0].pos] else x);
    }
  }

  /**
   * Write, Sync, read, after any earlier history: on any schedule that keeps the file exact, the server
   * returns the bytes written where they were written, and elsewhere what the earlier writes made of the file.
   */
  lemma WrittenIsReadBack(f: DedupeFile, before: seq<Step<DedupeBuffer?>>, steps: seq<Step<DedupeBuffer?>>,
      offset: int, data: Bytes, p: int)
    requires f.Valid() && f.trace == before + steps + [SyncReturn] && ExactRun(f.Start(), before + steps)
    requires offset >= 0 && WritesOf(steps) == Pieces(f.chunkSize, offset, data, 0) && p >= 0
    ensures ServerByte(Blocks(f.deduper.remote.state, f.File()), f.chunkSize, p) ==
            if offset <= p < offset + |data| then data[p - offset]
            else Replay(before, p, ServerByte(f.stored, f.chunkSize, p))
  {
    SyncedIsFlat(f, before + steps, p);
    var x := ServerByte(f.stored, f.chunkSize, p);
    ReplayAppend(before, steps, p, x);
    WriteReplays(f.chunkSize, offset, data, steps, p, Replay(before, p, x));
  }

  /** A file whose last step was a Sync that returned nil: on an exact history the server alone has the flat file. */
  lemma SyncedIsFlat(f: DedupeFile, steps: seq<Step<DedupeBuffer?>>, p: int)
    requires f.Valid() && f.trace == steps + [SyncReturn] && ExactRun(f.Start(), steps) && p >= 0
    ensures ServerByte(Blocks(f.deduper.remote.state, f.File()), f.chunkSize, p) == Replay(steps, p,
        ServerByte(f.stored, f.chunkSize, p))
  {
    RunsSplit(f.Start(), steps, [SyncReturn]);
    SyncedFileIsTheFlatFile(f.chunkSize, f.bufferSize, f.stored, steps, p);
    LastStep(Exec(f.Start(), steps));
  }

  lemma SyncedIsFlatEverywhere(f: DedupeFile, steps: seq<Step<DedupeBuffer?>>)
    requires f.Valid() && f.trace == steps + [SyncReturn] && ExactRun(f.Start(), steps)
    ensures f.chunkSize > 0
    ensures forall p: nat ::
      ServerByte(Blocks(f.deduper.remote.state, f.File()), f.chunkSize, p)
        == Replay(steps, p, ServerByte(f.stored, f.chunkSize, p))
  {
    assert f.chunkSize > 0;
    hide DedupeFile.Good, DedupeFile.Environment, ExactRun, ServerByte, Replay, Blocks;
    forall p: nat
      ensures ServerByte(Blocks(f.deduper.remote.state, f.File()), f.chunkSize, p)
        == Replay(steps, p, ServerByte(f.stored, f.chunkSize, p))
    {
      SyncedIsFlat(f, steps, p);
    }
  }

  lemma {:induction false} PartitionAppend(a: seq<Piece>, b: seq<Piece>, from: int, x: Bytes, y: Bytes)
    requires Partition(a, from, x) && Partition(b, from + |x|, y)
    ensures Partition(a + b, from, x + y)
    decreases |a|
  {
    if a == [] {
      assert a + b == b && x + y == y;
    } else {
      var n := |a[0].bytes|;
      PartitionAppend(a[1..], b, from + n, x[n..], y);
      assert (a + b)[1..] == a[1..] + b && (x + y)[n..] == x[n..] + y;
      assert (x + y)[..n] == x[..n];
    }
  }

  // ----- Upload -----

  /** The local file.  A read may be short; one that returns nothing before the end of the file has failed. */
  class SourceFile {
    const data: Bytes
    var pos: int
    ghost var failed: bool

    constructor (data: Bytes)
      ensures this.data == data && pos == 0 && !failed
    {
      this.data, pos, failed := data, 0, false;
    }

    method Read(b1: array<byte>) returns (n1: int)
      requires 0 <= pos <= |data|
      modifies this, b1
      ensures 0 <= n1 <= b1.Length && pos == old(pos) + n1 <= |data|
      ensures b1[..n1] == data[old(pos)..pos]
      ensures failed <==> old(failed) || (n1 == 0 && pos < |data|)
    {
      var most := if b1.Length <= |data| - pos then b1.Length else |data| - pos;
      n1 := *;
      if n1 < 0 || n1 > most {
        n1 := most;
      }
      forall k | 0 <= k < n1 {
        b1[k] := data[pos + k];
      }
      assert forall k :: 0 <= k < n1 ==> b1[..n1][k] == data[pos..pos + n1][k];
      pos := pos + n1;
      failed := failed || (n1 == 0 && pos < |data|);
    }
  }

  /** The file holds what was read from the source so far, written in order from 0. */
  ghost predicate UploadedTo<Id>(trace: seq<Step<Id>>, data: Bytes, offset: int) {
    0 <= offset <= |data| && WritingOnly(trace) && Partition(WritesOf(trace), 0, data[..offset])
  }

  /** A block of at most `most` bytes is refused for the file's error only, or when its end may not be an int32. */
  ghost predicate Refused(file: DedupeFile, e: WriteFailure, most: int)
    reads file`err
  {
    match e
    case Panic => most + file.chunkSize > TWO_TO_THE_31
    case FileError(error) => file.err == Some(error)
  }

  /** With a server that answers, no attempt ever fails, and the file never has an error. */
  lemma AnsweringNeverFails(file: DedupeFile)
    requires file.Valid() && file.Answering()
    ensures NeverFailed(file.trace) && file.err.None?
  {
    hide DedupeFile.Answering, DedupeFile.Environment, Inv, DedupeFile.Handled;
    Quiescence.NoFailureNoError(file.chunkSize, file.bufferSize, file.stored, file.trace);
  }

  /** One block of the upload: the buffer is copied and written at the offset. */
  method UploadBlock(file: DedupeFile, fh: int, s: Bytes, offset: int, ghost data: Bytes)
      returns (r: Result<(), WriteFailure>)
    requires file.Owns(fh)
    requires file.Valid() && file.state.client.Idle? && UploadedTo(file.trace, data, offset)
    requires |s| < TWO_TO_THE_31 && offset + |s| <= |data| && s == data[offset..offset + |s|]
    modifies file`cache, file`flushingBuffers, file`jobs, file`err, file`state, file`trace, file`bufs, file.bufs,
        file.Arrays(), file.deduper.remote
    ensures file.Valid() && old(file.bufs) <= file.bufs
    ensures forall b :: b in file.bufs && b !in old(file.bufs) ==> fresh(b) && fresh(b.buffer)
    ensures r != Failure(Panic) ==> file.state.client.Idle?
    ensures r.Success? ==> UploadedTo(file.trace, data, offset + |s|)
    ensures r.Failure? ==> Refused(file, r.error, |s|)
  {
    ghost var was := file.trace;
    r := file.Write(fh, offset, s, |s|, s);
    if r.Success? {
      UploadGrows(was, file.trace, file.chunkSize, data, offset, s);
    }
  }

  lemma UploadGrows<Id>(was: seq<Step<Id>>, now: seq<Step<Id>>, chunkSize: int, data: Bytes, offset: int, s: Bytes)
    requires UploadedTo(was, data, offset) && chunkSize > 0
    requires offset + |s| <= |data| && s == data[offset..offset + |s|]
    requires was <= now && WritingOnly(now[|was|..]) && WritesOf(now[|was|..]) == Pieces(chunkSize, offset, s, 0)
    ensures UploadedTo(now, data, offset + |s|)
  {
    var more := now[|was|..];
    assert now == was + more;
    WritesAppend(was, more);
    PiecesTile(chunkSize, offset, s, 0);
    assert s[0..] == s;
    PartitionAppend(WritesOf(was), WritesOf(more), 0, data[..offset], s);
    assert data[..offset] + s == data[..offset + |s|];
  }

  /** One read and, unless it came back empty, one write; the first block is written in any case. */
  method CopyBlock(file: DedupeFile, fh: int, r: SourceFile, b1: array<byte>, first: bool)
      returns (n1: int, w: Result<(), WriteFailure>)
    requires file.Owns(fh)
    requires file.Valid() && file.state.client.Idle? && UploadedTo(file.trace, r.data, r.pos)
    requires b1.Length < TWO_TO_THE_31 && 0 <= r.pos <= |r.data| && b1 !in file.Arrays()
    modifies file`cache, file`flushingBuffers, file`jobs, file`err, file`state, file`trace, file`bufs, file.bufs,
        file.Arrays(), file.deduper.remote, r, b1
    ensures file.Valid() && old(file.bufs) <= file.bufs
    ensures forall b :: b in file.bufs && b !in old(file.bufs) ==> fresh(b) && fresh(b.buffer)
    ensures 0 <= n1 && r.pos == old(r.pos) + n1 <= |r.data|
    ensures r.failed <==> old(r.failed) || (n1 == 0 && r.pos < |r.data|)
    ensures w != Failure(Panic) ==> file.state.client.Idle?
    ensures w.Success? ==> UploadedTo(file.trace, r.data, r.pos)
    ensures w.Failure? ==> Refused(file, w.error, b1.Length)
  {
    hide Inv, Runs, Exec, Lossless, CollisionFree, Honest, StoreOk, Blocks, Flush.ChunkerOk, UploadedTo;
    ghost var offset := r.pos;
    n1 := r.Read(b1);
    w := Success(());
    if n1 > 0 || first {
      var s := b1[..n1];
      w := UploadBlock(file, fh, s, r.pos - n1, r.data);
    }
  }

  /**
   * Upload's loop.  The first block is written even when it is empty; every later read of nothing ends the
   * loop, whether or not it was the end of the file, so the final offset is the source's length exactly
   * when no read failed.
   */
  method Upload(file: DedupeFile, fh: int, r: SourceFile, blockSize: int) returns (res: Result<int, WriteFailure>)
    requires file.Owns(fh)
    requires file.Valid() && file.state.client.Idle? && file.trace == []
    requires r.pos == 0 && !r.failed && 1 <= blockSize && blockSize * 1024 < TWO_TO_THE_31
    modifies file`cache, file`flushingBuffers, file`jobs, file`err, file`state, file`trace, file`bufs, file.bufs,
        file.Arrays(), file.deduper.remote, r
    ensures file.Valid() && old(file.bufs) <= file.bufs
    ensures forall b :: b in file.bufs && b !in old(file.bufs) ==> fresh(b) && fresh(b.buffer)
    ensures res != Failure(Panic) ==> file.state.client.Idle?
    ensures res.Success? ==>
              && UploadedTo(file.trace, r.data, res.value)
              && (res.value == |r.data| <==> !r.failed)
    ensures res.Failure? ==> Refused(file, res.error, blockSize * 1024)
  {
    NothingUploaded(file.trace, r.data);
    hide Inv, Runs, Exec, Lossless, CollisionFree, Honest, StoreOk, Blocks, Flush.ChunkerOk, UploadedTo;
    var b1 := new byte[blockSize * 1024];
    var n1, w := CopyBlock(file, fh, r, b1, true);
    var offset := n1;
    if w.Failure? {
      return Failure(w.error);
    }
    while n1 > 0
      invariant file.Valid() && old(file.bufs) <= file.bufs && b1 !in file.Arrays()
      invariant forall b :: b in file.bufs && b !in old(file.bufs) ==> fresh(b) && fresh(b.buffer)
      invariant file.state.client.Idle? && UploadedTo(file.trace, r.data, r.pos)
      invariant 0 <= n1 && 0 <= offset == r.pos <= |r.data|
      invariant r.failed <==> n1 == 0 && r.pos < |r.data|
      decreases |r.data| - r.pos, n1
    {
      n1, w := CopyBlock(file, fh, r, b1, false);
      offset := offset + n1;
      if w.Failure? {
        return Failure(w.error);
      }
    }
    res := Success(offset);
  }

  lemma NothingUploaded<Id>(trace: seq<Step<Id>>, data: Bytes)
    requires trace == []
    ensures UploadedTo(trace, data, 0)
  {
  }

  /**
   * A file that was written contiguously from its start, with Syncs anywhere and without a failed attempt:
   * when a Sync has just returned nil, the server has exactly the bytes written.
   */
  lemma AppendedIsOnServer(file: DedupeFile, data: Bytes)
    requires file.Valid() && file.stored == map[] && NeverFailed(file.trace)
    requires file.trace != [] && file.trace[|file.trace| - 1].SyncReturn?
    requires Partition(WritesOf(file.trace[..|file.trace| - 1]), 0, data)
    ensures file.chunkSize > 0
    ensures HoldsExactly(Blocks(file.deduper.remote.state, file.File()), file.chunkSize, data)
  {
    var steps := file.trace[..|file.trace| - 1];
    assert file.trace == steps + [SyncReturn];
    assert forall i :: 0 <= i < |steps| ==> steps[i] == file.trace[i];
    hide Runs, Exec, Lossless, CollisionFree, Honest, StoreOk, Blocks, Flush.ChunkerOk, HoldsExactly, Partition,
        WritesOf;
    UploadedExactly(file.chunkSize, file.bufferSize, steps, data);
  }

  lemma FileIsUploaded(file: DedupeFile, writes: seq<Step<DedupeBuffer?>>, data: Bytes, offset: int)
    requires file.Valid() && file.stored == map[] && NeverFailed(file.trace) && Synced(writes, file.trace, true)
    requires UploadedTo(writes, data, offset)
    ensures 0 <= offset <= |data| && file.chunkSize > 0
    ensures HoldsExactly(Blocks(file.deduper.remote.state, file.File()), file.chunkSize, data[..offset])
  {
    SyncWritesNothing(writes, file.trace);
    AppendedIsOnServer(file, data[..offset]);
  }

  lemma GaveUpLater(file: DedupeFile, was: seq<Step<DedupeBuffer?>>, then_: seq<Step<DedupeBuffer?>>,
      now: seq<Step<DedupeBuffer?>>, handled: bool)
    requires was <= then_
    ensures file.GaveUp(then_, now, handled) ==> file.GaveUp(was, now, handled)
  {
    hide DedupeFile.Waiting;
    if file.GaveUp(then_, now, handled) {
      var n: nat :| |then_| <= n <= |now| && file.Waiting(now[..n], handled);
    }
  }

  /**
   * Upload and the Release that follows it, after a failed write too, but not after a panic.  Upload ignores
   * whether Release's Sync succeeded; when it did, no attempt failed and the file was new, the server holds
   * exactly what was read from the source.  It did not only after a panic, after a file error, which is still
   * there, or when an entry stayed through the wait.
   */
  method UploadAndRelease(file: DedupeFile, fh: int, r: SourceFile, blockSize: int)
      returns (res: Result<int, WriteFailure>, synced: bool)
    requires file.Valid() && file.state.client.Idle? && file.trace == [] && file.Owns(fh) && fh in file.fileHandles
    requires r.pos == 0 && !r.failed && 1 <= blockSize && blockSize * 1024 < TWO_TO_THE_31
    modifies file`cache, file`flushingBuffers, file`jobs, file`err, file`state, file`trace, file`bufs, file.bufs,
        file.Arrays(), file.deduper.remote, r
    ensures file.Valid()
    ensures res.Success? ==> (res.value == |r.data| <==> !r.failed)
    ensures synced ==> file.err.None? && file.flushingBuffers == map[]
    ensures !synced ==> res == Failure(Panic) || file.err.Some? || file.GaveUp([], file.trace, true)
    ensures res == Failure(Panic) ==> Refused(file, Panic, blockSize * 1024)
    ensures res.Failure? && res != Failure(Panic) ==> file.err.Some?
    ensures file.Answering() ==> NeverFailed(file.trace) && file.err.None?
    ensures res.Success? && synced && file.stored == map[] && NeverFailed(file.trace) ==>
              0 <= res.value <= |r.data| && file.chunkSize > 0
              && HoldsExactly(Blocks(file.deduper.remote.state, file.File()), file.chunkSize, r.data[..res.value])
  {
    hide Inv, Runs, Exec, Lossless, CollisionFree, Honest, StoreOk, Flush.ChunkerOk, UploadedTo, WritingOnly,
        Partition, HoldsExactly, NeverFailed, Blocks, Synced, OthersKept, DedupeFile.Good, DedupeFile.Environment,
        DedupeFile.GaveUp, DedupeFile.Answering;
    res := Upload(file, fh, r, blockSize);
    synced := false;
    if file.Answering() { AnsweringNeverFails(file); }
    if res != Failure(Panic) {
      ghost var writes := file.trace;
      synced := file.Sync();
      if file.Answering() { AnsweringNeverFails(file); }
      GaveUpLater(file, [], writes, file.trace, true);
      if res.Success? && synced && file.stored == map[] && NeverFailed(file.trace) {
        FileIsUploaded(file, writes, r.data, res.value);
      }
    }
  }

  // ----- Download -----

  datatype Request = Request(start: int, len: int)

  /** The requests follow one another from `from` to `to`, none empty and none longer than `most`. */
  ghost predicate Covering(requests: seq<Request>, from: int, to: int, most: int) {
    if requests == [] then from == to
    else
      var last := requests[|requests| - 1];
      && 0 < last.len <= most && last.start + last.len == to
      && Covering(requests[..|requests| - 1], from, last.start, most)
  }

  /** The service's Read, as a function of the request: an error, or some bytes. */
  type ReadCall = Request -> Result<Bytes, Error>

  ghost function EndOf(requests: seq<Request>): int {
    if requests == [] then 0 else requests[|requests| - 1].start + requests[|requests| - 1].len
  }

  /** A server that returns exactly what was asked for. */
  ghost predicate Serves(read: ReadCall, content: Bytes) {
    forall q: Request :: 0 <= q.start && 0 <= q.len && q.start + q.len <= |content| ==>
      read(q) == Success(content[q.start..q.start + q.len])
  }

  ghost function Replies(read: ReadCall, requests: seq<Request>): Bytes {
    if requests == [] then []
    else
      var r := read(requests[|requests| - 1]);
      Replies(read, requests[..|requests| - 1]) + if r.Success? then r.value else []
  }

  /** However the range is cut into requests, an exact server's replies put together are the content. */
  lemma {:induction false} RepliesAreTheContent(read: ReadCall, content: Bytes, requests: seq<Request>, to: int,
      most: int)
    requires Serves(read, content) && Covering(requests, 0, to, most) && to <= |content|
    ensures 0 <= to && Replies(read, requests) == content[..to]
    decreases |requests|
  {
    if requests != [] {
      var n := |requests| - 1;
      var last := requests[n];
      RepliesAreTheContent(read, content, requests[..n], last.start, most);
      assert read(last) == Success(content[last.start..to]);
      assert content[..last.start] + content[last.start..to] == content[..to];
    }
  }

  /** Download's loop: `out` is the local file. */
  method Download(read: ReadCall, length: int, blockSize: int)
      returns (res: Result<int, Error>, out: Bytes, ghost requests: seq<Request>)
    requires 0 <= blockSize && blockSize * 1024 < TWO_TO_THE_31
    ensures res.Success? ==>
              && res.value == (if length > 0 && blockSize > 0 then length else 0)
              && Covering(requests, 0, res.value, blockSize * 1024) && out == Replies(read, requests)
              && forall i :: 0 <= i < |requests| ==> read(requests[i]).Success?
    ensures forall i :: 0 <= i < |requests| - 1 ==> requests[i].len == blockSize * 1024
    ensures res.Failure? ==>
              && requests != [] && read(requests[|requests| - 1]) == Failure(res.error)
              && Covering(requests, 0, EndOf(requests), blockSize * 1024) && EndOf(requests) <= length
              && forall i :: 0 <= i < |requests| - 1 ==> read(requests[i]).Success?
    ensures forall content :: Serves(read, content) && 0 <= length <= |content| && blockSize > 0 ==>
              res == Success(length) && out == content[..length]
  {
    var done := 0;
    var blocksize := blockSize * 1024;
    out, requests := [], [];
    while done < length
      invariant 0 <= done && (length > 0 ==> done <= length) && (length <= 0 || blockSize == 0 ==> done == 0)
      invariant 0 <= blocksize <= blockSize * 1024 && (done < length && blockSize > 0 ==> blocksize > 0)
      invariant Covering(requests, 0, done, blockSize * 1024) && out == Replies(read, requests)
      invariant forall i :: 0 <= i < |requests| ==> read(requests[i]).Success?
      invariant forall i :: 0 <= i < |requests| - 1 ==> requests[i].len == blockSize * 1024
      invariant done < length && requests != [] ==> requests[|requests| - 1].len == blockSize * 1024 == blocksize
      invariant requests == [] ==> blocksize == blockSize * 1024
      decreases length - done
    {
      if blocksize > length - done {
        blocksize := length - done;
      }
      if blocksize == 0 {
        break;
      }
      var q := Request(done, Int32(blocksize));
      var rdr := read(q);
      assert (requests + [q])[..|requests|] == requests;
      requests := requests + [q];
      if rdr.Failure? {
        forall content ensures !(Serves(read, content) && length <= |content|) {
          assert q.start + q.len <= length;
        }
        return Failure(rdr.error), out, requests;
      }
      out := out + rdr.value;
      done := done + blocksize;
    }
    res := Success(done);
    forall content | Serves(read, content) && 0 <= length <= |content|
        && blockSize > 0 ensures out == content[..length] {
      RepliesAreTheContent(read, content, requests, length, blockSize * 1024);
    }
  }

  // ----- Read -----

  /** A range of the flat file. */
  ghost function Flat<Id>(stored: map<int, Bytes>, chunkSize: int, steps: seq<Step<Id>>, start: nat, len: nat): Bytes
    requires chunkSize > 0
  {
    seq(len, k requires 0 <= k < len => Replay(steps, start + k, ServerByte(stored, chunkSize, start + k)))
  }

  /**
   * Read: Sync first, then ask the service.  After a history that kept the file exact, a service that answers
   * from the file's blocks returns the range of the flat file: every write made, the last one winning.
   */
  method Read(file: DedupeFile, read: ReadCall, offset: nat, length: nat) returns (r: Option<Result<Bytes, Error>>)
    requires file.Valid() && file.state.client.Idle? && file.fileHandles != {}
    modifies file`cache, file`flushingBuffers, file`jobs, file`err, file`state, file`trace, file.bufs,
        file.deduper.remote
    ensures file.Valid() && file.state.client.Idle?
    ensures old(file.err.Some?) ==> r == None
    ensures r.None? ==> file.err.Some? || file.GaveUp(old(file.trace), file.trace, true)
    ensures r.Some? ==>
              r.value == read(Request(offset, length)) && Returned(file) && ReadsFlat(file, read, offset, length)
  {
    hide ReadsFlat, DedupeFile.GaveUp;
    var nil := file.Sync();
    if !nil {
      return None;
    }
    ReadIsFlat(file, read, offset, length);
    r := Some(read(Request(offset, length)));
  }

  /** A Sync of the file has just returned nil. */
  ghost predicate Returned(file: DedupeFile)
    reads file`trace
  {
    file.trace != [] && file.trace[|file.trace| - 1].SyncReturn?
  }

  /** On an exact history, and from the file's blocks, the service reads the range of the flat file. */
  ghost predicate ReadsFlat(file: DedupeFile, read: ReadCall, offset: nat, length: nat)
    requires Returned(file)
    reads file`trace, file.deduper.remote
  {
    var steps := file.trace[..|file.trace| - 1];
    var server := Blocks(file.deduper.remote.state, file.File());
    && file.chunkSize > 0
    && (ExactRun(file.Start(), steps) && ServedFrom(read, server, file.chunkSize, offset + length) ==>
          read(Request(offset, length)) == Success(Flat(file.stored, file.chunkSize, steps, offset, length)))
  }

  lemma ReadIsFlat(file: DedupeFile, read: ReadCall, offset: nat, length: nat)
    requires file.Valid() && Returned(file)
    ensures ReadsFlat(file, read, offset, length)
  {
    var steps := file.trace[..|file.trace| - 1];
    var server := Blocks(file.deduper.remote.state, file.File());
    assert file.chunkSize > 0;
    hide Inv, Runs, Exec, Lossless, CollisionFree, Honest, StoreOk, Blocks, Flush.ChunkerOk, Enabled, Apply, ServerByte;
    if ExactRun(file.Start(), steps) && ServedFrom(read, server, file.chunkSize, offset + length) {
      SyncedRange(file, steps, offset, length);
      ServedRange(read, server, file.chunkSize, offset + length, offset, length);
    }
  }

  lemma ServedRange(read: ReadCall, server: map<int, Bytes>, chunkSize: int, size: int, offset: nat, length: nat)
    requires ServedFrom(read, server, chunkSize, size) && offset + length <= size
    ensures read(Request(offset, length)) == Success(Range(server, chunkSize, offset, length))
  {
    var q := Request(offset, length);
    assert read(q) == Success(Range(server, chunkSize, q.start, q.len));
  }

  lemma SyncedRange(file: DedupeFile, steps: seq<Step<DedupeBuffer?>>, offset: nat, length: nat)
    requires file.Valid() && Returned(file) && steps == file.trace[..|file.trace| - 1] && file.chunkSize > 0
    requires ExactRun(file.Start(), steps)
    ensures Range(Blocks(file.deduper.remote.state, file.File()), file.chunkSize, offset, length)
         == Flat(file.stored, file.chunkSize, steps, offset, length)
  {
    assert file.trace == steps + [SyncReturn];
    hide Inv, Runs, Exec, Lossless, CollisionFree, Honest, StoreOk, Blocks, Flush.ChunkerOk, ExactRun, ServerByte;
    SyncedIsFlatEverywhere(file, steps);
    FlatRange(Blocks(file.deduper.remote.state, file.File()), file.chunkSize, file.stored, steps, offset, length);
  }

  lemma FlatRange<Id>(server: map<int, Bytes>, chunkSize: int, stored: map<int, Bytes>, steps: seq<Step<Id>>,
      offset: nat, length: nat)
    requires chunkSize > 0
    requires forall p: nat :: ServerByte(server, chunkSize, p) == Replay(steps, p, ServerByte(stored, chunkSize, p))
    ensures Range(server, chunkSize, offset, length) == Flat(stored, chunkSize, steps, offset, length)
  {
    hide ServerByte, Replay;
    var a := Range(server, chunkSize, offset, length);
    var b := Flat(stored, chunkSize, steps, offset, length);
    forall k | 0 <= k < length ensures a[k] == b[k] {
      var p: nat := offset + k;
      assert ServerByte(server, chunkSize, p) == Replay(steps, p, ServerByte(stored, chunkSize, p));
    }
  }

  /**
   * Contiguous writes and reads in any order: each read, which syncs first, returns the bytes written there,
   * whatever the schedule, as long as no attempt failed and the service answers from the file's blocks.
   */
  lemma AppendedIsReadBack(file: DedupeFile, read: ReadCall, data: Bytes, offset: nat, length: nat)
    requires file.Valid() && file.stored == map[] && NeverFailed(file.trace) && Returned(file)
    requires Partition(WritesOf(file.trace[..|file.trace| - 1]), 0, data) && offset + length <= |data|
    requires ServedFrom(read, Blocks(file.deduper.remote.state, file.File()), file.chunkSize, |data|)
    ensures read(Request(offset, length)) == Success(data[offset..offset + length])
  {
    hide Inv, Runs, Exec, Lossless, CollisionFree, Honest, StoreOk, Blocks, Flush.ChunkerOk;
    hide HoldsExactly, ServedFrom, NeverFailed, Partition, WritesOf;
    AppendedIsOnServer(file, data);
    ExactBlocksServe(Blocks(file.deduper.remote.state, file.File()), file.chunkSize, data, read);
    var q := Request(offset, length);
    assert read(q) == Success(data[q.start..q.start + q.len]);
  }

  // ----- Upload, then download -----

  /** What the server's blocks give for a range of the file. */
  ghost function Range(server: map<int, Bytes>, chunkSize: int, start: nat, len: nat): Bytes
    requires chunkSize > 0
  {
    seq(len, k requires 0 <= k < len => ServerByte(server, chunkSize, start + k))
  }

  lemma ExactByteOfBlock(server: map<int, Bytes>, chunkSize: int, src: Bytes, p: int)
    requires chunkSize > 0 && HoldsExactly(server, chunkSize, src) && 0 <= p < |src|
    ensures ServerByte(server, chunkSize, p) == src[p]
  {
    var off := BlockOf(chunkSize, p);
    BlockOfIsAligned(chunkSize, p);
    hide BlockOf, Aligned;
    assert off in server && server[off] == src[off..Min(off + chunkSize, |src|)];
  }

  lemma ExactRange(server: map<int, Bytes>, chunkSize: int, src: Bytes, start: nat, len: nat)
    requires chunkSize > 0 && HoldsExactly(server, chunkSize, src) && start + len <= |src|
    ensures Range(server, chunkSize, start, len) == src[start..start + len]
  {
    var got := Range(server, chunkSize, start, len);
    hide HoldsExactly, ServerByte;
    forall k | 0 <= k < len ensures got[k] == src[start + k] {
      ExactByteOfBlock(server, chunkSize, src, start + k);
    }
  }

  /** A server whose blocks are exactly the source serves the source. */
  lemma ExactBlocksServe(server: map<int, Bytes>, chunkSize: int, src: Bytes, read: ReadCall)
    requires ServedFrom(read, server, chunkSize, |src|) && HoldsExactly(server, chunkSize, src)
    ensures Serves(read, src)
  {
    forall q: Request | 0 <= q.start && 0 <= q.len && q.start + q.len <= |src|
      ensures read(q) == Success(src[q.start..q.start + q.len])
    {
      ExactRange(server, chunkSize, src, q.start, q.len);
    }
  }

  /**
   * Upload to a new file, release, download: the same bytes come back, whatever the block sizes of the two transfers.
   */
  method UploadThenDownload(file: DedupeFile, fh: int, r: SourceFile, upSize: int, downSize: int, read: ReadCall,
      length: int)
    returns (synced: bool, res: Result<int, Error>, out: Bytes)
    requires file.Valid() && file.state.client.Idle? && file.trace == [] && file.Owns(fh) && fh in file.fileHandles
        && file.stored == map[]
    requires r.pos == 0 && !r.failed && 1 <= upSize && upSize * 1024 < TWO_TO_THE_31
    requires 1 <= downSize && downSize * 1024 < TWO_TO_THE_31 && length == |r.data|
    modifies file`cache, file`flushingBuffers, file`jobs, file`err, file`state, file`trace, file`bufs, file.bufs,
        file.Arrays(), file.deduper.remote, r
    ensures file.Valid()
    ensures !synced ==>
      Refused(file, Panic, upSize * 1024) || file.err.Some? || file.GaveUp([], file.trace, true)
    ensures file.Answering() ==> NeverFailed(file.trace) && file.err.None?
    ensures synced && NeverFailed(file.trace) && !r.failed ==>
              RoundTrip(read, Blocks(file.deduper.remote.state, file.File()), file.chunkSize, r.data, res, out)
  {
    hide Inv, Runs, Exec, Lossless, CollisionFree, Honest, StoreOk, Blocks, Flush.ChunkerOk, HoldsExactly,
        NeverFailed, RoundTrip, DedupeFile.GaveUp, DedupeFile.Answering;
    var up;
    up, synced := UploadAndRelease(file, fh, r, upSize);
    synced := synced && up.Success?;
    assert r.data[..|r.data|] == r.data;
    res, out := DownloadBack(read, length, downSize, Blocks(file.deduper.remote.state, file.File()), file.chunkSize,
        r.data);
  }

  /** Downloading what a server holds exactly gives it back. */
  method DownloadBack(read: ReadCall, length: int, downSize: int, ghost server: map<int, Bytes>,
      ghost chunkSize: int, ghost src: Bytes) returns (res: Result<int, Error>, out: Bytes)
    requires 1 <= downSize && downSize * 1024 < TWO_TO_THE_31 && length == |src|
    ensures chunkSize > 0 && HoldsExactly(server, chunkSize, src) ==> RoundTrip(read, server, chunkSize, src, res, out)
  {
    hide HoldsExactly, RoundTrip, Covering, Replies, Serves;
    ghost var requests;
    res, out, requests := Download(read, length, downSize);
    assert src[..|src|] == src;
    if chunkSize > 0 && HoldsExactly(server, chunkSize, src) {
      Identity(server, chunkSize, src, read, res, out);
    }
  }

  /** If the service answers reads within the file from the file's blocks, the download is the source. */
  ghost predicate RoundTrip(read: ReadCall, server: map<int, Bytes>, chunkSize: int, src: Bytes, res: Result<int,
      Error>, out: Bytes) {
    ServedFrom(read, server, chunkSize, |src|) ==> res == Success(|src|) && out == src
  }

  /** The service answers reads within the file from the file's blocks. */
  ghost predicate ServedFrom(read: ReadCall, server: map<int, Bytes>, chunkSize: int, size: int) {
    chunkSize > 0 && forall q: Request :: 0 <= q.start && 0 <= q.len && q.start + q.len <= size ==>
      read(q) == Success(Range(server, chunkSize, q.start, q.len))
  }

  lemma Identity(server: map<int, Bytes>, chunkSize: int, src: Bytes, read: ReadCall, res: Result<int, Error>,
      out: Bytes)
    requires chunkSize > 0 && HoldsExactly(server, chunkSize, src)
    requires Serves(read, src) ==> res == Success(|src|) && out == src
    ensures RoundTrip(read, server, chunkSize, src, res, out)
  {
    if ServedFrom(read, server, chunkSize, |src|) {
      ExactBlocksServe(server, chunkSize, src, read);
    }
  }
}

/** What the history of a file looks like after a Write or a Sync, with the workers in between. */
module Histories {
  import opened Bytes
  import opened FileMachine
  import opened WritePieces
  import ViewRefinement

  /** The history went from `was` to `now` by steps of the workers alone. */
  ghost predicate ByWorkers<Id>(was: seq<Step<Id>>, now: seq<Step<Id>>) {
    was <= now && forall i :: |was| <= i < |now| ==> now[i].Worker()
  }

  lemma ByWorkersTrans<Id>(a: seq<Step<Id>>, b: seq<Step<Id>>, c: seq<Step<Id>>)
    requires ByWorkers(a, b) && ByWorkers(b, c)
    ensures ByWorkers(a, c)
  {
  }

  /** No attempt failed. */
  ghost predicate NeverFailed<Id>(steps: seq<Step<Id>>) {
    forall i :: 0 <= i < |steps| ==> ViewRefinement.NoFailedAttempt(steps[i])
  }

  lemma NeverFailedMore<Id>(steps: seq<Step<Id>>, step: Step<Id>)
    requires NeverFailed(steps) && (step.Finish? ==> step.outcome.Sent?)
    ensures NeverFailed(steps + [step])
  {
  }

  /** Steps of the client's writes and of the workers, among them exactly the write of `piece` at `pos`. */
  ghost predicate OneWrite<Id>(steps: seq<Step<Id>>, pos: int, piece: Bytes) {
    WritesOf(steps) == [Piece(pos, piece)] && WritingOnly(steps)
  }

  ghost predicate WritingOnly<Id>(steps: seq<Step<Id>>) {
    forall i :: 0 <= i < |steps| ==> steps[i].Locate? || steps[i].Copy? || steps[i].Raise? || steps[i].Worker()
  }

  lemma {:induction false} WorkersWriteNothing<Id>(steps: seq<Step<Id>>)
    requires forall i :: 0 <= i < |steps| ==> !steps[i].Locate?
    ensures WritesOf(steps) == []
    decreases |steps|
  {
    if steps != [] { WorkersWriteNothing(steps[1..]); }
  }

  lemma OneWriteMade<Id>(t0: seq<Step<Id>>, pos: int, piece: Bytes, spare: Id, t1: seq<Step<Id>>, t2: seq<Step<Id>>,
      t3: seq<Step<Id>>)
    requires ByWorkers(t0 + [Locate(pos, piece, spare)], t1) && ByWorkers(t1 + [Copy], t2)
        && ByWorkers(t2 + [Raise], t3)
    ensures t0 <= t3 && OneWrite(t3[|t0|..], pos, piece)
  {
    var steps := t3[|t0|..];
    assert forall i :: 0 <= i < |steps| ==> steps[i] == t3[|t0| + i];
    assert steps[0] == Locate(pos, piece, spare);
    WorkersWriteNothing(steps[1..]);
  }

  ghost predicate WritingSoFar<Id>(steps: seq<Step<Id>>, chunkSize: int, offset: int, data: Bytes, done: int) {
    && chunkSize > 0 && offset >= 0 && 0 <= done <= |data| && WritingOnly(steps)
    && WritesOf(steps) + Pieces(chunkSize, offset, data, done) == Pieces(chunkSize, offset, data, 0)
  }

  /** The length of the piece at `pos` when `left` bytes are still to be written. */
  function PieceLength(chunkSize: int, pos: int, left: int): int
    requires chunkSize > 0
  {
    if left + pos % chunkSize > chunkSize then chunkSize - pos % chunkSize else left
  }

  lemma ShortFits(chunkSize: int, pos: int)
    requires 0 < chunkSize < TWO_TO_THE_31
    ensures EndFits(chunkSize, pos, 0)
  {
  }

  lemma PieceFitsBlock(chunkSize: int, pos: int, left: int)
    requires chunkSize > 0 && pos >= 0 && left > 0
    ensures 0 < PieceLength(chunkSize, pos, left) <= left
    ensures pos - BlockOf(chunkSize, pos) + PieceLength(chunkSize, pos, left) <= chunkSize
  {
    PieceFits(chunkSize, pos, left);
  }

  lemma PieceFits(chunkSize: int, pos: int, left: int)
    requires chunkSize > 0 && pos >= 0 && left > 0
    ensures var n := PieceLength(chunkSize, pos, left);
      && 0 < n <= left && pos - BlockOf(chunkSize, pos) + n == pos % chunkSize + n <= chunkSize
      && (n < left ==> (pos + n) % chunkSize == 0)
  {
    ModIsFromBlock(chunkSize, pos);
    var n := PieceLength(chunkSize, pos, left);
    if n < left {
      var q := pos / chunkSize;
      assert pos + n == chunkSize * q + chunkSize == chunkSize * (q + 1);
      BlockOfUnique(chunkSize, pos + n, q + 1);
      ModIsFromBlock(chunkSize, pos + n);
    }
  }

  /** What Write's callers provide: an int32 length that the buffer covers; `data` names the bytes to be written. */
  ghost predicate Writable(offset: int, wbuffer: Bytes, length: int, data: Bytes) {
    && offset >= 0 && -TWO_TO_THE_31 <= length < TWO_TO_THE_31 && length <= |wbuffer|
    && data == if length > 0 then wbuffer[..length] else []
  }

  /**
   * The first `done` bytes of a Write of `data` at `offset` are written; the pieces after the first begin a block.
   */
  ghost predicate Progress<Id>(t0: seq<Step<Id>>, t: seq<Step<Id>>, chunkSize: int, offset: int, data: Bytes,
      done: int) {
    && t0 <= t && WritingSoFar(t[|t0|..], chunkSize, offset, data, done)
    && (0 < done < |data| ==> (offset + done) % chunkSize == 0)
    && (done > 0 ==> EndFits(chunkSize, offset, |data|))
  }

  lemma NoProgress<Id>(t: seq<Step<Id>>, chunkSize: int, offset: int, data: Bytes)
    requires chunkSize > 0 && offset >= 0
    ensures Progress(t, t, chunkSize, offset, data, 0)
  {
    assert t[|t|..] == [];
  }

  /** Where a piece at `pos` would end in its block, if all `left` bytes went there, is an int32. */
  ghost predicate EndFits(chunkSize: int, pos: int, left: int)
    requires chunkSize > 0
  {
    left + pos % chunkSize < TWO_TO_THE_31
  }

  /** No later piece's end overflows. */
  lemma OverflowsAtFirst<Id>(t0: seq<Step<Id>>, t: seq<Step<Id>>, chunkSize: int, offset: int, data: Bytes, done: int)
    requires Progress(t0, t, chunkSize, offset, data, done) && done < |data| < TWO_TO_THE_31
    ensures t0 <= t && chunkSize > 0 && offset >= 0
    ensures !EndFits(chunkSize, offset + done, |data| - done) <==> done == 0 && !EndFits(chunkSize, offset, |data|)
  {
  }

  lemma Advance<Id>(t0: seq<Step<Id>>, t1: seq<Step<Id>>, t2: seq<Step<Id>>, chunkSize: int, offset: int,
      data: Bytes, done: int, end: int)
    requires Progress(t0, t1, chunkSize, offset, data, done) && done < end <= |data| < TWO_TO_THE_31 && t1 <= t2
    requires chunkSize > 0 && (done == 0 ==> EndFits(chunkSize, offset, |data|))
    requires end - done == PieceLength(chunkSize, offset + done, |data| - done)
    requires OneWrite(t2[|t1|..], offset + done, data[done..end])
    ensures Progress(t0, t2, chunkSize, offset, data, end)
  {
    WroteOneMore(t0, t1, t2, chunkSize, offset, data, done);
    PieceFits(chunkSize, offset + done, |data| - done);
    hide PieceLength, WritingSoFar, OneWrite;
  }

  lemma WroteOneMore<Id>(t0: seq<Step<Id>>, t1: seq<Step<Id>>, t2: seq<Step<Id>>, chunkSize: int, offset: int,
      data: Bytes, done: int)
    requires t0 <= t1 <= t2 && WritingSoFar(t1[|t0|..], chunkSize, offset, data, done) && done < |data|
    requires var n := PieceLength(chunkSize, offset + done, |data| - done);
      0 < n && done + n <= |data| && OneWrite(t2[|t1|..], offset + done, data[done..done + n])
    ensures WritingSoFar(t2[|t0|..], chunkSize, offset, data,
        done + PieceLength(chunkSize, offset + done, |data| - done))
  {
    assert chunkSize > 0;
    hide WritingSoFar, OneWrite, PieceLength;
    assert t2[|t0|..] == t1[|t0|..] + t2[|t1|..];
    SoFarGrows(t1[|t0|..], t2[|t1|..], chunkSize, offset, data, done,
        PieceLength(chunkSize, offset + done, |data| - done));
  }

  lemma SoFarGrows<Id>(a: seq<Step<Id>>, b: seq<Step<Id>>, chunkSize: int, offset: int, data: Bytes, done: int,
      n: int)
    requires WritingSoFar(a, chunkSize, offset, data, done) && done < |data|
    requires n == PieceLength(chunkSize, offset + done, |data| - done)
    requires 0 < n && done + n <= |data| && OneWrite(b, offset + done, data[done..done + n])
    ensures WritingSoFar(a + b, chunkSize, offset, data, done + n)
  {
    hide Pieces, PieceLength, WritesOf, WritingOnly;
    NextPieceIs(chunkSize, offset, data, done);
    WritesAppend(a, b);
    WritingAppend(a, b);
    Reassociate(WritesOf(a), WritesOf(b), Pieces(chunkSize, offset, data, done + n));
  }

  lemma Reassociate<T>(x: seq<T>, y: seq<T>, z: seq<T>)
    ensures (x + y) + z == x + (y + z)
  {
  }

  lemma WritingAppend<Id>(a: seq<Step<Id>>, b: seq<Step<Id>>)
    requires WritingOnly(a) && WritingOnly(b)
    ensures WritingOnly(a + b)
  {
  }

  lemma NextPieceIs(chunkSize: int, offset: int, data: Bytes, done: nat)
    requires chunkSize > 0 && offset >= 0 && done < |data|
    requires 0 < PieceLength(chunkSize, offset + done, |data| - done) <= |data| - done
    ensures var n := PieceLength(chunkSize, offset + done, |data| - done);
      Pieces(chunkSize, offset, data, done) == [Piece(offset + done, data[done..done + n])] + Pieces(chunkSize,
          offset, data, done + n)
  {
  }

  /** The history went on by steps of Sync and of the workers. */
  ghost predicate BySyncing<Id>(was: seq<Step<Id>>, now: seq<Step<Id>>) {
    was <= now && forall i :: |was| <= i < |now| ==> now[i].SyncBegin? || now[i].SyncSubmit? || now[i].Worker()
  }

  lemma NothingSynced<Id>(t: seq<Step<Id>>)
    ensures BySyncing(t, t)
  {
  }

  lemma BySyncingTrans<Id>(a: seq<Step<Id>>, b: seq<Step<Id>>, c: seq<Step<Id>>)
    requires BySyncing(a, b) && BySyncing(b, c)
    ensures BySyncing(a, c)
  {
  }

  /** The history of a Sync that reached its end: it returned nil exactly if its last step says so. */
  ghost predicate Synced<Id>(was: seq<Step<Id>>, now: seq<Step<Id>>, nil: bool) {
    |now| > 0 && BySyncing(was, now[..|now| - 1]) && now[|now| - 1] == if nil then SyncReturn else SyncAbort
  }
}

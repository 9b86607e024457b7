/** How Write cuts its byte range at block boundaries, and what the pieces amount to. */
module WritePieces {
  import opened Bytes
  import opened FileMachine
  import opened ViewRefinement
  import opened SequentialUpload

  datatype Piece = Piece(pos: int, bytes: Bytes)

  /**
   * The pieces of `data` from its index `done` on, when data[0] goes to `offset`: each ends where its block or the
   * data ends.
   */
  function Pieces(chunkSize: int, offset: int, data: Bytes, done: nat): seq<Piece>
    requires chunkSize > 0 && offset >= 0 && done <= |data|
    decreases |data| - done
  {
    if done == |data| then []
    else
      var at := (offset + done) % chunkSize;
      var n := if |data| - done + at > chunkSize then chunkSize - at else |data| - done;
      [Piece(offset + done, data[done..done + n])] + Pieces(chunkSize, offset, data, done + n)
  }

  /** The writes among the steps. */
  ghost function WritesOf<Id>(steps: seq<Step<Id>>): seq<Piece> {
    if steps == [] then []
    else (if steps[0].Locate? then [Piece(steps[0].pos, steps[0].bytes)] else []) + WritesOf(steps[1..])
  }

  lemma {:induction false} WritesAppend<Id>(a: seq<Step<Id>>, b: seq<Step<Id>>)
    ensures WritesOf(a + b) == WritesOf(a) + WritesOf(b)
    decreases |a|
  {
    if a == [] {
      assert a + b == b;
    } else {
      WritesAppend(a[1..], b);
      assert (a + b)[1..] == a[1..] + b;
    }
  }

  lemma ModIsFromBlock(chunkSize: int, pos: int)
    requires chunkSize > 0 && pos >= 0
    ensures pos % chunkSize == pos - BlockOf(chunkSize, pos)
  {
    assert pos == chunkSize * (pos / chunkSize) + pos % chunkSize;
  }

  /**
   * The pieces partition [offset, offset + |data|): they follow one another without a gap and carry the data in
   * order.
   */
  ghost predicate Partition(pieces: seq<Piece>, from: int, data: Bytes) {
    if pieces == [] then data == []
    else
      && pieces[0].pos == from && 0 < |pieces[0].bytes| <= |data|
      && pieces[0].bytes == data[..|pieces[0].bytes|]
      && Partition(pieces[1..], from + |pieces[0].bytes|, data[|pieces[0].bytes|..])
  }

  /** Each piece lies inside one aligned block. */
  ghost predicate InsideBlock(chunkSize: int, p: Piece) {
    chunkSize > 0 && p.pos >= 0 && p.pos - BlockOf(chunkSize, p.pos) + |p.bytes| <= chunkSize
  }

  lemma {:induction false} PiecesTile(chunkSize: int, offset: int, data: Bytes, done: nat)
    requires chunkSize > 0 && offset >= 0 && done <= |data|
    ensures var pieces := Pieces(chunkSize, offset, data, done);
      Partition(pieces, offset + done, data[done..]) && forall i :: 0 <= i < |pieces| ==>
          InsideBlock(chunkSize, pieces[i])
    decreases |data| - done
  {
    if done < |data| {
      var pieces := Pieces(chunkSize, offset, data, done);
      var n := FirstPiece(chunkSize, offset, data, done);
      hide BlockOf, Pieces, Partition, InsideBlock;
      PiecesTile(chunkSize, offset, data, done + n);
      assert data[done..][..n] == data[done..done + n] && data[done..][n..] == data[done + n..];
      PartitionCons(pieces, offset + done, data[done..]);
    } else {
      assert data[done..] == [];
    }
  }

  lemma FirstPiece(chunkSize: int, offset: int, data: Bytes, done: nat) returns (n: nat)
    requires chunkSize > 0 && offset >= 0 && done < |data|
    ensures 0 < n <= |data| - done
    ensures var pieces := Pieces(chunkSize, offset, data, done);
      && pieces != [] && pieces[0] == Piece(offset + done, data[done..done + n]) && InsideBlock(chunkSize, pieces[0])
      && pieces[1..] == Pieces(chunkSize, offset, data, done + n)
  {
    var pos := offset + done;
    ModIsFromBlock(chunkSize, pos);
    var at := pos % chunkSize;
    n := if |data| - done + at > chunkSize then chunkSize - at else |data| - done;
    hide BlockOf;
  }

  lemma PartitionCons(pieces: seq<Piece>, from: int, data: Bytes)
    requires pieces != [] && pieces[0].pos == from && 0 < |pieces[0].bytes| <= |data|
    requires pieces[0].bytes == data[..|pieces[0].bytes|]
    requires Partition(pieces[1..], from + |pieces[0].bytes|, data[|pieces[0].bytes|..])
    ensures Partition(pieces, from, data)
  {
  }

  lemma {:induction false} PartitionReplays<Id>(steps: seq<Step<Id>>, from: int, data: Bytes, p: int, x: byte)
    requires Partition(WritesOf(steps), from, data)
    ensures Replay(steps, p, x) == if from <= p < from + |data| then data[p - from] else x
    decreases |steps|
  {
    if steps == [] {
    } else if !steps[0].Locate? {
      assert WritesOf(steps) == WritesOf(steps[1..]);
      PartitionReplays(steps[1..], from, data, p, x);
    } else {
      var w := WritesOf(steps);
      assert w[0] == Piece(steps[0].pos, steps[0].bytes) && w[1..] == WritesOf(steps[1..]);
      var n := |steps[0].bytes|;
      PartitionReplays(steps[1..], from + n, data[n..], p, if Covers(steps[0], p) then steps[0].bytes[p - from]
          else x);
    }
  }

  /**
   * A run that makes Write's pieces changes the flat file exactly on [offset, offset + |data|), to the given bytes.
   */
  lemma WriteReplays<Id>(chunkSize: int, offset: int, data: Bytes, steps: seq<Step<Id>>, p: int, x: byte)
    requires chunkSize > 0 && offset >= 0 && WritesOf(steps) == Pieces(chunkSize, offset, data, 0)
    ensures Replay(steps, p, x) == if offset <= p < offset + |data| then data[p - offset] else x
  {
    PiecesTile(chunkSize, offset, data, 0);
    assert data[0..] == data;
    PartitionReplays(steps, offset, data, p, x);
  }

  /**
   * Contiguous writes: the pieces carry on where the bytes so far end, so the run's upload is their concatenation.
   */
  lemma {:induction false} PartitionUploads<Id>(steps: seq<Step<Id>>, src: Bytes, data: Bytes)
    requires Partition(WritesOf(steps), |src|, data)
    ensures Uploaded(steps, src) == src + data
    decreases |steps|
  {
    if steps == [] {
    } else if !steps[0].Locate? {
      assert WritesOf(steps) == WritesOf(steps[1..]);
      PartitionUploads(steps[1..], src, data);
    } else {
      var w := WritesOf(steps);
      assert w[0] == Piece(steps[0].pos, steps[0].bytes) && w[1..] == WritesOf(steps[1..]);
      var n := |steps[0].bytes|;
      PartitionUploads(steps[1..], src + steps[0].bytes, data[n..]);
      assert src + steps[0].bytes + data[n..] == src + data;
    }
  }
}

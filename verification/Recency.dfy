/** The cache is least-recently-used: over every run it holds the buffers whose last use is the most recent. */
module Recency {
  import opened Bytes
  import opened FileMachine
  import opened FileInvariants
  import opened Quiescence

  /**
   * The buffer that a step uses: one that is put in the cache or added again, or that Sync gets from it.  Looking
   * a cached buffer up to write to it is no use.
   */
  ghost function Used<Id>(s: State<Id>, step: Step<Id>): Option<Id>
    requires Enabled(s, step)
  {
    match step
    case Locate(pos, _, spare) =>
      var off := BlockOf(s.chunkSize, pos);
      if Peek(s.cache, s.bufs, off).Some? then None
      else Some(if off in s.flushing then s.flushing[off] else spare)
    case Raise => Some(s.client.buf)
    case SyncSubmit => Some(s.client.todo[0])
    case _ => None
  }

  /** When each buffer was used last, time being the number of steps. */
  ghost function LastUses<Id>(s: State<Id>, steps: seq<Step<Id>>, now: nat, uses: map<Id, nat>): map<Id, nat>
    requires Runs(s, steps)
    decreases |steps|
  {
    if steps == [] then uses
    else LastUses(Apply(s, steps[0]), steps[1..], now + 1, UsesAfter(s, steps[0], now, uses))
  }

  ghost function UsesAfter<Id>(s: State<Id>, step: Step<Id>, now: nat, uses: map<Id, nat>): map<Id, nat>
    requires Enabled(s, step)
  {
    match Used(s, step)
    case Some(b) => uses[b := now]
    case None => uses
  }

  ghost predicate Ordered<Id>(cache: seq<Id>, uses: map<Id, nat>) {
    && (forall b :: b in cache ==> b in uses)
    && (forall i, j :: 0 <= i < j < |cache| ==> uses[cache[i]] < uses[cache[j]])
  }

  /** The cached buffers are the most recently used ones, in order, and as many as there is room for. */
  ghost predicate MostRecent<Id>(cache: seq<Id>, size: int, uses: map<Id, nat>) {
    && Ordered(cache, uses) && |cache| <= size
    && (forall b, c :: b in uses && b !in cache && c in cache ==> uses[b] < uses[c])
    && (|cache| < size ==> forall b :: b in uses ==> b in cache)
  }

  ghost predicate Before<Id>(uses: map<Id, nat>, now: nat) {
    forall b :: b in uses ==> uses[b] < now
  }

  lemma TailOrdered<Id>(cache: seq<Id>, uses: map<Id, nat>)
    requires Ordered(cache, uses) && cache != []
    ensures Ordered(cache[1..], uses) && cache[0] in uses
    ensures forall b :: b in cache[1..] ==> b in cache && uses[cache[0]] < uses[b] && b != cache[0]
  {
    var rest := cache[1..];
    forall b | b in rest ensures b in cache && uses[cache[0]] < uses[b] && b != cache[0] {
      var i :| 0 <= i < |rest| && rest[i] == b;
      assert cache[i + 1] == b;
    }
  }

  lemma PutBefore<Id>(c: Id, rest: seq<Id>, uses: map<Id, nat>)
    requires Ordered(rest, uses) && c in uses && forall b :: b in rest ==> uses[c] < uses[b]
    ensures Ordered([c] + rest, uses)
  {
    var all := [c] + rest;
    assert forall i :: 0 < i < |all| ==> all[i] == rest[i - 1] && rest[i - 1] in rest;
  }

  lemma {:induction false} WithoutOrdered<Id>(cache: seq<Id>, b: Id, uses: map<Id, nat>)
    requires Ordered(cache, uses)
    ensures Ordered(Without(cache, b), uses)
    ensures |Without(cache, b)| == |cache| - if b in cache then 1 else 0
  {
    if cache != [] {
      TailOrdered(cache, uses);
      hide Ordered;
      WithoutOrdered(cache[1..], b, uses);
      assert b in cache <==> b == cache[0] || b in cache[1..];
      if cache[0] != b {
        PutBefore(cache[0], Without(cache[1..], b), uses);
      }
    }
  }

  lemma PutBehind<Id>(rest: seq<Id>, b: Id, uses: map<Id, nat>, now: nat)
    requires Ordered(rest, uses) && b !in rest && Before(uses, now)
    ensures Ordered(rest + [b], uses[b := now])
  {
    var all := rest + [b];
    assert forall i :: 0 <= i < |rest| ==> all[i] == rest[i] && rest[i] in rest;
  }

  /** A cached buffer that is used again goes behind all others. */
  lemma MovedIsMostRecent<Id>(cache: seq<Id>, size: int, uses: map<Id, nat>, b: Id, now: nat)
    requires MostRecent(cache, size, uses) && Before(uses, now) && b in cache
    ensures MostRecent(Without(cache, b) + [b], size, uses[b := now])
  {
    WithoutOrdered(cache, b, uses);
    PutBehind(Without(cache, b), b, uses, now);
    hide Ordered, Without;
    assert forall x :: x in Without(cache, b) + [b] <==> x in cache;
  }

  /** One that was not cached takes the place of the one not used for longest, when there is no room. */
  lemma AddedIsMostRecent<Id>(cache: seq<Id>, size: int, uses: map<Id, nat>, b: Id, now: nat)
    requires MostRecent(cache, size, uses) && Before(uses, now) && b !in cache && size > 0
    ensures MostRecent(if |cache| < size then cache + [b] else cache[1..] + [b], size, uses[b := now])
  {
    if |cache| < size {
      PutBehind(cache, b, uses, now);
      hide Ordered;
      assert forall x :: x in cache + [b] <==> x in cache || x == b;
    } else {
      TailOrdered(cache, uses);
      PutBehind(cache[1..], b, uses, now);
      hide Ordered;
      assert forall x :: x in cache[1..] + [b] <==> x in cache[1..] || x == b;
      assert forall x :: x in cache <==> x == cache[0] || x in cache[1..];
    }
  }

  lemma CacheAddCache<Id>(s: State<Id>, b: Id)
    requires WellFormed(s) && b in s.bufs && |s.cache| <= s.bufferSize
    ensures CacheAdd(s, b).bufferSize == s.bufferSize
    ensures CacheAdd(s, b).cache ==
      if b in s.cache then Without(s.cache, b) + [b]
      else if |s.cache| < s.bufferSize then s.cache + [b] else s.cache[1..] + [b]
  {
    if b !in s.cache && |s.cache| == s.bufferSize {
      assert (s.cache + [b])[1..] == s.cache[1..] + [b];
    }
  }

  lemma AddKeepsRecency<Id>(s: State<Id>, b: Id, uses: map<Id, nat>, now: nat)
    requires WellFormed(s) && b in s.bufs && MostRecent(s.cache, s.bufferSize, uses) && Before(uses, now)
    ensures var t := CacheAdd(s, b); t.bufferSize == s.bufferSize && MostRecent(t.cache, t.bufferSize, uses[b := now])
  {
    CacheAddCache(s, b);
    hide CacheAdd, MostRecent, Before;
    if b in s.cache {
      MovedIsMostRecent(s.cache, s.bufferSize, uses, b, now);
    } else {
      AddedIsMostRecent(s.cache, s.bufferSize, uses, b, now);
    }
  }

  lemma StepKeepsRecency<Id>(s: State<Id>, step: Step<Id>, uses: map<Id, nat>, now: nat)
    requires Inv(s) && Enabled(s, step) && MostRecent(s.cache, s.bufferSize, uses) && Before(uses, now)
    ensures var t := Apply(s, step); var after := UsesAfter(s, step, now, uses);
      t.bufferSize == s.bufferSize && MostRecent(t.cache, t.bufferSize, after) && Before(after, now + 1)
  {
    hide MostRecent, CacheAdd, BlockOf, Splice, BuffersOk, FlushingOk, JobsOk, EntriesCleared;
    match step
    case Locate(pos, bytes, spare) =>
      var off := BlockOf(s.chunkSize, pos);
      if Peek(s.cache, s.bufs, off).None? {
        if off in s.flushing {
          AddKeepsRecency(Revived(s, off), s.flushing[off], uses, now);
        } else {
          AddKeepsRecency(WithNewBuffer(s, off, spare), spare, uses, now);
        }
      }
    case Raise => AddKeepsRecency(s, s.client.buf, uses, now);
    case SyncSubmit => MovedIsMostRecent(s.cache, s.bufferSize, uses, s.client.todo[0], now);
    case _ =>
  }

  lemma {:induction false} RunKeepsRecency<Id>(s: State<Id>, steps: seq<Step<Id>>, uses: map<Id, nat>, now: nat)
    requires Inv(s) && Runs(s, steps) && MostRecent(s.cache, s.bufferSize, uses) && Before(uses, now)
    ensures var t := Exec(s, steps);
      t.bufferSize == s.bufferSize && MostRecent(t.cache, t.bufferSize, LastUses(s, steps, now, uses))
    decreases |steps|
  {
    if steps != [] {
      StepKeepsRecency(s, steps[0], uses, now);
      StepKeepsInv(s, steps[0]);
      hide Inv, Enabled, Apply, MostRecent, Before, UsesAfter;
      RunKeepsRecency(Apply(s, steps[0]), steps[1..], UsesAfter(s, steps[0], now, uses), now + 1);
    }
  }

  /**
   * Over every run of an opened file, every buffer that was used and is not cached was used last before every
   * buffer that is, and nothing was evicted while there was room.
   */
  lemma CacheIsMostRecent<Id>(chunkSize: int, bufferSize: int, server: map<int, Bytes>, steps: seq<Step<Id>>)
    requires chunkSize > 0 && bufferSize > 0 && Runs(Opened(chunkSize, bufferSize, server), steps)
    ensures var t := Exec(Opened(chunkSize, bufferSize, server), steps);
            var uses := LastUses(Opened(chunkSize, bufferSize, server), steps, 0, map[]);
      && |t.cache| <= bufferSize && (forall b :: b in t.cache ==> b in uses)
      && (forall b, c :: b in uses && b !in t.cache && c in t.cache ==> uses[b] < uses[c])
      && (|t.cache| < bufferSize ==> forall b :: b in uses ==> b in t.cache)
  {
    RunKeepsRecency(Opened<Id>(chunkSize, bufferSize, server), steps, map[], 0);
  }
}

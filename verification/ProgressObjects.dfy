/** The flow-control objects of the leader: a ring buffer that grows on demand, and the progress
    record of a follower.  Both are proved against the values of `ProgressModel`. */
module ProgressObjects {
  import opened Types
  import PM = ProgressModel

  /** The position of the i-th oldest value. */
  function Pos(start: nat, i: nat, size: nat): nat
    requires start + i < size + size
  {
    if start + i >= size then start + i - size else start + i
  }

  /** While the buffer is smaller than the window, nothing has wrapped around. */
  predicate Shaped(buffer: seq<nat>, start: nat, count: nat, size: nat) {
    && |buffer| <= size && count <= size
    && (count == 0 ==> start == 0) && (count > 0 ==> start < size)
    && (|buffer| < size ==> start + count <= |buffer|)
  }

  /** The queued values, oldest first. */
  function QueueOf(buffer: seq<nat>, start: nat, count: nat, size: nat): (q: seq<nat>)
    requires Shaped(buffer, start, count, size)
    ensures |q| == count && forall i :: 0 <= i < count ==> q[i] == buffer[Pos(start, i, size)]
  {
    seq(count, i requires 0 <= i < count => buffer[Pos(start, i, size)])
  }

  /** Writing behind the last value appends to the queue. */
  lemma QueueGrows(buffer: seq<nat>, start: nat, count: nat, size: nat, x: nat)
    requires Shaped(buffer, start, count, size) && count < size && Pos(start, count, size) < |buffer|
    ensures var b := buffer[Pos(start, count, size) := x];
            && Shaped(b, start, count + 1, size)
            && QueueOf(b, start, count + 1, size) == QueueOf(buffer, start, count, size) + [x]
  {
  }

  /** Moving the start forward drops values from the front. */
  lemma QueueShrinks(buffer: seq<nat>, start: nat, count: nat, size: nat, k: nat)
    requires Shaped(buffer, start, count, size) && k <= count
    ensures var start' := if k == count then 0 else Pos(start, k, size);
            && Shaped(buffer, start', count - k, size)
            && QueueOf(buffer, start', count - k, size) == QueueOf(buffer, start, count, size)[k..]
  {
  }

  lemma QueueKept(buffer: seq<nat>, more: seq<nat>, start: nat, count: nat, size: nat)
    requires Shaped(buffer, start, count, size) && Shaped(buffer + more, start, count, size) && start + count <= |buffer|
    ensures QueueOf(buffer + more, start, count, size) == QueueOf(buffer, start, count, size)
  {
  }

  /** `free_to` frees the longest run of values at most `to` at the front; in an increasing window
      these are all such values. */
  lemma FreeToIsExact(w: PM.Window, to: nat)
    requires w.Valid() && PM.Increasing(w.q)
    ensures var r := w.FreeTo(to).q;
            && r <= w.q[|w.q| - |r|..] && |r| <= |w.q|
            && (forall x :: x in w.q && x > to <==> x in r)
  {
    var k := PM.Freed(w.q, to);
    var r := w.FreeTo(to).q;
    assert r == w.q[k..];
    forall x | x in w.q && x > to ensures x in r {
      var i :| 0 <= i < |w.q| && w.q[i] == x;
      assert i >= k && r[i - k] == x;
    }
    forall x | x in r ensures x in w.q && x > to {
      var i :| 0 <= i < |r| && r[i] == x;
      assert w.q[k + i] == x;
    }
  }

  /** `free_first_one` is meant to free the oldest value.  It hands its ring position to `free_to`,
      and so frees exactly the oldest value if and only if that value is at most its position and
      the next value is larger. */
  lemma FreeFirstOneIsRight(w: PM.Window)
    requires w.Valid() && w.q != []
    ensures w.FreeFirstOne().q == w.q[1..] <==> w.q[0] <= w.start && (|w.q| > 1 ==> w.q[1] > w.start)
    ensures w.FreeFirstOne() == w <==> w.q[0] > w.start
  {
    var k := PM.Freed(w.q, w.start);
    assert k > 0 <==> w.q[0] <= w.start;
    assert w.FreeFirstOne().q == w.q[k..];
    assert |w.q[k..]| == |w.q[1..]| <==> k == 1;
    assert k > 0 ==> |w.FreeFirstOne().q| < |w.q|;
  }

  /** Once the oldest value is at least the window size, heartbeat responses free nothing: a full
      window then stays full until an append is acknowledged. */
  lemma HeartbeatsFreeNothing(p: PM.Progress)
    requires p.ins.Valid() && p.ins.Full() && p.state == PM.Replicate && p.ins.q != [] && p.ins.q[0] >= p.ins.size
    ensures p.OnHeartbeatResp().ins == p.ins && p.OnHeartbeatResp().IsPaused()
  {
    FreeFirstOneIsRight(p.ins);
  }

  // ---------------------------------------------------------------- the ring

  class InFlights {
    var start: nat
    var count: nat
    const size: nat
    var buffer: seq<nat>

    ghost predicate Valid()
      reads this
    {
      Shaped(buffer, start, count, size)
    }

    ghost function View(): PM.Window
      requires Valid()
      reads this
    {
      PM.Window(start, QueueOf(buffer, start, count, size), size)
    }

    constructor (size: nat)
      ensures Valid() && View() == PM.Window(0, [], size)
    {
      start, count, buffer := 0, 0, [];
      this.size := size;
    }

    method Reset()
      requires Valid()
      modifies this
      ensures Valid() && View() == old(View()).Reset()
    {
      start, count := 0, 0;
    }

    method IsFull() returns (b: bool)
      requires Valid()
      ensures b == View().Full()
    {
      b := size == count;
    }

    /** The buffer doubles when the next position is beyond it. */
    method Grow()
      requires Valid() && count < size && |buffer| < size && start + count == |buffer|
      modifies this`buffer
      ensures Valid() && start + count < |buffer| && View() == old(View())
    {
      var newSize := |buffer| * 2;
      if newSize == 0 { newSize := 1; } else if newSize > size { newSize := size; }
      var more := seq(newSize - |buffer|, i => 0);
      QueueKept(buffer, more, start, count, size);
      buffer := buffer + more;
    }

    /** Aborts on a full window. */
    method Add(x: nat) returns (fatal: bool)
      requires Valid()
      modifies this
      ensures Valid() && (fatal <==> old(View()).Full())
      ensures View() == if fatal then old(View()) else old(View()).Add(x)
    {
      if size == count { return true; }
      var next := start + count;
      if next >= size { next := next - size; }
      if next >= |buffer| { Grow(); }
      QueueGrows(buffer, start, count, size, x);
      buffer := buffer[next := x];
      count := count + 1;
      return false;
    }

    /** Walks over the run of values at most `to` at the front. */
    method SkipTo(to: nat) returns (i: nat, idx: nat)
      requires Valid()
      ensures i == PM.Freed(View().q, to) && (i < count ==> idx == Pos(start, i, size))
    {
      ghost var q := View().q;
      idx, i := start, 0;
      while i < count
        invariant i <= count && (i < count ==> idx == Pos(start, i, size))
        invariant forall j :: 0 <= j < i ==> q[j] <= to
      {
        assert q[i] == buffer[idx];
        if to < buffer[idx] { return; }
        idx := idx + 1;
        if idx >= size { idx := idx - size; }
        i := i + 1;
      }
    }

    /** Frees the run of values at most `to` at the front. */
    method FreeTo(to: nat)
      requires Valid()
      modifies this
      ensures Valid() && View() == old(View()).FreeTo(to)
    {
      assert count > 0 ==> View().q[0] == buffer[start];
      if count == 0 || to < buffer[start] { return; }
      var i, idx := SkipTo(to);
      QueueShrinks(buffer, start, count, size, i);
      count := count - i;
      start := idx;
      if count == 0 { start := 0; }
    }

    /** The ring position stands where the oldest value is meant. */
    method FreeFirstOne()
      requires Valid()
      modifies this
      ensures Valid() && View() == old(View()).FreeFirstOne()
    {
      FreeTo(start);
    }
  }

  // ---------------------------------------------------------------- one follower

  class Progress {
    var matched: nat
    var next: nat
    var state: PM.PrState
    var paused: bool
    var pendingSnapshot: nat
    var recentActive: bool
    const inflights: InFlights

    ghost function View(): PM.Progress
      requires inflights.Valid()
      reads this, inflights
    {
      PM.Progress(matched, next, state, paused, pendingSnapshot, recentActive, inflights.View())
    }

    constructor (maxInflight: nat)
      ensures fresh(inflights) && inflights.Valid() && View() == PM.FreshProgress(0, 0, maxInflight)
    {
      matched, next, state, paused, pendingSnapshot, recentActive := 0, 0, PM.Probe, false, 0, false;
      inflights := new InFlights(maxInflight);
    }

    method ResetState(st: PM.PrState)
      requires inflights.Valid()
      modifies this, inflights
      ensures inflights.Valid() && View() == old(View()).ResetState(st)
    {
      paused, pendingSnapshot, state := false, 0, st;
      inflights.Reset();
    }

    method BecomeReplicate()
      requires inflights.Valid()
      modifies this, inflights
      ensures inflights.Valid() && View() == old(View()).BecomeReplicate()
    {
      ResetState(PM.Replicate);
      next := matched + 1;
    }

    method BecomeProbe()
      requires inflights.Valid()
      modifies this, inflights
      ensures inflights.Valid() && View() == old(View()).BecomeProbe()
    {
      if state == PM.Snapshot {
        var pending := pendingSnapshot;
        ResetState(PM.Probe);
        next := Max(matched + 1, pending + 1);
      } else {
        ResetState(PM.Probe);
        next := matched + 1;
      }
    }

    method BecomeSnapshot(index: nat)
      requires inflights.Valid()
      modifies this, inflights
      ensures inflights.Valid() && View() == old(View()).BecomeSnapshot(index)
    {
      ResetState(PM.Snapshot);
      pendingSnapshot := index;
    }

    method IsPaused() returns (b: bool)
      requires inflights.Valid()
      ensures b == View().IsPaused()
    {
      match state
      case Probe => b := paused;
      case Replicate => b := inflights.IsFull();
      case Snapshot => b := true;
    }

    method MaybeUpdate(n: nat) returns (moved: bool)
      requires inflights.Valid()
      modifies this
      ensures inflights.Valid() && (View(), moved) == old(View()).MaybeUpdate(n)
    {
      moved := false;
      if matched < n {
        matched := n;
        moved := true;
        paused := false;
      }
      if next < n + 1 { next := n + 1; }
    }

    method MaybeDecreaseTo(rejected: nat, last: nat) returns (moved: bool)
      requires inflights.Valid() && (state != PM.Replicate ==> next > 0)
      modifies this
      ensures inflights.Valid() && (View(), moved) == old(View()).MaybeDecreaseTo(rejected, last)
    {
      if state == PM.Replicate {
        if rejected <= matched { return false; }
        next := matched + 1;
        return true;
      }
      if next - 1 != rejected { return false; }
      next := Min(rejected, last + 1);
      if next < 1 { next := 1; }
      paused := false;
      return true;
    }

    /** What an accepted append does to the flow control. */
    method AfterUpdate(n: nat)
      requires inflights.Valid()
      modifies this, inflights
      ensures inflights.Valid() && View() == old(View()).AfterUpdate(n)
    {
      if state == PM.Probe {
        BecomeReplicate();
      } else if state == PM.Snapshot && matched >= pendingSnapshot {
        BecomeProbe();
      } else if state == PM.Replicate {
        inflights.FreeTo(n);
      }
    }

    method OnHeartbeatResp()
      requires inflights.Valid()
      modifies this, inflights
      ensures inflights.Valid() && View() == old(View()).OnHeartbeatResp()
    {
      recentActive, paused := true, false;
      var full := inflights.IsFull();
      if state == PM.Replicate && full { inflights.FreeFirstOne(); }
    }
  }
}

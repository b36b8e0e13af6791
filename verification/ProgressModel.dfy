/** The leader's view of one follower as a value.  The classes `InFlights` and
    `Progress` refine these functions. */
module ProgressModel {
  import opened Types

  /** How many values at the front of the window are at most `to`. */
  function Freed(q: seq<nat>, to: nat): (k: nat)
    ensures k <= |q|
    ensures forall i :: 0 <= i < k ==> q[i] <= to
    ensures k < |q| ==> to < q[k]
  {
    if q == [] || to < q[0] then 0 else 1 + Freed(q[1..], to)
  }

  /** The sliding window: the queued indexes, oldest first, and the ring position of
      the oldest one.  The position is part of the value because `free_first_one`
      depends on it. */
  datatype Window = Window(start: nat, q: seq<nat>, size: nat) {
    predicate Valid() {
      |q| <= size && (q == [] ==> start == 0) && (q != [] ==> start < size)
    }

    predicate Full() { |q| >= size }

    function Reset(): Window { Window(0, [], size) }

    function Add(x: nat): Window { this.(q := q + [x]) }

    function FreeTo(to: nat): Window {
      var k := Freed(q, to);
      if k == 0 then this
      else if k == |q| then Reset()
      else Window(if start + k >= size then start + k - size else start + k, q[k..], size)
    }

    /** The source passes the ring position, not the oldest value, to `free_to`. */
    function FreeFirstOne(): Window { FreeTo(start) }
  }

  datatype PrState = Probe | Replicate | Snapshot

  datatype Progress = Progress(matched: nat, next: nat, state: PrState, paused: bool,
                               pendingSnapshot: nat, recentActive: bool, ins: Window) {
    function ResetState(st: PrState): Progress {
      this.(paused := false, pendingSnapshot := 0, state := st, ins := ins.Reset())
    }

    function BecomeReplicate(): Progress { ResetState(Replicate).(next := matched + 1) }

    function BecomeProbe(): Progress {
      if state == Snapshot then ResetState(Probe).(next := Max(matched + 1, pendingSnapshot + 1))
      else ResetState(Probe).(next := matched + 1)
    }

    function BecomeSnapshot(index: nat): Progress { ResetState(Snapshot).(pendingSnapshot := index) }

    predicate IsPaused() {
      match state
      case Probe => paused
      case Replicate => ins.Full()
      case Snapshot => true
    }

    /** The new value and whether `match` moved. */
    function MaybeUpdate(n: nat): (Progress, bool) {
      var p := if matched < n then this.(matched := n, paused := false) else this;
      (if p.next < n + 1 then p.(next := n + 1) else p, matched < n)
    }

    /** The new value and whether `next` was reconsidered. */
    function MaybeDecreaseTo(rejected: nat, last: nat): (Progress, bool) {
      if state == Replicate then
        if rejected <= matched then (this, false) else (this.(next := matched + 1), true)
      else if next != rejected + 1 then (this, false)
      else
        var n := Min(rejected, last + 1);
        (this.(next := if n < 1 then 1 else n, paused := false), true)
    }

    predicate NeedSnapshotAbort() { state == Snapshot && matched >= pendingSnapshot }

    /** What the leader does to the flow-control state once `match` has moved to `n`. */
    function AfterUpdate(n: nat): Progress {
      match state
      case Probe => BecomeReplicate()
      case Snapshot => if NeedSnapshotAbort() then BecomeProbe() else this
      case Replicate => this.(ins := ins.FreeTo(n))
    }

    /** What a heartbeat response does: resume, and free a slot of a full window. */
    function OnHeartbeatResp(): Progress {
      var p := this.(recentActive := true, paused := false);
      if state == Replicate && ins.Full() then p.(ins := ins.FreeFirstOne()) else p
    }
  }

  function FreshProgress(next: nat, matched: nat, size: nat): Progress {
    Progress(matched, next, Probe, false, 0, false, Window(0, [], size))
  }

  ghost predicate Increasing(q: seq<nat>) {
    forall i, j :: 0 <= i < j < |q| ==> q[i] < q[j]
  }

  /** The flow-control invariant at a leader whose log ends at `last`, with a window of
      `size` slots. */
  ghost predicate PrOk(p: Progress, last: nat, size: nat) {
    && 1 <= p.next <= last + 1
    && p.matched <= last
    && p.ins.size == size > 0 && p.ins.Valid()
    && p.state != Snapshot
    && (p.state == Probe ==> p.ins.q == [])
    && (p.state == Replicate ==>
          && p.matched < p.next
          && Increasing(p.ins.q)
          && forall i :: 0 <= i < |p.ins.q| ==> p.matched < p.ins.q[i] < p.next)
  }
}

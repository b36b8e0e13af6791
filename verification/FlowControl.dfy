/** What the leader's events do to its flow-control state: the window stays increasing
    between `match` and `next`, and a value is only added to a window with room. */
module FlowControl {
  import opened Types
  import opened LogModel
  import opened ProgressModel
  import opened EntrySize
  import opened RaftCore

  lemma FreshOk(last: nat, matched: nat, size: nat)
    requires matched <= last && size > 0
    ensures PrOk(FreshProgress(last + 1, matched, size), last, size)
  {
  }

  lemma LastGrows(p: Progress, last: nat, last': nat, size: nat)
    requires PrOk(p, last, size) && last <= last'
    ensures PrOk(p, last', size)
  {
  }

  lemma FreeToOk(w: Window, to: nat)
    requires w.Valid() && Increasing(w.q)
    ensures var w' := w.FreeTo(to);
            && w'.Valid() && w'.size == w.size && Increasing(w'.q)
            && forall i :: 0 <= i < |w'.q| ==> w'.q[i] > to && w'.q[i] in w.q
  {
    var k := Freed(w.q, to);
    assert w.FreeTo(to).q == w.q[k..];
    forall i | 0 <= i < |w.q[k..]| ensures w.q[k..][i] > to && w.q[k..][i] in w.q {
      assert w.q[k..][i] == w.q[k + i];
    }
  }

  lemma MaybeUpdateOk(p: Progress, n: nat, last: nat, size: nat)
    requires PrOk(p, last, size) && n <= last
    ensures var u := p.MaybeUpdate(n);
            && u.0.matched == Max(p.matched, n)
            && (u.1 ==> PrOk(u.0.AfterUpdate(n), last, size) && u.0.AfterUpdate(n).matched == n)
            && (!u.1 ==> PrOk(u.0, last, size))
  {
    if p.matched < n && p.state == Replicate {
      FreeToOk(p.ins, n);
      assert forall x :: x in p.ins.q ==> x < p.next;
    }
  }

  lemma MaybeDecreaseOk(p: Progress, rejected: nat, hint: nat, last: nat, size: nat)
    requires PrOk(p, last, size) && p.MaybeDecreaseTo(rejected, hint).1
    ensures var d := p.MaybeDecreaseTo(rejected, hint).0;
            && d.matched == p.matched
            && PrOk(if d.state == Replicate then d.BecomeProbe() else d, last, size)
  {
  }

  lemma HeartbeatRespOk(p: Progress, last: nat, size: nat)
    requires PrOk(p, last, size)
    ensures PrOk(p.OnHeartbeatResp(), last, size) && p.OnHeartbeatResp().matched == p.matched
  {
    if p.state == Replicate {
      FreeToOk(p.ins, p.ins.start);
      assert forall x :: x in p.ins.q ==> p.matched < x < p.next;
    }
  }

  /** The message is a segment of the log that starts where `next` pointed. */
  lemma AppendMessage(cfg: Config, n: Node, pr: Progress, to: Id, sendIfEmpty: bool)
    requires PrOk(pr, n.Last(), cfg.maxInflight) && Consecutive(n.log, 1)
    ensures var m := AppendFor(cfg, n, pr, to, sendIfEmpty).msg;
            && m.App? && m.from == n.id && m.to == to && m.term == n.term && m.commit == n.commit
            && m.index == pr.next - 1
            && m.index + |m.entries| <= |n.log|
            && m.entries == n.log[m.index..m.index + |m.entries|]
            && m.logTerm == TermAt(n.log, m.index)
            && (m.entries != [] ==> m.entries[|m.entries| - 1].index == m.index + |m.entries|)
  {
    if pr.next > n.Last() {
      assert n.log[pr.next - 1..pr.next - 1] == [];
    } else {
      LimitedSegment(cfg.maxMsgSize, n.log, pr.next - 1);
    }
  }

  lemma LimitedSegment(maxSize: nat, log: seq<Entry>, from: nat)
    requires from < |log| && Consecutive(log, 1)
    ensures var es := LimitSize(maxSize, log[from..]);
            && 1 <= |es| && from + |es| <= |log|
            && es == log[from..from + |es|]
            && es[|es| - 1].index == from + |es|
  {
    var k := Fit(maxSize, log[from..]);
    assert log[from..][..k] == log[from..from + k];
    assert log[from..from + k][k - 1] == log[from + k - 1];
  }

  /** Sending keeps the invariant. */
  lemma AppendForOk(cfg: Config, n: Node, pr: Progress, to: Id, sendIfEmpty: bool)
    requires PrOk(pr, n.Last(), cfg.maxInflight) && Consecutive(n.log, 1)
    ensures var r := AppendFor(cfg, n, pr, to, sendIfEmpty);
            PrOk(r.pr, n.Last(), cfg.maxInflight) && r.pr.matched == pr.matched
  {
    var r := AppendFor(cfg, n, pr, to, sendIfEmpty);
    AppendMessage(cfg, n, pr, to, sendIfEmpty);
    if r.sent && r.msg.entries != [] && pr.state == Replicate {
      AddOk(pr.ins, r.msg.index + |r.msg.entries|, pr.next);
    }
  }

  lemma AddOk(w: Window, x: nat, next: nat)
    requires w.Valid() && !w.Full() && Increasing(w.q) && x >= next
    requires forall i :: 0 <= i < |w.q| ==> w.q[i] < next
    ensures w.Add(x).Valid() && Increasing(w.Add(x).q)
  {
  }

  // ---------------------------------------------------------------- next and match

  /** A probe is rejected with an index or a hint that lies behind. */
  predicate StaleProbeRejection(p: Progress, rejected: nat, hint: nat) {
    p.state != Replicate && p.next == rejected + 1 && p.matched > 0 && (rejected <= p.matched || hint < p.matched)
  }

  /** A probe answered by a stale rejection brings `next` down to `match` or below, and no other
      rejection of a probe does. */
  lemma ProbeKeepsNextAboveMatch(p: Progress, rejected: nat, hint: nat)
    requires p.state == Probe && p.next == rejected + 1 && p.matched < p.next
    ensures var d := p.MaybeDecreaseTo(rejected, hint).0;
            d.next > d.matched <==> p.matched == 0 || (rejected > p.matched && hint >= p.matched)
  {
  }

  /** What a leader does to the progress record of a follower. */
  datatype FlowEvent =
    | Accepted(index: nat)
    | Rejected(rejected: nat, hint: nat)
    | Answered
    | Sending(sendIfEmpty: bool)
    | Lost
    | SnapshotSent(at: nat)

  function Handled(cfg: Config, n: Node, p: Progress, e: FlowEvent): Progress {
    match e
    case Accepted(index) => var u := p.MaybeUpdate(index); if u.1 then u.0.AfterUpdate(index) else u.0
    case Rejected(rejected, hint) =>
      var d := p.MaybeDecreaseTo(rejected, hint);
      if d.1 && d.0.state == Replicate then d.0.BecomeProbe() else d.0
    case Answered => p.OnHeartbeatResp()
    case Sending(sendIfEmpty) => AppendFor(cfg, n, p, 0, sendIfEmpty).pr
    case Lost => if p.state == Replicate then p.BecomeProbe() else p
    case SnapshotSent(at) => p.BecomeSnapshot(at)
  }

  /** Over all events, in every state: `next` stays above `match` except for a stale rejection of a
      probe. */
  lemma NextStaysAboveMatch(cfg: Config, n: Node, p: Progress, e: FlowEvent)
    requires p.matched < p.next && Consecutive(n.log, 1)
    ensures var q := Handled(cfg, n, p, e);
            q.matched < q.next <==> !(e.Rejected? && StaleProbeRejection(p, e.rejected, e.hint))
  {
    if e.Sending? && p.next <= n.Last() { LimitedSegment(cfg.maxMsgSize, n.log, p.next - 1); }
  }

  /** The exception occurs, with nothing but a repeated answer: a fresh leader with two entries probes
      a follower without any; the rejection arrives, the next probe is accepted, the connection is
      lost, and then the network delivers the rejection once more. */
  lemma StaleRejectionOccurs(cfg: Config, n: Node, size: nat)
    requires n.log == [Entry(1, 1, EntryNormal, []), Entry(1, 2, EntryNormal, [])]
    ensures var lower := Handled(cfg, n, FreshProgress(3, 0, size), Rejected(2, 0));
            var probed := Handled(cfg, n, lower, Sending(false));
            var before := Handled(cfg, n, Handled(cfg, n, probed, Accepted(2)), Lost);
            && lower.next == 1 && AppendFor(cfg, n, lower, 0, false).sent
            && before.matched == 2 && before.next == 3 && StaleProbeRejection(before, 2, 0)
            && Handled(cfg, n, before, Rejected(2, 0)).next == 1
  {
    var lower := FreshProgress(1, 0, size);
    assert Handled(cfg, n, FreshProgress(3, 0, size), Rejected(2, 0)) == lower;
    assert Consecutive(n.log, 1);
    LimitedSegment(cfg.maxMsgSize, n.log, 0);
    assert n.log[0..] == n.log;
    var probed := lower.(paused := true);
    assert Handled(cfg, n, lower, Sending(false)) == probed;
    AcceptedThenLost(cfg, n, probed);
  }

  lemma AcceptedThenLost(cfg: Config, n: Node, p: Progress)
    requires p.state == Probe && p.matched == 0 && p.next == 1
    ensures var before := Handled(cfg, n, Handled(cfg, n, p, Accepted(2)), Lost);
            && before.matched == 2 && before.next == 3 && before.state == Probe
            && Handled(cfg, n, before, Rejected(2, 0)).next == 1
  {
  }

  // ---------------------------------------------------------------- what flow control must do

  /** An append is sent exactly if the follower is not held back and there is something to send or an empty one
      is wanted.  Held back are a probe without an answer, a full window, and a snapshot on its way. */
  lemma SendRule(cfg: Config, n: Node, p: Progress, to: Id, sendIfEmpty: bool)
    requires p.next > 0
    ensures AppendFor(cfg, n, p, to, sendIfEmpty).sent
            <==> && !(p.state == Probe && p.paused) && !(p.state == Replicate && |p.ins.q| >= p.ins.size) && p.state != Snapshot
                 && (p.next <= |n.log| || sendIfEmpty)
  {
  }

  /** A probe that carries something is the last until it is answered. */
  lemma OneProbeAtATime(cfg: Config, n: Node, p: Progress, to: Id, sendIfEmpty: bool, again: bool)
    requires p.state == Probe && 0 < p.next <= |n.log|
    ensures !AppendFor(cfg, n, AppendFor(cfg, n, p, to, sendIfEmpty).pr, to, again).sent
  {
  }

  /** In replication what has been sent is taken as received: it joins the window, and the next append begins
      behind it. */
  lemma PipelineRule(cfg: Config, n: Node, p: Progress, to: Id)
    requires PrOk(p, n.Last(), cfg.maxInflight) && p.state == Replicate && p.next <= |n.log| && !p.ins.Full() && Consecutive(n.log, 1)
    ensures var a := AppendFor(cfg, n, p, to, false);
            && a.sent && a.msg.entries != [] && a.pr.next == p.next + |a.msg.entries|
            && a.pr.ins.q == p.ins.q + [a.pr.next - 1] && a.pr.matched == p.matched && a.pr.state == Replicate
  {
    LimitedSegment(cfg.maxMsgSize, n.log, p.next - 1);
  }

  /** A rejection counts exactly if it can be the answer to something outstanding: in replication one above the
      match index, otherwise one of the probe itself.  Any other is ignored. */
  lemma RejectionRule(p: Progress, rejected: nat, hint: nat)
    requires p.next > 0
    ensures var d := p.MaybeDecreaseTo(rejected, hint);
            && (d.1 <==> if p.state == Replicate then rejected > p.matched else rejected == p.next - 1)
            && (!d.1 ==> d.0 == p)
            && (d.1 && p.state == Replicate ==> d.0.next == p.matched + 1)
            && (d.1 && p.state != Replicate ==>
                  !d.0.paused && 1 <= d.0.next && d.0.next <= hint + 1 && d.0.next <= Max(rejected, 1)
                  && (d.0.next == rejected || d.0.next == hint + 1 || d.0.next == 1))
  {
  }

  /** An acceptance moves `match` and `next` forward only, and wakes the follower up if it brings news. */
  lemma AcceptanceRule(p: Progress, index: nat)
    ensures var u := p.MaybeUpdate(index);
            && (u.1 <==> index > p.matched) && u.0.matched == Max(p.matched, index) && u.0.next == Max(p.next, index + 1)
            && (u.1 ==> !u.0.paused) && (!u.1 ==> u.0.paused == p.paused)
            && u.0.state == p.state && u.0.ins == p.ins
  {
  }

  /** After news a probe turns to replication from there on; a snapshot that the follower has passed turns back
      to probing; in replication the window lets go of what is acknowledged, and of nothing else. */
  lemma NewsRule(p: Progress, index: nat)
    requires p.matched == index && p.ins.Valid() && Increasing(p.ins.q)
    ensures var a := p.AfterUpdate(index);
            && a.matched == index
            && (p.state == Probe ==> a.state == Replicate && a.next == index + 1 && a.ins.q == [])
            && (p.state == Snapshot ==> if index >= p.pendingSnapshot then a.state == Probe && a.next == index + 1 else a == p)
            && (p.state == Replicate ==>
                  && a.state == Replicate && a.next == p.next
                  && forall x :: x in a.ins.q <==> x in p.ins.q && x > index)
  {
    if p.state == Replicate {
      FreeToOk(p.ins, index);
      var k := Freed(p.ins.q, index);
      forall x | x in p.ins.q && x > index ensures x in p.ins.FreeTo(index).q {
        var i :| 0 <= i < |p.ins.q| && p.ins.q[i] == x;
        assert p.ins.q[k..][i - k] == x;
      }
    }
  }
}

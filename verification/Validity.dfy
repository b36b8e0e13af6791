/** Nothing comes from nowhere: in every run, every entry of every log is an entry of the bootstrap, the
    empty entry of a new leader, or carries what a client has proposed. */
module Validity {
  import opened Types
  import opened LogModel
  import opened ProgressModel
  import opened EntrySize
  import opened RaftCore
  import opened Cluster
  import opened Invariant
  import opened Safety
  import opened NodeDuties

  predicate EntryKnown(cfg: Config, ps: set<Payload>, e: Entry) {
    e in cfg.boot || (e.typ == EntryNormal && e.data == []) || Payload(e.typ, e.data) in ps
  }

  ghost predicate Known(cfg: Config, ps: set<Payload>, es: seq<Entry>) {
    forall i {:trigger es[i]} :: 0 <= i < |es| ==> EntryKnown(cfg, ps, es[i])
  }

  ghost predicate AllIn(payloads: seq<Payload>, ps: set<Payload>) {
    forall i {:trigger payloads[i]} :: 0 <= i < |payloads| ==> payloads[i] in ps
  }

  ghost predicate MsgKnown(cfg: Config, ps: set<Payload>, m: Message) {
    (m.App? ==> Known(cfg, ps, m.entries)) && (m.Prop? ==> AllIn(m.payloads, ps))
  }

  ghost predicate MsgsKnown(cfg: Config, ps: set<Payload>, ms: set<Message>) {
    forall m {:trigger MsgKnown(cfg, ps, m)} :: m in ms ==> MsgKnown(cfg, ps, m)
  }

  ghost predicate NodeKnown(cfg: Config, ps: set<Payload>, n: Node) {
    Known(cfg, ps, n.log) && MsgsKnown(cfg, ps, n.msgs)
  }

  // ---------------------------------------------------------------- what a node sends and appends

  lemma AppendForKnown(cfg: Config, ps: set<Payload>, n: Node, pr: Progress, to: Id, sendIfEmpty: bool)
    requires Known(cfg, ps, n.log)
    ensures MsgKnown(cfg, ps, AppendFor(cfg, n, pr, to, sendIfEmpty).msg)
  {
    var es := AppendFor(cfg, n, pr, to, sendIfEmpty).msg.entries;
    if 0 < pr.next <= n.Last() {
      var from := n.log[pr.next - 1..];
      PrefixLimited(cfg.maxMsgSize, from);
      forall i | 0 <= i < |es| ensures EntryKnown(cfg, ps, es[i]) {
        assert es[i] == from[i] == n.log[pr.next - 1 + i];
      }
    }
  }

  lemma SendKnown(cfg: Config, ps: set<Payload>, n: Node, to: Id, sendIfEmpty: bool)
    requires NodeKnown(cfg, ps, n)
    ensures NodeKnown(cfg, ps, MaybeSendAppend(cfg, n, to, sendIfEmpty).0)
  {
    if to in n.prs { AppendForKnown(cfg, ps, n, n.prs[to], to, sendIfEmpty); }
  }

  lemma {:induction false} SendWhileKnown(cfg: Config, ps: set<Payload>, n: Node, to: Id)
    requires NodeKnown(cfg, ps, n)
    ensures NodeKnown(cfg, ps, SendWhile(cfg, n, to))
    decreases if to in n.prs then Room(n.prs[to]) else 0
  {
    var r := MaybeSendAppend(cfg, n, to, false);
    SendKnown(cfg, ps, n, to, false);
    if r.1 { SendWhileKnown(cfg, ps, r.0, to); }
  }

  lemma BcastKnown(cfg: Config, ps: set<Payload>, n: Node)
    requires NodeKnown(cfg, ps, n)
    ensures NodeKnown(cfg, ps, BcastAppend(cfg, n))
  {
    forall m | m in BcastAppend(cfg, n).msgs ensures MsgKnown(cfg, ps, m) {
      if m !in n.msgs {
        var v :| v in n.prs && v != n.id && m == AppendFor(cfg, n, n.prs[v], v, true).msg;
        AppendForKnown(cfg, ps, n, n.prs[v], v, true);
      }
    }
  }

  lemma AppendKnown(cfg: Config, ps: set<Payload>, n: Node, payloads: seq<Payload>)
    requires NodeKnown(cfg, ps, n)
    requires AllIn(payloads, ps) || payloads == [Payload(EntryNormal, [])]
    ensures NodeKnown(cfg, ps, AppendEntry(n, payloads))
  {
    AppendRule(n, payloads);
    var r := AppendEntry(n, payloads);
    forall i | 0 <= i < |r.log| ensures EntryKnown(cfg, ps, r.log[i]) {
      if i < |n.log| {
        assert r.log[i] == r.log[..|n.log|][i] == n.log[i];
      } else {
        var k := i - |n.log|;
        assert r.log[i] == r.log[|n.log|..][k];
        assert payloads[k] == Payload(r.log[i].typ, r.log[i].data);
      }
    }
  }

  lemma LeaderKnown(cfg: Config, ps: set<Payload>, n: Node)
    requires NodeKnown(cfg, ps, n)
    ensures NodeKnown(cfg, ps, BecomeLeader(cfg, n))
  {
    var r := Reset(cfg, n, n.term).(lead := n.id, role := Leader, fatal := n.fatal || n.role == Follower);
    var self := r.(prs := if n.id in r.prs then r.prs[n.id := r.prs[n.id].BecomeReplicate()] else r.prs);
    AppendKnown(cfg, ps, self, [Payload(EntryNormal, [])]);
  }

  lemma ElectionKnown(cfg: Config, ps: set<Payload>, n: Node)
    requires NodeKnown(cfg, ps, n)
    ensures NodeKnown(cfg, ps, CampaignElection(cfg, n))
  {
    var c := BecomeCandidate(cfg, n);
    LeaderKnown(cfg, ps, Poll(c, c.id, true));
  }

  lemma CampaignKnown(cfg: Config, ps: set<Payload>, n: Node)
    requires NodeKnown(cfg, ps, n)
    ensures NodeKnown(cfg, ps, CampaignPreElection(cfg, n))
  {
    var c := BecomePreCandidate(n);
    ElectionKnown(cfg, ps, Poll(c, c.id, true));
  }

  lemma VoteRespKnown(cfg: Config, ps: set<Payload>, n: Node, m: Message)
    requires NodeKnown(cfg, ps, n) && (m.VoteResp? || m.PreVoteResp?)
    ensures NodeKnown(cfg, ps, OnVoteResp(cfg, n, m))
  {
    var p := Poll(n, m.from, !m.reject);
    ElectionKnown(cfg, ps, p);
    LeaderKnown(cfg, ps, p);
    BcastKnown(cfg, ps, BecomeLeader(cfg, p));
  }

  lemma AcceptKnown(cfg: Config, ps: set<Payload>, n: Node, m: Message)
    requires NodeKnown(cfg, ps, n) && MsgKnown(cfg, ps, m) && m.App? && Consecutive(m.entries, m.index + 1)
    ensures NodeKnown(cfg, ps, HandleAppendEntries(n, m))
  {
    var r := HandleAppendEntries(n, m);
    if m.index >= n.commit && r.log != n.log {
      ConflictInRange(n.LogOf(), m.entries, m.index + 1);
      var at := n.LogOf().FindConflict(m.entries) - 1;
      assert r.log == n.log[..at] + m.entries[at - m.index..];
      forall i | 0 <= i < |r.log| ensures EntryKnown(cfg, ps, r.log[i]) {
        if i < at { assert r.log[i] == n.log[i]; } else { assert r.log[i] == m.entries[i - m.index]; }
      }
    }
  }

  lemma AppRespKnown(cfg: Config, ps: set<Payload>, n: Node, m: Message)
    requires NodeKnown(cfg, ps, n) && m.AppResp? && m.from in n.prs
    ensures NodeKnown(cfg, ps, OnAppResp(cfg, n, m))
  {
    var pr := n.prs[m.from].(recentActive := true);
    if m.reject {
      var d := pr.MaybeDecreaseTo(m.index, m.rejectHint);
      SendKnown(cfg, ps, SetProgress(n, m.from, if d.0.state == Replicate then d.0.BecomeProbe() else d.0), m.from, true);
    } else {
      var u := pr.MaybeUpdate(m.index);
      var c := MaybeCommit(SetProgress(n, m.from, u.0.AfterUpdate(m.index)));
      BcastKnown(cfg, ps, c.0);
      SendKnown(cfg, ps, c.0, m.from, true);
      var s := if c.1 then BcastAppend(cfg, c.0) else if pr.IsPaused() then SendAppend(cfg, c.0, m.from) else c.0;
      SendWhileKnown(cfg, ps, s, m.from);
    }
  }

  lemma ProposeKnown(cfg: Config, ps: set<Payload>, n: Node, payloads: seq<Payload>)
    requires NodeKnown(cfg, ps, n) && AllIn(payloads, ps)
    ensures NodeKnown(cfg, ps, Propose(cfg, n, payloads))
  {
    var n0 := n.(fatal := n.fatal || payloads == []);
    AppendKnown(cfg, ps, n0, payloads);
    BcastKnown(cfg, ps, AppendEntry(n0, payloads));
  }

  lemma StepLeaderKnown(cfg: Config, ps: set<Payload>, n: Node, m: Message)
    requires NodeKnown(cfg, ps, n) && MsgKnown(cfg, ps, m)
    ensures NodeKnown(cfg, ps, StepLeader(cfg, n, m))
  {
    match m
    case Prop(_, _, _, payloads) => ProposeKnown(cfg, ps, n, payloads);
    case AppResp(_, _, _, _, _, _) => if m.from in n.prs { AppRespKnown(cfg, ps, n, m); }
    case HeartbeatResp(_, _, _) =>
      if m.from in n.prs { SendKnown(cfg, ps, SetProgress(n, m.from, n.prs[m.from].OnHeartbeatResp()), m.from, true); }
    case _ =>
  }

  lemma DispatchKnown(cfg: Config, ps: set<Payload>, n: Node, m: Message)
    requires NodeKnown(cfg, ps, n) && MsgKnown(cfg, ps, m) && (m.App? ==> Consecutive(m.entries, m.index + 1))
    ensures NodeKnown(cfg, ps, Dispatch(cfg, n, m))
  {
    if !(m.Vote? || m.PreVote?) {
      match n.role
      case Leader => StepLeaderKnown(cfg, ps, n, m);
      case Follower => if m.App? { AcceptKnown(cfg, ps, n.(lead := m.from), m); }
      case _ =>
        if m.App? { AcceptKnown(cfg, ps, BecomeFollower(cfg, n, m.term, m.from), m); }
        if m.VoteResp? || m.PreVoteResp? { VoteRespKnown(cfg, ps, n, m); }
    }
  }

  lemma StepKnown(cfg: Config, ps: set<Payload>, n: Node, m: Message, inLease: bool)
    requires NodeKnown(cfg, ps, n) && MsgKnown(cfg, ps, m) && (m.App? ==> Consecutive(m.entries, m.index + 1))
    ensures NodeKnown(cfg, ps, Step(cfg, n, m, inLease))
  {
    DispatchKnown(cfg, ps, n, m);
    DispatchKnown(cfg, ps, BecomeFollower(cfg, n, m.term, m.from), m);
    DispatchKnown(cfg, ps, BecomeFollower(cfg, n, m.term, 0), m);
  }

  lemma LocalKnown(cfg: Config, ps: set<Payload>, n: Node, e: Event)
    requires NodeKnown(cfg, ps, n) && (e.Client? ==> AllIn(e.payloads, ps))
    ensures NodeKnown(cfg, ps, Local(cfg, n, e))
  {
    match e
    case Hup =>
      CampaignKnown(cfg, ps, n);
      ElectionKnown(cfg, ps, n);
    case TimeoutNow => ElectionKnown(cfg, ps, n);
    case Client(payloads) => if n.role == Leader { ProposeKnown(cfg, ps, n, payloads); }
    case _ =>
  }

  // ---------------------------------------------------------------- runs

  /** What clients have proposed. */
  function ProposedBy(a: Action): set<Payload> {
    if a.LocalEvent? && a.e.Client? then set i | 0 <= i < |a.e.payloads| :: a.e.payloads[i] else {}
  }

  function Proposed(actions: seq<Action>): set<Payload> {
    if actions == [] then {} else Proposed(actions[..|actions| - 1]) + ProposedBy(actions[|actions| - 1])
  }

  ghost predicate StateKnown(cfg: Config, ps: set<Payload>, s: State) {
    && (forall v {:trigger s.nodes[v]} :: v in s.nodes ==> Known(cfg, ps, s.nodes[v].log) && s.nodes[v].msgs == {})
    && MsgsKnown(cfg, ps, s.net)
  }

  lemma MoreKnown(cfg: Config, ps: set<Payload>, more: set<Payload>, s: State)
    requires StateKnown(cfg, ps, s) && ps <= more
    ensures StateKnown(cfg, more, s)
  {
    forall v | v in s.nodes ensures Known(cfg, more, s.nodes[v].log) && s.nodes[v].msgs == {} {
      MoreEntries(cfg, ps, more, s.nodes[v].log);
    }
    forall m | m in s.net ensures MsgKnown(cfg, more, m) {
      assert MsgKnown(cfg, ps, m);
      if m.App? { MoreEntries(cfg, ps, more, m.entries); }
    }
  }

  lemma MoreEntries(cfg: Config, ps: set<Payload>, more: set<Payload>, es: seq<Entry>)
    requires Known(cfg, ps, es) && ps <= more
    ensures Known(cfg, more, es)
  {
  }

  lemma PutKnown(cfg: Config, ps: set<Payload>, s: State, n: Node)
    requires StateKnown(cfg, ps, s) && NodeKnown(cfg, ps, n)
    ensures StateKnown(cfg, ps, Put(s, n))
  {
    forall m | m in Put(s, n).net ensures MsgKnown(cfg, ps, m) {}
  }

  lemma ActionKnown(cfg: Config, ps: set<Payload>, s: State, a: Action)
    requires StateKnown(cfg, ps, s) && Enabled(s, a) && ProposedBy(a) <= ps
    ensures StateKnown(cfg, ps, Apply(cfg, s, a))
  {
    match a
    case Deliver(m, inLease) =>
      assert MsgKnown(cfg, ps, m);
      StepKnown(cfg, ps, s.nodes[m.to], m, inLease);
      PutKnown(cfg, ps, s, Step(cfg, s.nodes[m.to], m, inLease));
    case LocalEvent(id, e) =>
      if e.Client? {
        forall i | 0 <= i < |e.payloads| ensures e.payloads[i] in ps { assert e.payloads[i] in ProposedBy(a); }
      }
      LocalKnown(cfg, ps, s.nodes[id], e);
      PutKnown(cfg, ps, s, Local(cfg, s.nodes[id], e));
    case Crash(id, commit) =>
      PutKnown(cfg, ps, s, Restart(cfg, s.nodes[id], commit));
  }

  lemma {:induction false} RunIsKnown(cfg: Config, r: Run, i: nat)
    requires IsRun(cfg, r) && i < |r.states|
    ensures StateKnown(cfg, Proposed(r.actions[..i]), r.states[i])
  {
    if i == 0 {
      forall v | v in r.states[0].nodes ensures Known(cfg, {}, r.states[0].nodes[v].log) && r.states[0].nodes[v].msgs == {} {
        assert StartsAt(cfg, r.states[0], v);
      }
      assert r.actions[..0] == [];
    } else {
      RunIsKnown(cfg, r, i - 1);
      var before, now := Proposed(r.actions[..i - 1]), Proposed(r.actions[..i]);
      assert r.actions[..i][..i - 1] == r.actions[..i - 1];
      MoreKnown(cfg, before, now, r.states[i - 1]);
      assert IsStep(cfg, r, i - 1);
      ActionKnown(cfg, now, r.states[i - 1], r.actions[i - 1]);
    }
  }

  /** Validity: at every moment of every run, an entry of any log belongs to the bootstrap, is the empty
      entry of a new leader, or has the type and the data of something a client proposed before. */
  lemma OnlyProposedEntries(cfg: Config, r: Run, i: nat, a: Id, k: nat)
    requires IsRun(cfg, r) && i < |r.states| && a in r.states[i].nodes && k < |r.states[i].nodes[a].log|
    ensures var e := r.states[i].nodes[a].log[k];
            e in cfg.boot || (e.typ == EntryNormal && e.data == [])
            || exists j :: 0 <= j < i && r.actions[j].LocalEvent? && r.actions[j].e.Client?
                           && Payload(e.typ, e.data) in r.actions[j].e.payloads
  {
    RunIsKnown(cfg, r, i);
    var e := r.states[i].nodes[a].log[k];
    assert EntryKnown(cfg, Proposed(r.actions[..i]), e);
    if Payload(e.typ, e.data) in Proposed(r.actions[..i]) {
      var j := ProposedWhen(r.actions[..i], Payload(e.typ, e.data));
      assert r.actions[..i][j] == r.actions[j];
    }
  }

  lemma {:induction false} ProposedWhen(actions: seq<Action>, p: Payload) returns (j: nat)
    requires p in Proposed(actions)
    ensures j < |actions| && actions[j].LocalEvent? && actions[j].e.Client? && p in actions[j].e.payloads
  {
    var last := |actions| - 1;
    if p in ProposedBy(actions[last]) {
      j := last;
    } else {
      j := ProposedWhen(actions[..last], p);
    }
  }
}

/** A leader never lags behind what it knows: in every run, whatever a majority has matched in its term it
    has committed. */
module Commitment {
  import opened Types
  import opened LogModel
  import opened ProgressModel
  import opened Quorum
  import opened RaftCore
  import opened Cluster
  import opened Invariant
  import opened Safety
  import opened Growth
  import opened NodeDuties

  /** A leader counts its whole log as matched by itself, and `maybe_commit` has nothing left to do. */
  ghost predicate Keen(n: Node) {
    n.role == Leader ==> n.id in n.prs && n.prs[n.id].matched == |n.log| && !MaybeCommit(n).1
  }

  /** The same for everything that the commit rule looks at. */
  ghost predicate Same(n: Node, r: Node) {
    && r.id == n.id && r.role == n.role && r.term == n.term && r.log == n.log && r.commit == n.commit
    && r.prs.Keys == n.prs.Keys && forall v :: v in n.prs ==> r.prs[v].matched == n.prs[v].matched
  }

  lemma SameKeen(n: Node, r: Node)
    requires Same(n, r) && Keen(n)
    ensures Keen(r)
  {
    assert Matches(r) == Matches(n);
  }

  lemma SameTransitive(a: Node, b: Node, c: Node)
    requires Same(a, b) && Same(b, c)
    ensures Same(a, c)
  {
  }

  /** Asking again does not move the commit index again. */
  lemma MaybeCommitSettles(n: Node)
    requires n.term > 0
    ensures var r := MaybeCommit(n).0;
            && !MaybeCommit(r).1 && r.id == n.id && r.role == n.role && r.term == n.term && r.log == n.log && r.prs == n.prs
  {
    if n.prs.Keys != {} {
      var r := MaybeCommit(n).0;
      assert Matches(r) == Matches(n) && Matches(n).Keys == n.prs.Keys;
      CommitRule(n, QuorumIndex(Matches(n)));
      CommitRule(r, QuorumIndex(Matches(n)));
    }
  }

  // ---------------------------------------------------------------- sending changes nothing of it

  lemma AppendForSame(cfg: Config, n: Node, pr: Progress, to: Id, sendIfEmpty: bool)
    ensures AppendFor(cfg, n, pr, to, sendIfEmpty).pr.matched == pr.matched
  {
  }

  lemma SendSame(cfg: Config, n: Node, to: Id, sendIfEmpty: bool)
    ensures Same(n, MaybeSendAppend(cfg, n, to, sendIfEmpty).0)
  {
    if to in n.prs { AppendForSame(cfg, n, n.prs[to], to, sendIfEmpty); }
  }

  lemma {:induction false} SendWhileSame(cfg: Config, n: Node, to: Id)
    ensures Same(n, SendWhile(cfg, n, to))
    decreases if to in n.prs then Room(n.prs[to]) else 0
  {
    var r := MaybeSendAppend(cfg, n, to, false);
    SendSame(cfg, n, to, false);
    if r.1 {
      SendWhileSame(cfg, r.0, to);
      SameTransitive(n, r.0, SendWhile(cfg, r.0, to));
    }
  }

  lemma BcastSame(cfg: Config, n: Node)
    ensures Same(n, BcastAppend(cfg, n))
  {
    forall v | v in n.prs ensures AppendFor(cfg, n, n.prs[v], v, true).pr.matched == n.prs[v].matched {
      AppendForSame(cfg, n, n.prs[v], v, true);
    }
  }

  // ---------------------------------------------------------------- every step of a leader

  lemma AppendKeen(n: Node, payloads: seq<Payload>)
    requires n.term > 0 && n.id in n.prs && n.prs[n.id].matched <= |n.log|
    ensures Keen(AppendEntry(n, payloads)) && AppendEntry(n, payloads).role == n.role
  {
    AppendRule(n, payloads);
    var log := n.log + NewEntries(n, payloads);
    var a := n.(log := log, fatal := n.fatal || n.Last() < n.commit);
    MaybeCommitSettles(a.(prs := a.prs[n.id := a.prs[n.id].MaybeUpdate(|log|).0]));
  }

  lemma LeaderKeen(cfg: Config, n: Node)
    requires n.term > 0 && n.id in n.prs
    ensures Keen(BecomeLeader(cfg, n))
  {
    var r := Reset(cfg, n, n.term).(lead := n.id, role := Leader, fatal := n.fatal || n.role == Follower);
    var self := r.(prs := r.prs[n.id := r.prs[n.id].BecomeReplicate()]);
    AppendKeen(self, [Payload(EntryNormal, [])]);
  }

  lemma ProposeKeen(cfg: Config, n: Node, payloads: seq<Payload>)
    requires n.role == Leader && n.term > 0 && Keen(n)
    ensures Keen(Propose(cfg, n, payloads))
  {
    var n0 := n.(fatal := n.fatal || payloads == []);
    AppendKeen(n0, payloads);
    BcastSame(cfg, AppendEntry(n0, payloads));
    SameKeen(AppendEntry(n0, payloads), Propose(cfg, n, payloads));
  }

  lemma RejectedSame(cfg: Config, n: Node, m: Message)
    requires m.AppResp? && m.from in n.prs && m.reject
    ensures Same(n, OnAppResp(cfg, n, m))
  {
    var d := n.prs[m.from].(recentActive := true).MaybeDecreaseTo(m.index, m.rejectHint);
    if d.1 {
      var n1 := SetProgress(n, m.from, if d.0.state == Replicate then d.0.BecomeProbe() else d.0);
      SendSame(cfg, n1, m.from, true);
      SameTransitive(n, n1, SendAppend(cfg, n1, m.from));
    }
  }

  /** What follows the commit in an accepted append. */
  function AfterCommit(cfg: Config, n: Node, to: Id, committed: bool, wasPaused: bool): Node {
    SendWhile(cfg, if committed then BcastAppend(cfg, n) else if wasPaused then SendAppend(cfg, n, to) else n, to)
  }

  lemma AfterCommitSame(cfg: Config, n: Node, to: Id, committed: bool, wasPaused: bool)
    ensures Same(n, AfterCommit(cfg, n, to, committed, wasPaused))
  {
    var s := if committed then BcastAppend(cfg, n) else if wasPaused then SendAppend(cfg, n, to) else n;
    BcastSame(cfg, n);
    SendSame(cfg, n, to, true);
    SendWhileSame(cfg, s, to);
    SameTransitive(n, s, SendWhile(cfg, s, to));
  }

  /** The leader's record of a follower once it has accepted up to an index, before the commit rule. */
  function Recorded(n: Node, m: Message): Node
    requires m.AppResp? && m.from in n.prs
  {
    SetProgress(n, m.from, n.prs[m.from].(recentActive := true).MaybeUpdate(m.index).0.AfterUpdate(m.index))
  }

  lemma AcceptedIs(cfg: Config, n: Node, m: Message)
    requires m.AppResp? && m.from in n.prs && !m.reject
    ensures m.index > n.prs[m.from].matched ==>
              var c := MaybeCommit(Recorded(n, m));
              && OnAppResp(cfg, n, m) == AfterCommit(cfg, c.0, m.from, c.1, n.prs[m.from].IsPaused())
              && Recorded(n, m).prs[m.from].matched == m.index
    ensures m.index <= n.prs[m.from].matched ==>
              OnAppResp(cfg, n, m) == SetProgress(n, m.from, n.prs[m.from].(recentActive := true).MaybeUpdate(m.index).0)
  {
  }

  lemma AcceptedKeen(cfg: Config, n: Node, m: Message)
    requires m.AppResp? && m.from in n.prs && m.from != n.id && !m.reject && n.role == Leader && n.term > 0 && Keen(n)
    ensures Keen(OnAppResp(cfg, n, m))
  {
    AcceptedIs(cfg, n, m);
    if m.index > n.prs[m.from].matched {
      var c := MaybeCommit(Recorded(n, m));
      MaybeCommitSettles(Recorded(n, m));
      AfterCommitSame(cfg, c.0, m.from, c.1, n.prs[m.from].IsPaused());
      SameKeen(c.0, OnAppResp(cfg, n, m));
    } else {
      SameKeen(n, OnAppResp(cfg, n, m));
    }
  }

  lemma HeartbeatRespSame(cfg: Config, n: Node, from: Id)
    requires from in n.prs
    ensures Same(n, OnHeartbeatResp(cfg, n, from))
  {
    var s := SetProgress(n, from, n.prs[from].OnHeartbeatResp());
    SendSame(cfg, s, from, true);
    SameTransitive(n, s, SendAppend(cfg, s, from));
  }

  lemma StepLeaderKeen(cfg: Config, n: Node, m: Message)
    requires n.role == Leader && n.term > 0 && Keen(n) && m.from != n.id
    ensures Keen(StepLeader(cfg, n, m))
  {
    match m
    case Prop(_, _, _, payloads) => ProposeKeen(cfg, n, payloads);
    case AppResp(_, _, _, _, reject, _) =>
      if m.from in n.prs {
        if reject {
          RejectedSame(cfg, n, m);
          SameKeen(n, OnAppResp(cfg, n, m));
        } else {
          AcceptedKeen(cfg, n, m);
        }
      }
    case HeartbeatResp(_, _, _) =>
      if m.from in n.prs {
        HeartbeatRespSame(cfg, n, m.from);
        SameKeen(n, OnHeartbeatResp(cfg, n, m.from));
      }
    case _ =>
  }

  // ---------------------------------------------------------------- every way to become leader

  lemma ElectionKeen(cfg: Config, n: Node)
    requires n.id in n.prs
    ensures Keen(CampaignElection(cfg, n))
  {
    LeaderKeen(cfg, Poll(BecomeCandidate(cfg, n), n.id, true));
  }

  lemma CampaignKeen(cfg: Config, n: Node)
    requires n.id in n.prs
    ensures Keen(CampaignElection(cfg, n)) && Keen(CampaignPreElection(cfg, n))
  {
    ElectionKeen(cfg, n);
    ElectionKeen(cfg, Poll(BecomePreCandidate(n), n.id, true));
  }

  lemma WonKeen(cfg: Config, p: Node)
    requires p.term > 0 && p.id in p.prs
    ensures Keen(BcastAppend(cfg, BecomeLeader(cfg, p)))
  {
    LeaderKeen(cfg, p);
    BcastSame(cfg, BecomeLeader(cfg, p));
    SameKeen(BecomeLeader(cfg, p), BcastAppend(cfg, BecomeLeader(cfg, p)));
  }

  lemma VoteRespKeen(cfg: Config, n: Node, m: Message)
    requires (m.VoteResp? || m.PreVoteResp?) && (n.role == Candidate ==> n.term > 0) && n.id in n.prs
    requires n.role == Candidate || n.role == PreCandidate
    ensures Keen(OnVoteResp(cfg, n, m))
  {
    var p := Poll(n, m.from, !m.reject);
    if p.role == PreCandidate { ElectionKeen(cfg, p); } else { WonKeen(cfg, p); }
    VoteRespIs(cfg, n, m, p);
  }

  lemma VoteRespIs(cfg: Config, n: Node, m: Message, p: Node)
    requires (m.VoteResp? || m.PreVoteResp?) && p == Poll(n, m.from, !m.reject) && n.role != Leader
    ensures n.role == PreCandidate ==> OnVoteResp(cfg, n, m) == CampaignElection(cfg, p) || OnVoteResp(cfg, n, m).role != Leader
    ensures n.role != PreCandidate ==> OnVoteResp(cfg, n, m) == BcastAppend(cfg, BecomeLeader(cfg, p)) || OnVoteResp(cfg, n, m).role != Leader
  {
  }

  lemma DispatchKeen(cfg: Config, n: Node, m: Message)
    requires (m.App? ==> Consecutive(m.entries, m.index + 1)) && n.id in n.prs && m.from != n.id && Keen(n)
    requires n.role == Leader || n.role == Candidate ==> n.term > 0
    ensures Keen(Dispatch(cfg, n, m))
  {
    if m.Vote? || m.PreVote? {
      if n.role == Leader { SameKeen(n, HandleVote(n, m)); }
    } else if n.role == Leader {
      StepLeaderKeen(cfg, n, m);
    } else if (n.role == Candidate || n.role == PreCandidate) && (m.VoteResp? || m.PreVoteResp?) {
      VoteRespKeen(cfg, n, m);
    }
  }

  /** A message of an earlier term is answered at most. */
  lemma StaleKeen(cfg: Config, n: Node, m: Message, inLease: bool)
    requires (m.App? ==> Consecutive(m.entries, m.index + 1)) && Keen(n) && 0 < m.term < n.term
    ensures Keen(Step(cfg, n, m, inLease))
  {
    SameOutbox(n, n.msgs + {AppResp(n.id, m.from, n.term, 0, false, 0)}, n.fatal);
    SameOutbox(n, n.msgs + {PreVoteResp(n.id, m.from, n.term, true)}, n.fatal || n.term == 0);
  }

  lemma SameOutbox(n: Node, msgs: set<Message>, fatal: bool)
    requires Keen(n)
    ensures Keen(n.(msgs := msgs, fatal := fatal))
  {
    if n.role == Leader { SameKeen(n, n.(msgs := msgs, fatal := fatal)); }
  }

  lemma StepKeen(cfg: Config, n: Node, m: Message, inLease: bool)
    requires (m.App? ==> Consecutive(m.entries, m.index + 1)) && n.id in n.prs && m.from != n.id && Keen(n)
    requires n.role == Leader || n.role == Candidate ==> n.term > 0
    ensures Keen(Step(cfg, n, m, inLease))
  {
    DispatchKeen(cfg, n, m);
    if m.term > n.term {
      DispatchKeen(cfg, BecomeFollower(cfg, n, m.term, m.from), m);
      DispatchKeen(cfg, BecomeFollower(cfg, n, m.term, 0), m);
    } else if 0 < m.term < n.term {
      StaleKeen(cfg, n, m, inLease);
    }
  }

  lemma LocalKeen(cfg: Config, n: Node, e: Event)
    requires n.id in n.prs && Keen(n) && (n.role == Leader ==> n.term > 0)
    ensures Keen(Local(cfg, n, e))
  {
    match e
    case Hup => CampaignKeen(cfg, n);
    case TimeoutNow => CampaignKeen(cfg, n);
    case Beat => if n.role == Leader { SameKeen(n, BcastHeartbeat(n)); }
    case Unreachable(v) =>
      if n.role == Leader && v in n.prs && n.prs[v].state == Replicate { SameKeen(n, SetProgress(n, v, n.prs[v].BecomeProbe())); }
    case Client(payloads) => if n.role == Leader { ProposeKeen(cfg, n, payloads); }
    case _ =>
  }

  // ---------------------------------------------------------------- runs

  ghost predicate AllKeen(s: State) {
    forall v {:trigger s.nodes[v]} :: v in s.nodes ==> Keen(s.nodes[v])
  }

  lemma PutKeen(s: State, n: Node)
    requires AllKeen(s) && Keen(n)
    ensures AllKeen(Put(s, n))
  {
    if n.role == Leader { SameKeen(n, n.(msgs := {})); }
  }

  lemma NodeTerms(cfg: Config, s: State, h: History, v: Id)
    requires Inv(cfg, s, h) && v in s.nodes
    ensures s.nodes[v].id == v && v in s.nodes[v].prs
    ensures s.nodes[v].role == Leader || s.nodes[v].role == Candidate ==> s.nodes[v].term > 0
  {
    assert NodeFits(cfg, s, h, v);
    if s.nodes[v].role == Leader { LeaderRecorded(cfg, s, h, v, s.nodes[v].term); }
    if s.nodes[v].role == Candidate { assert CampaignOk(cfg, h, s.nodes[v].term, v); }
  }

  lemma ActionKeen(cfg: Config, s: State, h: History, a: Action)
    requires Inv(cfg, s, h) && Enabled(s, a) && AllKeen(s)
    ensures AllKeen(Apply(cfg, s, a))
  {
    match a
    case Deliver(m, inLease) =>
      NodeTerms(cfg, s, h, m.to);
      assert MsgOk(cfg, h, m);
      StepKeen(cfg, s.nodes[m.to], m, inLease);
      PutKeen(s, Step(cfg, s.nodes[m.to], m, inLease));
    case LocalEvent(id, e) =>
      NodeTerms(cfg, s, h, id);
      LocalKeen(cfg, s.nodes[id], e);
      PutKeen(s, Local(cfg, s.nodes[id], e));
    case Crash(id, commit) =>
      PutKeen(s, Restart(cfg, s.nodes[id], commit));
  }

  lemma {:induction false} RunKeen(cfg: Config, r: Run, i: nat)
    requires SoundRun(cfg, r) && i < |r.states|
    ensures AllKeen(r.states[i])
  {
    if i == 0 {
      assert forall v :: v in r.states[0].nodes ==> StartsAt(cfg, r.states[0], v);
    } else {
      RunKeen(cfg, r, i - 1);
      var h, _ := TwoHistories(cfg, r, i - 1, i - 1);
      assert IsStep(cfg, r, i - 1);
      ActionKeen(cfg, r.states[i - 1], h, r.actions[i - 1]);
    }
  }

  lemma LeaderFacts(cfg: Config, s: State, h: History, a: Id, t: nat)
    requires Inv(cfg, s, h) && Leads(s, a, t)
    ensures var n := s.nodes[a];
            && n.id == a && n.prs.Keys == cfg.voters && n.term > 0 && EndsInPresent(n)
            && (forall v :: v in n.prs ==> n.prs[v].matched <= |n.log|)
            && n.log != [] && n.log[|n.log| - 1].term == t && n.commit <= |n.log|
  {
    var n := s.nodes[a];
    assert NodeFits(cfg, s, h, a);
    LeaderRecorded(cfg, s, h, a, t);
    assert LeaderLogOk(cfg, h.logs, t);
    CommitFitsHere(cfg, s, h, a);
  }

  lemma CommitFitsHere(cfg: Config, s: State, h: History, a: Id)
    requires Inv(cfg, s, h) && a in s.nodes
    ensures s.nodes[a].commit <= |s.nodes[a].log|
  {
    GrowsReflexive(h);
    CommitStays(cfg, s, h, h, a);
  }

  /** In every run, at every moment: whatever index of its own term more than half of the voters are known
      to have reached, a leader has committed; and it counts itself. */
  lemma LeaderCommitsAll(cfg: Config, r: Run, i: nat, a: Id, t: nat)
    requires SoundRun(cfg, r) && i < |r.states| && Leads(r.states[i], a, t)
    ensures CommitsAll(r.states[i].nodes[a])
    ensures a in r.states[i].nodes[a].prs && r.states[i].nodes[a].prs[a].matched == |r.states[i].nodes[a].log|
  {
    RunKeen(cfg, r, i);
    var h, _ := TwoHistories(cfg, r, i, i);
    LeaderFacts(cfg, r.states[i], h, a, t);
    CommitLeavesNothing(r.states[i].nodes[a]);
  }

  /** Once a majority has matched the whole log, all of it is committed. */
  lemma MatchedByMajorityIsCommitted(cfg: Config, r: Run, i: nat, a: Id, t: nat, q: set<Id>)
    requires SoundRun(cfg, r) && i < |r.states| && Leads(r.states[i], a, t) && IsQuorum(cfg.voters, q)
    requires forall v :: v in q ==> v in r.states[i].nodes[a].prs && r.states[i].nodes[a].prs[v].matched == |r.states[i].nodes[a].log|
    ensures r.states[i].nodes[a].commit == |r.states[i].nodes[a].log|
  {
    var n := r.states[i].nodes[a];
    LeaderCommitsAll(cfg, r, i, a, t);
    var h, _ := TwoHistories(cfg, r, i, i);
    LeaderFacts(cfg, r.states[i], h, a, t);
    assert q <= Reached(Matches(n), |n.log|);
    SubsetSize(q, Reached(Matches(n), |n.log|));
    assert Matches(n).Keys == cfg.voters;
    assert OfPresentTerm(n, |n.log|);
  }
}

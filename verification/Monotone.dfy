/** What never goes back: terms, commit indexes (but for restarts), and, while a leader leads,
    its log and the match indexes of its followers. */
module Monotone {
  import opened Types
  import opened LogModel
  import opened ProgressModel
  import opened RaftCore
  import opened Cluster
  import opened Invariant
  import opened Safety

  /** Term and commit index do not go back, the vote of a term does not change, and a log with entries
      keeps some. */
  ghost predicate Forward(n: Node, r: Node) {
    && n.term <= r.term && n.commit <= r.commit
    && (r.term == n.term && n.vote != 0 ==> r.vote == n.vote)
    && (r.log == [] ==> n.log == [])
  }

  /** A leader that goes on leading its term: no match index goes back. */
  ghost predicate Leading(n: Node, r: Node) {
    && n.role == Leader && r.role == Leader && r.term == n.term && Forward(n, r)
    && r.prs.Keys == n.prs.Keys
    && forall v :: v in n.prs ==> n.prs[v].matched <= r.prs[v].matched
  }

  lemma LeadingTransitive(a: Node, b: Node, c: Node)
    requires Leading(a, b) && Leading(b, c)
    ensures Leading(a, c)
  {
  }

  lemma MaybeCommitForward(n: Node)
    ensures Forward(n, MaybeCommit(n).0) && MaybeCommit(n).0.role == n.role
    ensures n.role == Leader ==> Leading(n, MaybeCommit(n).0)
  {
  }

  lemma AppendEntryForward(n: Node, payloads: seq<Payload>)
    ensures Forward(n, AppendEntry(n, payloads)) && AppendEntry(n, payloads).role == n.role
    ensures n.role == Leader ==> Leading(n, AppendEntry(n, payloads))
  {
    var log := n.log + NewEntries(n, payloads);
    var a := n.(log := log, fatal := n.fatal || n.Last() < n.commit);
    var p := if n.id in n.prs then a.(prs := a.prs[n.id := a.prs[n.id].MaybeUpdate(|log|).0]) else a;
    MaybeCommitForward(p);
    if n.role == Leader { LeadingTransitive(n, p, MaybeCommit(p).0); }
  }

  lemma AppendForKeepsMatch(cfg: Config, n: Node, pr: Progress, to: Id, sendIfEmpty: bool)
    ensures AppendFor(cfg, n, pr, to, sendIfEmpty).pr.matched == pr.matched
  {
  }

  lemma SendLeads(cfg: Config, n: Node, to: Id, sendIfEmpty: bool)
    requires n.role == Leader
    ensures Leading(n, MaybeSendAppend(cfg, n, to, sendIfEmpty).0)
  {
    if to in n.prs { AppendForKeepsMatch(cfg, n, n.prs[to], to, sendIfEmpty); }
  }

  lemma {:induction false} SendWhileLeads(cfg: Config, n: Node, to: Id)
    requires n.role == Leader
    ensures Leading(n, SendWhile(cfg, n, to))
    decreases if to in n.prs then Room(n.prs[to]) else 0
  {
    var r := MaybeSendAppend(cfg, n, to, false);
    SendLeads(cfg, n, to, false);
    if r.1 {
      SendWhileLeads(cfg, r.0, to);
      LeadingTransitive(n, r.0, SendWhile(cfg, r.0, to));
    }
  }

  lemma BcastLeads(cfg: Config, n: Node)
    requires n.role == Leader
    ensures Leading(n, BcastAppend(cfg, n))
  {
    forall v | v in n.prs ensures AppendFor(cfg, n, n.prs[v], v, true).pr.matched == n.prs[v].matched {
      AppendForKeepsMatch(cfg, n, n.prs[v], v, true);
    }
  }

  lemma RejectedLeads(cfg: Config, n: Node, m: Message)
    requires n.role == Leader && m.AppResp? && m.from in n.prs && m.reject
    ensures Leading(n, OnAppResp(cfg, n, m))
  {
    var pr := n.prs[m.from].(recentActive := true);
    var d := pr.MaybeDecreaseTo(m.index, m.rejectHint);
    if d.1 {
      var n1 := SetProgress(n, m.from, if d.0.state == Replicate then d.0.BecomeProbe() else d.0);
      SendLeads(cfg, n1, m.from, true);
      LeadingTransitive(n, n1, SendAppend(cfg, n1, m.from));
    }
  }

  lemma AcceptedLeads(cfg: Config, n: Node, m: Message)
    requires n.role == Leader && m.AppResp? && m.from in n.prs && !m.reject
    ensures Leading(n, OnAppResp(cfg, n, m))
  {
    var pr := n.prs[m.from].(recentActive := true);
    var u := pr.MaybeUpdate(m.index);
    if u.1 {
      var n1 := SetProgress(n, m.from, u.0.AfterUpdate(m.index));
      assert Leading(n, n1);
      var c := MaybeCommit(n1);
      MaybeCommitForward(n1);
      LeadingTransitive(n, n1, c.0);
      AfterCommitLeads(cfg, c.0, m.from, c.1, pr.IsPaused());
      LeadingTransitive(n, c.0, OnAppResp(cfg, n, m));
    }
  }

  lemma AfterCommitLeads(cfg: Config, n: Node, to: Id, committed: bool, wasPaused: bool)
    requires n.role == Leader
    ensures var s := if committed then BcastAppend(cfg, n) else if wasPaused then SendAppend(cfg, n, to) else n;
            Leading(n, SendWhile(cfg, s, to))
  {
    var s := if committed then BcastAppend(cfg, n) else if wasPaused then SendAppend(cfg, n, to) else n;
    BcastLeads(cfg, n);
    SendLeads(cfg, n, to, true);
    SendWhileLeads(cfg, s, to);
    LeadingTransitive(n, s, SendWhile(cfg, s, to));
  }

  lemma OnHeartbeatRespLeads(cfg: Config, n: Node, from: Id)
    requires n.role == Leader && from in n.prs
    ensures Leading(n, OnHeartbeatResp(cfg, n, from))
  {
    var n1 := SetProgress(n, from, n.prs[from].OnHeartbeatResp());
    SendLeads(cfg, n1, from, true);
    LeadingTransitive(n, n1, SendAppend(cfg, n1, from));
  }

  lemma ProposeLeads(cfg: Config, n: Node, payloads: seq<Payload>)
    requires n.role == Leader
    ensures Leading(n, Propose(cfg, n, payloads))
  {
    var n0 := n.(fatal := n.fatal || payloads == []);
    AppendEntryForward(n0, payloads);
    BcastLeads(cfg, AppendEntry(n0, payloads));
    LeadingTransitive(n0, AppendEntry(n0, payloads), Propose(cfg, n, payloads));
  }

  lemma StepLeaderLeads(cfg: Config, n: Node, m: Message)
    requires n.role == Leader
    ensures Leading(n, StepLeader(cfg, n, m))
  {
    match m
    case Prop(_, _, _, payloads) => ProposeLeads(cfg, n, payloads);
    case AppResp(_, _, _, _, _, _) =>
      if m.from in n.prs { if m.reject { RejectedLeads(cfg, n, m); } else { AcceptedLeads(cfg, n, m); } }
    case HeartbeatResp(_, _, _) => if m.from in n.prs { OnHeartbeatRespLeads(cfg, n, m.from); }
    case _ =>
  }

  // ---------------------------------------------------------------- other roles

  /** How a node that does not lead may come out of an event. */
  ghost predicate NotLeading(n: Node, r: Node) {
    Forward(n, r) && (r.role == Leader && r.term == n.term ==> n.role == Candidate)
  }

  lemma HandleAppendForward(n: Node, m: Message)
    requires m.App? && Consecutive(m.entries, m.index + 1)
    ensures Forward(n, HandleAppendEntries(n, m)) && HandleAppendEntries(n, m).role == n.role
  {
  }

  lemma BecomeLeaderForward(cfg: Config, n: Node)
    ensures Forward(n, BecomeLeader(cfg, n)) && BecomeLeader(cfg, n).role == Leader && BecomeLeader(cfg, n).term == n.term
  {
    var r := Reset(cfg, n, n.term).(lead := n.id, role := Leader, fatal := n.fatal || n.role == Follower);
    var self := r.(prs := if n.id in r.prs then r.prs[n.id := r.prs[n.id].BecomeReplicate()] else r.prs);
    AppendEntryForward(self, [Payload(EntryNormal, [])]);
  }

  lemma ElectionForward(cfg: Config, n: Node)
    ensures Forward(n, CampaignElection(cfg, n)) && CampaignElection(cfg, n).term == n.term + 1
  {
    BecomeLeaderForward(cfg, Poll(BecomeCandidate(cfg, n), n.id, true));
  }

  lemma CampaignForward(cfg: Config, n: Node)
    ensures Forward(n, CampaignElection(cfg, n)) && CampaignElection(cfg, n).term == n.term + 1
    ensures Forward(n, CampaignPreElection(cfg, n))
    ensures CampaignPreElection(cfg, n).role == Leader ==> CampaignPreElection(cfg, n).term == n.term + 1
  {
    ElectionForward(cfg, n);
    ElectionForward(cfg, Poll(BecomePreCandidate(n), n.id, true));
  }

  lemma WonForward(cfg: Config, p: Node)
    ensures var r := BcastAppend(cfg, BecomeLeader(cfg, p)); Forward(p, r) && r.role == Leader && r.term == p.term
  {
    BecomeLeaderForward(cfg, p);
    BcastLeads(cfg, BecomeLeader(cfg, p));
  }

  lemma OnVoteRespForward(cfg: Config, n: Node, m: Message)
    requires (m.VoteResp? || m.PreVoteResp?) && (n.role == Candidate || n.role == PreCandidate)
    ensures NotLeading(n, OnVoteResp(cfg, n, m))
  {
    var p := Poll(n, m.from, !m.reject);
    if p.Quorum() == |Granted(p.votes)| {
      if p.role == PreCandidate { CampaignForward(cfg, p); } else { WonForward(cfg, p); }
    }
  }

  lemma StepFollowerForward(cfg: Config, n: Node, m: Message)
    requires (m.App? ==> Consecutive(m.entries, m.index + 1)) && n.role == Follower
    ensures NotLeading(n, StepFollower(cfg, n, m))
  {
    if m.App? { HandleAppendForward(n.(lead := m.from), m); }
  }

  lemma StepCandidateForward(cfg: Config, n: Node, m: Message)
    requires (m.App? ==> Consecutive(m.entries, m.index + 1)) && n.term <= m.term
    requires n.role == Candidate || n.role == PreCandidate
    ensures NotLeading(n, StepCandidate(cfg, n, m))
  {
    if m.App? { HandleAppendForward(BecomeFollower(cfg, n, m.term, m.from), m); }
    if m.VoteResp? || m.PreVoteResp? { OnVoteRespForward(cfg, n, m); }
  }

  lemma DispatchForward(cfg: Config, n: Node, m: Message)
    requires (m.App? ==> Consecutive(m.entries, m.index + 1)) && n.term <= m.term
    ensures n.role != Leader ==> NotLeading(n, Dispatch(cfg, n, m))
    ensures n.role == Leader ==> Leading(n, Dispatch(cfg, n, m))
  {
    if !(m.Vote? || m.PreVote?) {
      match n.role
      case Leader => StepLeaderLeads(cfg, n, m);
      case Candidate => StepCandidateForward(cfg, n, m);
      case PreCandidate => StepCandidateForward(cfg, n, m);
      case Follower => StepFollowerForward(cfg, n, m);
    }
  }

  /** One message: either the leader goes on leading, or nothing goes back and a node turns
      leader of its present term only from candidate. */
  lemma StepForward(cfg: Config, n: Node, m: Message, inLease: bool)
    requires (m.App? ==> Consecutive(m.entries, m.index + 1)) && m.term > 0
    ensures var r := Step(cfg, n, m, inLease);
            Forward(n, r) && (r.role == Leader && r.term == n.term ==> n.role == Candidate || Leading(n, r))
  {
    if m.term > n.term {
      var f1, f2 := BecomeFollower(cfg, n, m.term, m.from), BecomeFollower(cfg, n, m.term, 0);
      DispatchForward(cfg, n, m);
      DispatchForward(cfg, f1, m);
      DispatchForward(cfg, f2, m);
    } else if m.term == n.term {
      DispatchForward(cfg, n, m);
    }
  }

  lemma LocalForward(cfg: Config, n: Node, e: Event)
    ensures var r := Local(cfg, n, e);
            Forward(n, r) && (r.role == Leader && r.term == n.term ==> n.role == Candidate || Leading(n, r))
  {
    match e
    case Hup => CampaignForward(cfg, n);
    case TimeoutNow => CampaignForward(cfg, n);
    case Client(payloads) => if n.role == Leader { ProposeLeads(cfg, n, payloads); }
    case _ =>
  }

  // ---------------------------------------------------------------- whole runs

  /** One action, seen from node `a`: terms never go back, the commit index only in a restart,
      and a node that comes out leading its present term was leading it already, or was a
      candidate. */
  ghost predicate StepKeeps(n: Node, r: Node, crash: bool) {
    && n.term <= r.term
    && (!crash ==> Forward(n, r))
    && (r.role == Leader && r.term == n.term ==> n.role == Candidate || Leading(n, r))
  }

  /** The actor moves as shown, and nobody else does. */
  lemma PutKeeps(s: State, r: Node, crash: bool, a: Id)
    requires r.id in s.nodes && a in s.nodes && StepKeeps(s.nodes[r.id], r, crash)
    ensures a in Put(s, r).nodes && StepKeeps(s.nodes[a], Put(s, r).nodes[a], crash && r.id == a)
  {
  }

  lemma DeliverKeeps(cfg: Config, s: State, h: History, m: Message, inLease: bool)
    requires Inv(cfg, s, h) && Enabled(s, Deliver(m, inLease))
    ensures s.nodes[m.to].id == m.to && StepKeeps(s.nodes[m.to], Step(cfg, s.nodes[m.to], m, inLease), false)
  {
    assert MsgOk(cfg, h, m) && NodeFits(cfg, s, h, m.to);
    StepForward(cfg, s.nodes[m.to], m, inLease);
  }

  lemma LocalKeeps(cfg: Config, s: State, h: History, id: Id, e: Event)
    requires Inv(cfg, s, h) && Enabled(s, LocalEvent(id, e))
    ensures s.nodes[id].id == id && StepKeeps(s.nodes[id], Local(cfg, s.nodes[id], e), false)
  {
    assert NodeFits(cfg, s, h, id);
    LocalForward(cfg, s.nodes[id], e);
  }

  lemma ActorKeeps(cfg: Config, s: State, h: History, act: Action, a: Id)
    requires Inv(cfg, s, h) && Enabled(s, act) && a in s.nodes
    ensures a in Apply(cfg, s, act).nodes
    ensures StepKeeps(s.nodes[a], Apply(cfg, s, act).nodes[a], act.Crash? && act.id == a)
  {
    match act
    case Deliver(m, inLease) =>
      DeliverKeeps(cfg, s, h, m, inLease);
      PutKeeps(s, Step(cfg, s.nodes[m.to], m, inLease), false, a);
    case LocalEvent(id, e) =>
      LocalKeeps(cfg, s, h, id, e);
      PutKeeps(s, Local(cfg, s.nodes[id], e), false, a);
    case Crash(id, commit) =>
      assert NodeFits(cfg, s, h, id);
      PutKeeps(s, Restart(cfg, s.nodes[id], commit), true, a);
  }

  lemma RunKeeps(cfg: Config, r: Run, i: nat, a: Id)
    requires SoundRun(cfg, r) && i < |r.actions| && a in r.states[i].nodes
    ensures a in r.states[i + 1].nodes
    ensures StepKeeps(r.states[i].nodes[a], r.states[i + 1].nodes[a], r.actions[i].Crash? && r.actions[i].id == a)
  {
    var h, _ := TwoHistories(cfg, r, i, i);
    assert IsStep(cfg, r, i);
    ActorKeeps(cfg, r.states[i], h, r.actions[i], a);
  }

  /** Terms never go back, restarts included. */
  lemma {:induction false} TermNeverDecreases(cfg: Config, r: Run, i: nat, j: nat, a: Id)
    requires SoundRun(cfg, r) && i <= j < |r.states| && a in r.states[i].nodes
    ensures a in r.states[j].nodes && r.states[i].nodes[a].term <= r.states[j].nodes[a].term
    decreases j
  {
    if i < j {
      TermNeverDecreases(cfg, r, i, j - 1, a);
      RunKeeps(cfg, r, j - 1, a);
    }
  }

  /** Between restarts the commit index never goes back. */
  lemma {:induction false} CommitNeverDecreases(cfg: Config, r: Run, i: nat, j: nat, a: Id)
    requires SoundRun(cfg, r) && i <= j < |r.states| && a in r.states[i].nodes
    requires forall k :: i <= k < j ==> !(r.actions[k].Crash? && r.actions[k].id == a)
    ensures a in r.states[j].nodes && r.states[i].nodes[a].commit <= r.states[j].nodes[a].commit
    decreases j
  {
    if i < j {
      CommitNeverDecreases(cfg, r, i, j - 1, a);
      RunKeeps(cfg, r, j - 1, a);
    }
  }

  /** A node that has led a term and lost the leadership is no candidate of that term again. */
  lemma NoSecondCandidacy(cfg: Config, r: Run, i: nat, j: nat, a: Id, t: nat)
    requires SoundRun(cfg, r) && i <= j < |r.states| && Leads(r.states[i], a, t)
    requires a in r.states[j].nodes && r.states[j].nodes[a].term == t
    ensures r.states[j].nodes[a].role != Candidate
  {
    var h, h' := TwoHistories(cfg, r, i, j);
    LeaderRecorded(cfg, r.states[i], h, a, t);
    assert NodeFits(cfg, r.states[j], h', a);
  }

  /** No match index goes back while a leader leads: between any two moments at which a node
      leads the same term it has led it all along, its commit index has not gone back, and
      neither has the match index of any follower. */
  lemma {:induction false} MatchNeverDecreases(cfg: Config, r: Run, i: nat, j: nat, a: Id, t: nat)
    requires SoundRun(cfg, r) && i <= j < |r.states|
    requires Leads(r.states[i], a, t) && Leads(r.states[j], a, t)
    ensures forall k :: i <= k <= j ==> Leads(r.states[k], a, t)
    ensures Leading(r.states[i].nodes[a], r.states[j].nodes[a])
    decreases j
  {
    if i < j {
      TermNeverDecreases(cfg, r, i, j - 1, a);
      RunKeeps(cfg, r, j - 1, a);
      var n := r.states[j - 1].nodes[a];
      assert n.term == t;
      NoSecondCandidacy(cfg, r, i, j - 1, a, t);
      assert Leading(n, r.states[j].nodes[a]);
      MatchNeverDecreases(cfg, r, i, j - 1, a, t);
      LeadingTransitive(r.states[i].nodes[a], n, r.states[j].nodes[a]);
    }
  }
}

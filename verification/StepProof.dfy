/** Every message, local event and restart keeps the invariant of the node that handles it. */
module StepProof {
  import opened Types
  import opened LogModel
  import opened ProgressModel
  import opened Quorum
  import opened RaftCore
  import opened Cluster
  import opened Invariant
  import opened Growth
  import opened HistorySteps
  import opened NodeSteps
  import opened LeaderSteps
  import opened FollowerSteps

  // ---------------------------------------------------------------- campaigns

  lemma ExtReflexive(h: History, id: Id)
    ensures Ext(h, h, id)
  {
    GrowsReflexive(h);
  }

  /** A node that has just entered the term, voted for itself and counted that vote. */
  function FreshCandidate(f: Node): Node {
    f.(vote := f.id, role := Candidate, votes := map[f.id := true])
  }

  lemma CampaignIs(cfg: Config, n: Node)
    requires n.role != Leader && !n.fatal
    ensures Poll(BecomeCandidate(cfg, n), n.id, true) == FreshCandidate(BecomeFollower(cfg, n, n.term + 1, 0))
  {
  }

  lemma StartCampaignNode(cfg: Config, h: History, f: Node) returns (h': History)
    requires Work(cfg, h, f) && f.role == Follower && cfg.BootTerm() < f.term
    requires (f.term, f.id) !in h.campaign && TermsBelow(f.log, f.term)
    ensures h' == StartCampaign(h, f.id, f.log)
    ensures Ext(h, h', f.id) && Work(cfg, h', f)
  {
    h' := StartCampaign(h, f.id, f.log);
    StartCampaignOk(cfg, h, f.id, f.log);
    StartCampaignView(h, f.id, f.log);
    MsgsGrow(cfg, h, h', f.msgs);
    NodeGrows(cfg, h, h', f);
  }

  lemma StartCampaignView(h: History, c: Id, log: seq<Entry>)
    ensures forall v :: SameView(h, StartCampaign(h, c, log), v)
  {
  }

  lemma UpToDateSelf(log: seq<Entry>)
    ensures UpToDate(log, log)
  {
  }

  lemma NotLeaderYet(cfg: Config, h: History, n: Node, term: nat)
    requires HistOk(cfg, h) && NodeBase(cfg, h, n) && n.term < term && cfg.BootTerm() < term
    ensures term in h.leader ==> h.leader[term] != n.id
  {
    assert term in h.logs ==> ElectionOk(cfg, h, term);
  }

  /** Nobody has campaigned or won in the name of this node in a term it has not entered. */
  lemma NewTermFacts(cfg: Config, h: History, n: Node)
    requires Work(cfg, h, n)
    ensures cfg.BootTerm() < n.term + 1 && TermsBelow(n.log, n.term + 1)
    ensures (n.term + 1, n.id) !in h.campaign
    ensures n.term + 1 in h.leader ==> h.leader[n.term + 1] != n.id
  {
    NoVoteYet(cfg, h, n, n.term + 1);
    NotLeaderYet(cfg, h, n, n.term + 1);
  }

  /** The campaign of f for its term is on record, and no one has won in its name. */
  ghost predicate Campaigning(cfg: Config, h: History, f: Node) {
    && f.term > cfg.BootTerm() && TermsBelow(f.log, f.term)
    && (f.term, f.id) in h.campaign && h.campaign[(f.term, f.id)] == f.log
    && (f.term in h.leader ==> h.leader[f.term] != f.id)
  }

  ghost predicate Unannounced(cfg: Config, h: History, f: Node) {
    && f.role == Follower && cfg.BootTerm() < f.term && TermsBelow(f.log, f.term)
    && (f.term, f.id) !in h.campaign && (f.term in h.leader ==> h.leader[f.term] != f.id)
  }

  lemma NextIsUnannounced(cfg: Config, h: History, n: Node)
    requires Work(cfg, h, n)
    ensures Unannounced(cfg, SetTerm(h, n.id, n.term + 1), BecomeFollower(cfg, n, n.term + 1, 0))
  {
    NewTermFacts(cfg, h, n);
  }

  lemma EnterNext(cfg: Config, h: History, n: Node) returns (h': History)
    requires Work(cfg, h, n) && n.role != Leader
    ensures var f := BecomeFollower(cfg, n, n.term + 1, 0);
            Ext(h, h', n.id) && Work(cfg, h', f) && Unannounced(cfg, h', f)
  {
    NextIsUnannounced(cfg, h, n);
    h' := BecomeFollowerOk(cfg, h, n, n.term + 1, 0);
  }

  lemma Announce(cfg: Config, h: History, f: Node) returns (h': History)
    requires Work(cfg, h, f) && Unannounced(cfg, h, f)
    ensures Ext(h, h', f.id) && Work(cfg, h', f) && Campaigning(cfg, h', f)
  {
    h' := StartCampaignNode(cfg, h, f);
  }

  /** It votes for itself. */
  lemma VoteForSelf(cfg: Config, h: History, f: Node) returns (h': History)
    requires Work(cfg, h, f) && f.role == Follower && f.vote == 0 && f.lead == 0 && f.id != 0
    requires Campaigning(cfg, h, f)
    ensures Ext(h, h', f.id) && Work(cfg, h', FreshCandidate(f))
  {
    UpToDateSelf(f.log);
    h' := CastVoteNode(cfg, h, f, f.id);
    CandidateNode(cfg, h', f);
  }

  lemma FreshCandidateOk(cfg: Config, h: History, n: Node) returns (h': History)
    requires Work(cfg, h, n) && n.role != Leader
    ensures Ext(h, h', n.id)
    ensures var p := FreshCandidate(BecomeFollower(cfg, n, n.term + 1, 0));
            Work(cfg, h', p) && p.term > cfg.BootTerm()
  {
    var h1 := EnterNext(cfg, h, n);
    var h2 := Announce(cfg, h1, BecomeFollower(cfg, n, n.term + 1, 0));
    ExtTransitive(h, h1, h2, n.id);
    h' := VoteForSelf(cfg, h2, BecomeFollower(cfg, n, n.term + 1, 0));
    ExtTransitive(h, h2, h', n.id);
  }

  lemma CandidateNode(cfg: Config, h: History, f: Node)
    requires NodeOk(cfg, h, f.(vote := f.id)) && f.role == Follower && f.lead == 0
    requires (f.term, f.id) in h.campaign && h.campaign[(f.term, f.id)] == f.log && TermsBelow(f.log, f.term)
    requires f.term in h.leader ==> h.leader[f.term] != f.id
    requires (f.term, f.id) in h.votes && h.votes[(f.term, f.id)] == f.id
    ensures NodeOk(cfg, h, FreshCandidate(f))
  {
    assert NodeBase(cfg, h, FreshCandidate(f));
    assert CandidateOk(cfg, h, FreshCandidate(f));
  }

  function VoteRequest(p: Node, v: Id): Message {
    Message.Vote(p.id, v, p.term, p.Last(), p.LogOf().LastTerm())
  }

  /** More messages in the outbox. */
  lemma OutboxOk(cfg: Config, h: History, n: Node, ms: set<Message>)
    requires Work(cfg, h, n) && MsgsOk(cfg, h, ms)
    ensures Work(cfg, h, n.(msgs := n.msgs + ms))
  {
    OutboxNode(cfg, h, n, n.msgs + ms);
  }

  lemma OutboxNode(cfg: Config, h: History, n: Node, ms: set<Message>)
    requires NodeOk(cfg, h, n)
    ensures NodeOk(cfg, h, n.(msgs := ms))
  {
    assert NodeBase(cfg, h, n.(msgs := ms));
    assert NodeRole(cfg, h, n.(msgs := ms));
  }

  lemma VoteRequestsOk(cfg: Config, h: History, p: Node)
    requires Work(cfg, h, p) && p.role == Candidate && p.term > 0
    ensures Work(cfg, h, p.(msgs := p.msgs + set v | v in p.prs && v != p.id :: VoteRequest(p, v)))
  {
    LastTermAgrees(p.log);
    var ms := set v | v in p.prs && v != p.id :: VoteRequest(p, v);
    forall m | m in ms ensures MsgOk(cfg, h, m) {
      var v :| v in p.prs && v != p.id && m == VoteRequest(p, v);
      assert (p.term, p.id) in h.campaign && h.campaign[(p.term, p.id)] == p.log;
    }
    OutboxOk(cfg, h, p, ms);
  }

  lemma CampaignElectionOk(cfg: Config, h: History, n: Node) returns (h': History)
    requires Work(cfg, h, n) && n.role != Leader
    ensures Ext(h, h', n.id) && Work(cfg, h', CampaignElection(cfg, n))
  {
    CampaignIs(cfg, n);
    var p := FreshCandidate(BecomeFollower(cfg, n, n.term + 1, 0));
    h' := FreshCandidateOk(cfg, h, n);
    assert p.prs.Keys == cfg.voters;
    if p.Quorum() == |Granted(p.votes)| {
      var h1 := h';
      h' := BecomeLeaderOk(cfg, h1, p);
      ExtTransitive(h, h1, h', n.id);
    } else {
      VoteRequestsOk(cfg, h', p);
    }
  }

  function PreVoteRequest(p: Node, v: Id): Message {
    Message.PreVote(p.id, v, p.term + 1, p.Last(), p.LogOf().LastTerm())
  }

  lemma PreCandidateNode(cfg: Config, h: History, n: Node, votes: map<Id, bool>)
    requires NodeOk(cfg, h, n) && n.role != Leader && votes.Keys <= cfg.voters && 0 !in cfg.voters
    ensures NodeOk(cfg, h, n.(votes := votes, lead := 0, role := PreCandidate))
  {
    assert NodeBase(cfg, h, n.(votes := votes, lead := 0, role := PreCandidate));
  }

  lemma PreCampaignIs(cfg: Config, n: Node)
    requires n.role != Leader && !n.fatal
    ensures var p := n.(votes := map[n.id := true], lead := 0, role := PreCandidate);
            CampaignPreElection(cfg, n) == if p.Quorum() == |Granted(p.votes)| then CampaignElection(cfg, p)
                                           else p.(msgs := p.msgs + set v | v in p.prs && v != p.id :: PreVoteRequest(p, v))
  {
    var p := n.(votes := map[n.id := true], lead := 0, role := PreCandidate);
    assert Poll(BecomePreCandidate(n), n.id, true) == p;
  }

  lemma CampaignPreElectionOk(cfg: Config, h: History, n: Node) returns (h': History)
    requires Work(cfg, h, n) && n.role != Leader && cfg.preVote
    ensures Ext(h, h', n.id) && Work(cfg, h', CampaignPreElection(cfg, n))
  {
    var p := n.(votes := map[n.id := true], lead := 0, role := PreCandidate);
    PreCampaignIs(cfg, n);
    PreCandidateNode(cfg, h, n, map[n.id := true]);
    if p.Quorum() == |Granted(p.votes)| {
      h' := CampaignElectionOk(cfg, h, p);
    } else {
      h' := h;
      ExtReflexive(h, n.id);
      PreVoteRequestsOk(cfg, h, p);
    }
  }

  lemma PreVoteRequestsOk(cfg: Config, h: History, p: Node)
    requires Work(cfg, h, p) && cfg.preVote
    ensures Work(cfg, h, p.(msgs := p.msgs + set v | v in p.prs && v != p.id :: PreVoteRequest(p, v)))
  {
    var ms := set v | v in p.prs && v != p.id :: PreVoteRequest(p, v);
    forall m | m in ms ensures MsgOk(cfg, h, m) {
      var v :| v in p.prs && v != p.id && m == PreVoteRequest(p, v);
    }
    OutboxOk(cfg, h, p, ms);
  }

  // ---------------------------------------------------------------- votes are counted

  lemma PollNode(cfg: Config, h: History, n: Node, from: Id, granted: bool)
    requires NodeOk(cfg, h, n) && from in cfg.voters && (n.role == Candidate || n.role == PreCandidate)
    requires n.role == Candidate && granted ==> (n.term, from) in h.votes && h.votes[(n.term, from)] == n.id
    ensures NodeOk(cfg, h, Poll(n, from, granted))
  {
    var p := Poll(n, from, granted);
    assert NodeBase(cfg, h, p);
    assert NodeRole(cfg, h, p);
  }

  lemma WonOk(cfg: Config, h: History, p: Node) returns (h': History)
    requires Work(cfg, h, p) && (p.role == Candidate || p.role == PreCandidate) && p.Quorum() == |Granted(p.votes)|
    ensures Ext(h, h', p.id)
    ensures p.role == PreCandidate ==> Work(cfg, h', CampaignElection(cfg, p))
    ensures p.role == Candidate ==> Work(cfg, h', BcastAppend(cfg, BecomeLeader(cfg, p)))
  {
    assert p.prs.Keys == cfg.voters;
    if p.role == PreCandidate {
      h' := CampaignElectionOk(cfg, h, p);
    } else {
      h' := BecomeLeaderOk(cfg, h, p);
      BcastAppendOk(cfg, h', BecomeLeader(cfg, p));
    }
  }

  lemma OnVoteRespOk(cfg: Config, h: History, n: Node, m: Message) returns (h': History)
    requires Work(cfg, h, n) && (n.role == Candidate || n.role == PreCandidate)
    requires (m.VoteResp? || m.PreVoteResp?) && m.from in cfg.voters
    requires n.role == Candidate && !m.reject ==> (n.term, m.from) in h.votes && h.votes[(n.term, m.from)] == n.id
    ensures Ext(h, h', n.id) && Work(cfg, h', OnVoteResp(cfg, n, m))
  {
    PollNode(cfg, h, n, m.from, !m.reject);
    h' := CountedOk(cfg, h, Poll(n, m.from, !m.reject));
    CountedIs(cfg, n, m);
  }

  /** What the present count makes of a node. */
  ghost function Counted(cfg: Config, p: Node): Node {
    if p.Quorum() == |Granted(p.votes)| then
      if p.role == PreCandidate then CampaignElection(cfg, p) else BcastAppend(cfg, BecomeLeader(cfg, p))
    else if p.Quorum() == |p.votes| - |Granted(p.votes)| then BecomeFollower(cfg, p, p.term, 0)
    else p
  }

  lemma CountedIs(cfg: Config, n: Node, m: Message)
    requires m.VoteResp? || m.PreVoteResp?
    ensures OnVoteResp(cfg, n, m) == Counted(cfg, Poll(n, m.from, !m.reject))
  {
  }

  lemma CountedOk(cfg: Config, h: History, p: Node) returns (h': History)
    requires Work(cfg, h, p) && (p.role == Candidate || p.role == PreCandidate)
    ensures Ext(h, h', p.id) && Work(cfg, h', Counted(cfg, p))
  {
    if p.Quorum() == |Granted(p.votes)| {
      h' := WonOk(cfg, h, p);
    } else if p.Quorum() == |p.votes| - |Granted(p.votes)| {
      h' := BecomeFollowerOk(cfg, h, p, p.term, 0);
    } else {
      h' := h;
      ExtReflexive(h, p.id);
    }
  }

  // ---------------------------------------------------------------- one message

  lemma SetLeadOk(cfg: Config, h: History, n: Node, lead: Id)
    requires Work(cfg, h, n) && n.role == Follower && LedBy(cfg, h, n.term, lead) && lead != n.id
    ensures Work(cfg, h, n.(lead := lead))
  {
    assert NodeBase(cfg, h, n.(lead := lead));
    assert NodeOk(cfg, h, n.(lead := lead));
  }

  lemma AppMsgFits(cfg: Config, h: History, n: Node, m: Message)
    requires MsgOk(cfg, h, m) && m.to == n.id && m.term == n.term
    ensures m.App? ==> AppFits(cfg, h, n, m) && LedBy(cfg, h, n.term, m.from)
    ensures m.Heartbeat? ==> HeartbeatFits(cfg, h, n, m) && LedBy(cfg, h, n.term, m.from)
  {
  }

  lemma FitsAnyRole(cfg: Config, h: History, h': History, n: Node, n': Node, m: Message)
    requires n'.id == n.id && n'.term == n.term && Grows(h, h') && h'.logs == h.logs
    ensures AppFits(cfg, h, n, m) ==> AppFits(cfg, h', n', m)
    ensures HeartbeatFits(cfg, h, n, m) ==> HeartbeatFits(cfg, h', n', m)
  {
    if AppFits(cfg, h, n, m) || HeartbeatFits(cfg, h, n, m) {
      CommitFits(cfg, h, h.logs[n.term], m.commit, n.term);
      CommitOkGrows(cfg, h, h', h.logs[n.term], h.logs[n.term], m.commit, n.term, n.term);
    }
  }

  /** A follower that has been told its leader handles the leader's message. */
  lemma FromLeaderOk(cfg: Config, h: History, f: Node, m: Message) returns (h': History)
    requires Work(cfg, h, f) && f.role == Follower
    requires AppFits(cfg, h, f, m) || HeartbeatFits(cfg, h, f, m)
    ensures m.App? ==> Consecutive(m.entries, m.index + 1)
    ensures Ext(h, h', f.id)
    ensures m.App? ==> Work(cfg, h', HandleAppendEntries(f, m))
    ensures m.Heartbeat? ==> Work(cfg, h', HandleHeartbeat(f, m))
  {
    if m.App? {
      h' := HandleAppendEntriesOk(cfg, h, f, m);
    } else {
      h' := h;
      HandleHeartbeatOk(cfg, h, f, m);
    }
  }

  lemma StepFollowerOk(cfg: Config, h: History, n: Node, m: Message) returns (h': History)
    requires Work(cfg, h, n) && n.role == Follower && MsgOk(cfg, h, m) && m.to == n.id
    requires m.term == n.term || m.PreVoteResp?
    ensures m.App? ==> Consecutive(m.entries, m.index + 1)
    ensures Ext(h, h', n.id) && Work(cfg, h', StepFollower(cfg, n, m))
  {
    h' := h;
    if m.App? || m.Heartbeat? {
      AppMsgFits(cfg, h, n, m);
      SetLeadOk(cfg, h, n, m.from);
      FitsAnyRole(cfg, h, h, n, n.(lead := m.from), m);
      h' := FromLeaderOk(cfg, h, n.(lead := m.from), m);
    } else if m.Prop? {
      assert n.lead == 0;
    }
  }

  /** A candidate that hears from the leader of its term steps back. */
  lemma StepBackOk(cfg: Config, h: History, n: Node, m: Message) returns (h': History)
    requires Work(cfg, h, n) && MsgOk(cfg, h, m) && m.to == n.id && m.term == n.term
    requires m.App? || m.Heartbeat?
    ensures m.App? ==> Consecutive(m.entries, m.index + 1)
    ensures var f := BecomeFollower(cfg, n, m.term, m.from);
            && Ext(h, h', n.id)
            && (m.App? ==> Work(cfg, h', HandleAppendEntries(f, m)))
            && (m.Heartbeat? ==> Work(cfg, h', HandleHeartbeat(f, m)))
  {
    AppMsgFits(cfg, h, n, m);
    var f := BecomeFollower(cfg, n, m.term, m.from);
    var h1 := BecomeFollowerOk(cfg, h, n, m.term, m.from);
    FitsAnyRole(cfg, h, h1, n, f, m);
    h' := FromLeaderOk(cfg, h1, f, m);
    ExtTransitive(h, h1, h', n.id);
  }

  lemma StepCandidateOk(cfg: Config, h: History, n: Node, m: Message) returns (h': History)
    requires Work(cfg, h, n) && (n.role == Candidate || n.role == PreCandidate) && MsgOk(cfg, h, m) && m.to == n.id
    requires m.term == n.term || m.PreVoteResp?
    requires !(n.role == Candidate && m.PreVoteResp? && !m.reject)
    ensures m.App? ==> Consecutive(m.entries, m.index + 1)
    ensures Ext(h, h', n.id) && Work(cfg, h', StepCandidate(cfg, n, m))
  {
    if m.App? || m.Heartbeat? {
      h' := StepBackOk(cfg, h, n, m);
    } else if m.VoteResp? || m.PreVoteResp? {
      h' := OnVoteRespOk(cfg, h, n, m);
    } else {
      h' := h;
      ExtReflexive(h, n.id);
    }
  }

  lemma PeerFacts(cfg: Config, h: History, n: Node, m: Message)
    requires NodeBase(cfg, h, n) && MsgOk(cfg, h, m) && m.to == n.id
    ensures m.from in n.prs && m.from != n.id
    ensures m.Prop? ==> m.payloads != []
    ensures m.AppResp? && !m.reject && m.term == n.term ==> m.index <= Acked(h, n.term, m.from)
  {
  }

  lemma StepLeaderOk(cfg: Config, h: History, n: Node, m: Message) returns (h': History)
    requires Work(cfg, h, n) && n.role == Leader && MsgOk(cfg, h, m) && m.to == n.id
    requires m.term == n.term || m.PreVoteResp?
    ensures Ext(h, h', n.id) && Work(cfg, h', StepLeader(cfg, n, m))
  {
    PeerFacts(cfg, h, n, m);
    if m.Prop? {
      h' := ProposeOk(cfg, h, n, m.payloads);
    } else {
      h' := h;
      ExtReflexive(h, n.id);
      PeerMessageOk(cfg, h, n, m);
    }
  }

  lemma PeerMessageOk(cfg: Config, h: History, n: Node, m: Message)
    requires Work(cfg, h, n) && n.role == Leader && !m.Prop? && m.from in n.prs && m.from != n.id
    requires m.AppResp? && !m.reject ==> m.index <= Acked(h, n.term, m.from)
    ensures Work(cfg, h, StepLeader(cfg, n, m))
  {
    if m.AppResp? {
      AppRespOk(cfg, h, n, m);
    } else if m.HeartbeatResp? {
      OnHeartbeatRespOk(cfg, h, n, m.from);
    } else {
      assert StepLeader(cfg, n, m) == n;
    }
  }

  lemma AppRespOk(cfg: Config, h: History, n: Node, m: Message)
    requires Work(cfg, h, n) && n.role == Leader && m.AppResp? && m.from in n.prs && m.from != n.id
    requires !m.reject ==> m.index <= Acked(h, n.term, m.from)
    ensures Work(cfg, h, OnAppResp(cfg, n, m))
  {
    if m.reject { RejectedOk(cfg, h, n, m); } else { AcceptedOk(cfg, h, n, m); }
  }

  lemma DispatchOk(cfg: Config, h: History, n: Node, m: Message) returns (h': History)
    requires Work(cfg, h, n) && MsgOk(cfg, h, m) && m.to == n.id
    requires m.term == n.term || (m.term > n.term && (m.PreVote? || m.PreVoteResp?))
    requires !(n.role == Candidate && m.PreVoteResp? && !m.reject)
    ensures m.App? ==> Consecutive(m.entries, m.index + 1)
    ensures Ext(h, h', n.id) && Work(cfg, h', Dispatch(cfg, n, m))
  {
    if m.Vote? {
      h' := HandleVoteOk(cfg, h, n, m);
    } else if m.PreVote? {
      h' := h;
      ExtReflexive(h, n.id);
      HandlePreVoteOk(cfg, h, n, m);
    } else {
      h' := ByRoleOk(cfg, h, n, m);
    }
  }

  lemma ByRoleIs(cfg: Config, n: Node, m: Message)
    requires !m.Vote? && !m.PreVote? && (m.App? ==> Consecutive(m.entries, m.index + 1))
    ensures Dispatch(cfg, n, m) == match n.role
                                   case Leader => StepLeader(cfg, n, m)
                                   case Candidate => StepCandidate(cfg, n, m)
                                   case PreCandidate => StepCandidate(cfg, n, m)
                                   case Follower => StepFollower(cfg, n, m)
  {
  }

  lemma ByRoleOk(cfg: Config, h: History, n: Node, m: Message) returns (h': History)
    requires Work(cfg, h, n) && MsgOk(cfg, h, m) && m.to == n.id && !m.Vote? && !m.PreVote?
    requires m.term == n.term || m.PreVoteResp?
    requires !(n.role == Candidate && m.PreVoteResp? && !m.reject)
    ensures m.App? ==> Consecutive(m.entries, m.index + 1)
    ensures Ext(h, h', n.id) && Work(cfg, h', Dispatch(cfg, n, m))
  {
    EntriesInOrder(cfg, h, m);
    ByRoleIs(cfg, n, m);
    match n.role
    case Follower => h' := StepFollowerOk(cfg, h, n, m);
    case Candidate => h' := StepCandidateOk(cfg, h, n, m);
    case PreCandidate => h' := StepCandidateOk(cfg, h, n, m);
    case Leader => h' := StepLeaderOk(cfg, h, n, m);
  }

  /** The entries in flight carry consecutive indexes. */
  lemma EntriesInOrder(cfg: Config, h: History, m: Message)
    requires HistOk(cfg, h) && MsgOk(cfg, h, m)
    ensures m.App? ==> Consecutive(m.entries, m.index + 1)
  {
    if m.App? {
      LeaderLogFacts(cfg, h.logs, m.term);
      assert forall k :: 0 <= k < |m.entries| ==> m.entries[k] == h.logs[m.term][m.index + k];
    }
  }

  lemma HigherTermOk(cfg: Config, h: History, n: Node, m: Message) returns (h': History)
    requires Work(cfg, h, n) && MsgOk(cfg, h, m) && m.to == n.id && m.term > n.term
    requires !m.PreVote? && !(m.PreVoteResp? && !m.reject)
    ensures m.App? ==> Consecutive(m.entries, m.index + 1)
    ensures var lead := if m.App? || m.Heartbeat? then m.from else 0;
            Ext(h, h', n.id) && Work(cfg, h', Dispatch(cfg, BecomeFollower(cfg, n, m.term, lead), m))
  {
    var lead := if m.App? || m.Heartbeat? then m.from else 0;
    assert lead != 0 ==> LedBy(cfg, h, m.term, lead) && lead != n.id;
    var h1 := BecomeFollowerOk(cfg, h, n, m.term, lead);
    MsgGrows(cfg, h, h1, m);
    h' := DispatchOk(cfg, h1, BecomeFollower(cfg, n, m.term, lead), m);
    ExtTransitive(h, h1, h', n.id);
  }

  lemma LowerTermOk(cfg: Config, h: History, n: Node, m: Message, inLease: bool)
    requires Work(cfg, h, n) && MsgOk(cfg, h, m) && m.to == n.id && m.term < n.term
    ensures m.App? ==> Consecutive(m.entries, m.index + 1)
    ensures Work(cfg, h, Step(cfg, n, m, inLease))
  {
    EntriesInOrder(cfg, h, m);
    SendOk(cfg, h, n, AppResp(n.id, m.from, n.term, 0, false, 0));
    if m.PreVote? {
      SendOk(cfg, h, n, PreVoteResp(n.id, m.from, n.term, true));
    }
  }

  lemma LargerTermIs(cfg: Config, n: Node, m: Message, inLease: bool)
    requires m.term > n.term && (m.App? ==> Consecutive(m.entries, m.index + 1))
    ensures var r := Step(cfg, n, m, inLease);
            if (m.Vote? || m.PreVote?) && cfg.checkQuorum && n.lead != 0 && inLease then r == n
            else if m.PreVote? || (m.PreVoteResp? && !m.reject) then r == Dispatch(cfg, n, m)
            else r == Dispatch(cfg, BecomeFollower(cfg, n, m.term, if m.App? || m.Heartbeat? then m.from else 0), m)
  {
  }

  lemma LargerTermOk(cfg: Config, h: History, n: Node, m: Message, inLease: bool) returns (h': History)
    requires Work(cfg, h, n) && MsgOk(cfg, h, m) && m.to == n.id && m.term > n.term
    requires !(n.role == Candidate && m.PreVoteResp? && !m.reject)
    ensures m.App? ==> Consecutive(m.entries, m.index + 1)
    ensures Ext(h, h', n.id) && Work(cfg, h', Step(cfg, n, m, inLease))
  {
    EntriesInOrder(cfg, h, m);
    LargerTermIs(cfg, n, m, inLease);
    if (m.Vote? || m.PreVote?) && cfg.checkQuorum && n.lead != 0 && inLease {
      h' := h;
      ExtReflexive(h, n.id);
    } else if m.PreVote? || (m.PreVoteResp? && !m.reject) {
      h' := DispatchOk(cfg, h, n, m);
    } else {
      h' := HigherTermOk(cfg, h, n, m);
    }
  }

  lemma StepOk(cfg: Config, h: History, n: Node, m: Message, inLease: bool) returns (h': History)
    requires Work(cfg, h, n) && MsgOk(cfg, h, m) && m.to == n.id
    requires !(n.role == Candidate && m.PreVoteResp? && !m.reject)
    ensures m.App? ==> Consecutive(m.entries, m.index + 1)
    ensures Ext(h, h', n.id) && Work(cfg, h', Step(cfg, n, m, inLease))
  {
    if m.term > n.term {
      h' := LargerTermOk(cfg, h, n, m, inLease);
    } else if m.term < n.term {
      h' := h;
      ExtReflexive(h, n.id);
      LowerTermOk(cfg, h, n, m, inLease);
    } else {
      h' := DispatchOk(cfg, h, n, m);
    }
  }

  // ---------------------------------------------------------------- local events and restarts

  lemma ForwardedOk(cfg: Config, h: History, n: Node, payloads: seq<Payload>)
    requires NodeBase(cfg, h, n) && ElectionsOk(cfg, h) && n.role == Follower && n.lead != 0 && payloads != []
    ensures MsgOk(cfg, h, Prop(n.id, n.lead, n.term, payloads))
  {
    assert ElectionOk(cfg, h, n.term);
  }

  lemma ClientOk(cfg: Config, h: History, n: Node, payloads: seq<Payload>) returns (h': History)
    requires Work(cfg, h, n) && payloads != []
    ensures Ext(h, h', n.id) && Work(cfg, h', Local(cfg, n, Client(payloads)))
  {
    h' := h;
    if n.role == Leader {
      h' := ProposeOk(cfg, h, n, payloads);
    } else if n.role == Follower && n.lead != 0 {
      ForwardedOk(cfg, h, n, payloads);
      SendOk(cfg, h, n, Prop(n.id, n.lead, n.term, payloads));
    }
  }

  lemma LeaderPeer(cfg: Config, h: History, n: Node, v: Id)
    requires NodeOk(cfg, h, n) && n.role == Leader && v in n.prs
    ensures PrOk(n.prs[v], |n.log|, cfg.maxInflight) && n.prs[v].matched <= Acked(h, n.term, v)
  {
  }

  lemma UnreachableOk(cfg: Config, h: History, n: Node, v: Id)
    requires Work(cfg, h, n)
    ensures Work(cfg, h, Local(cfg, n, Unreachable(v)))
  {
    if n.role == Leader && v in n.prs && n.prs[v].state == Replicate {
      LeaderPeer(cfg, h, n, v);
      SetProgressOk(cfg, h, n, v, n.prs[v].BecomeProbe());
    }
  }

  lemma BeatOk(cfg: Config, h: History, n: Node)
    requires Work(cfg, h, n)
    ensures Work(cfg, h, Local(cfg, n, Beat))
  {
    if n.role == Leader { BcastHeartbeatOk(cfg, h, n); }
  }

  lemma LocalOk(cfg: Config, h: History, n: Node, e: Event) returns (h': History)
    requires Work(cfg, h, n) && (e.Client? ==> e.payloads != [])
    ensures Ext(h, h', n.id) && Work(cfg, h', Local(cfg, n, e))
  {
    match e
    case Hup => h' := HupOk(cfg, h, n);
    case TimeoutNow => h' := TimeoutOk(cfg, h, n);
    case CheckQuorum => h' := CheckQuorumOk(cfg, h, n);
    case Client(payloads) => h' := ClientOk(cfg, h, n, payloads);
    case Beat =>
      h' := h;
      BeatOk(cfg, h, n);
    case Unreachable(v) =>
      h' := h;
      UnreachableOk(cfg, h, n, v);
  }

  lemma HupOk(cfg: Config, h: History, n: Node) returns (h': History)
    requires Work(cfg, h, n)
    ensures Ext(h, h', n.id) && Work(cfg, h', Local(cfg, n, Hup))
  {
    if n.role == Leader {
      h' := h;
      ExtReflexive(h, n.id);
    } else if cfg.preVote {
      h' := CampaignPreElectionOk(cfg, h, n);
    } else {
      h' := CampaignElectionOk(cfg, h, n);
    }
  }

  lemma TimeoutOk(cfg: Config, h: History, n: Node) returns (h': History)
    requires Work(cfg, h, n)
    ensures Ext(h, h', n.id) && Work(cfg, h', Local(cfg, n, TimeoutNow))
  {
    if n.role == Follower {
      h' := CampaignElectionOk(cfg, h, n);
    } else {
      h' := h;
      ExtReflexive(h, n.id);
    }
  }

  lemma CheckQuorumOk(cfg: Config, h: History, n: Node) returns (h': History)
    requires Work(cfg, h, n)
    ensures Ext(h, h', n.id) && Work(cfg, h', Local(cfg, n, CheckQuorum))
  {
    if n.role == Leader && |Active(n)| < n.Quorum() {
      assert Local(cfg, n, CheckQuorum) == BecomeFollower(cfg, n, n.term, 0);
      h' := BecomeFollowerOk(cfg, h, n, n.term, 0);
    } else {
      h' := h;
      ExtReflexive(h, n.id);
      assert Local(cfg, n, CheckQuorum) == n;
    }
  }

  lemma RestartOk(cfg: Config, h: History, n: Node, commit: nat)
    requires Work(cfg, h, n) && commit <= n.commit
    ensures Work(cfg, h, Restart(cfg, n, commit))
  {
    CommitFits(cfg, h, n.log, n.commit, n.term);
    LowerCommit(cfg, h, n.log, n.commit, commit, n.term);
    assert NodeBase(cfg, h, Restart(cfg, n, commit));
    assert NodeLog(cfg, h, n.id, n.term, n.log, commit);
    assert NodeOk(cfg, h, Restart(cfg, n, commit));
  }
}

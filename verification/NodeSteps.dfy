/** Each piece of a node's work keeps the invariant, with the history it makes. */
module NodeSteps {
  import opened Types
  import opened LogModel
  import opened ProgressModel
  import opened Quorum
  import opened RaftCore
  import opened Cluster
  import opened Invariant
  import opened Growth
  import opened HistorySteps
  import opened FlowControl

  ghost predicate MsgsOk(cfg: Config, h: History, ms: set<Message>) {
    forall m :: m in ms ==> MsgOk(cfg, h, m)
  }

  /** A node in the middle of its work: it and its unsent messages agree with the history. */
  ghost predicate Work(cfg: Config, h: History, n: Node) {
    cfg.Valid() && HistOk(cfg, h) && NodeOk(cfg, h, n) && MsgsOk(cfg, h, n.msgs)
  }

  /** The history grew by what node `id` did. */
  ghost predicate Ext(h: History, h': History, id: Id) {
    Grows(h, h') && forall v :: v != id ==> SameView(h, h', v)
  }

  lemma ExtTransitive(a: History, b: History, c: History, id: Id)
    requires Ext(a, b, id) && Ext(b, c, id)
    ensures Ext(a, c, id)
  {
    GrowsTransitive(a, b, c);
    forall v | v != id ensures SameView(a, c, v) {
      assert SameView(a, b, v) && SameView(b, c, v);
    }
  }

  lemma MsgsGrow(cfg: Config, h: History, h': History, ms: set<Message>)
    requires Grows(h, h') && MsgsOk(cfg, h, ms)
    ensures MsgsOk(cfg, h', ms)
  {
    forall m | m in ms ensures MsgOk(cfg, h', m) {
      MsgGrows(cfg, h, h', m);
    }
  }

  // ---------------------------------------------------------------- roles

  lemma EnterTermLog(cfg: Config, h: History, id: Id, t0: nat, log: seq<Entry>, commit: nat, term: nat)
    requires HistOk(cfg, h) && NodeLog(cfg, h, id, t0, log, commit) && t0 <= term && TermOf(h, id) == t0
    requires Grows(h, SetTerm(h, id, term))
    ensures NodeLog(cfg, SetTerm(h, id, term), id, term, log, commit)
  {
    var h' := SetTerm(h, id, term);
    CommitFits(cfg, h, log, commit, t0);
    CommitOkGrows(cfg, h, h', log, log, commit, t0, term);
    if term in h'.logs {
      EnterTermPrefix(cfg, h, h', id, t0, log, term, term, Acked(h, term, id));
    }
    forall t: nat, i: nat ensures KeepsPoint(cfg, h', id, term, log, t, i) {
      if t < term && Choosable(cfg, h', t, i) && i <= Acked(h', t, id) {
        EnterTermPrefix(cfg, h, h', id, t0, log, term, t, i);
      }
    }
  }

  lemma EnterTermPrefix(cfg: Config, h: History, h': History, id: Id, t0: nat, log: seq<Entry>, term: nat, t: nat, i: nat)
    requires AcksOk(cfg, h) && Keeps(cfg, h, id, t0, log) && t0 <= term && TermOf(h, id) == t0
    requires Grows(h, h') && h'.logs == h.logs
    requires t <= term && t in h'.logs && i <= Acked(h, t, id) && (t == term || Choosable(cfg, h', t, i))
    ensures SharesPrefix(log, h'.logs[t], i)
  {
    if i > 0 {
      assert (t, id) in h.acked;
      if t < t0 {
        ChoosableBefore(cfg, h, h', t, i);
        assert KeepsPoint(cfg, h, id, t0, log, t, i);
      } else {
        AckedPrefix(cfg, h, id, t0, log, i);
      }
    }
  }

  lemma SetTermSameView(h: History, id: Id, term: nat)
    ensures forall v :: v != id ==> SameView(h, SetTerm(h, id, term), v)
  {
  }

  lemma NoVoteYet(cfg: Config, h: History, n: Node, term: nat)
    requires VotesOk(cfg, h) && NodeBase(cfg, h, n) && n.term < term
    ensures (term, n.id) !in h.votes && (term, n.id) !in h.campaign
  {
    assert (term, n.id) in h.votes ==> VoteOk(cfg, h, term, n.id);
    assert (term, n.id) in h.campaign ==> CampaignOk(cfg, h, term, n.id);
  }

  lemma BecomeFollowerBase(cfg: Config, h: History, n: Node, term: nat, lead: Id)
    requires NodeBase(cfg, h, n) && n.term <= term
    requires n.term < term ==> (term, n.id) !in h.votes
    requires lead != 0 ==> LedBy(cfg, h, term, lead) && lead != n.id
    requires 0 !in cfg.voters
    ensures NodeBase(cfg, SetTerm(h, n.id, term), BecomeFollower(cfg, n, term, lead))
  {
  }

  lemma BecomeFollowerOk(cfg: Config, h: History, n: Node, term: nat, lead: Id) returns (h': History)
    requires Work(cfg, h, n) && n.term <= term
    requires lead != 0 ==> LedBy(cfg, h, term, lead) && lead != n.id
    ensures h' == SetTerm(h, n.id, term)
    ensures Ext(h, h', n.id) && Work(cfg, h', BecomeFollower(cfg, n, term, lead))
  {
    h' := SetTerm(h, n.id, term);
    SetTermOk(cfg, h, n.id, term);
    SetTermSameView(h, n.id, term);
    EnterTermLog(cfg, h, n.id, n.term, n.log, n.commit, term);
    MsgsGrow(cfg, h, h', n.msgs);
    if n.term < term { NoVoteYet(cfg, h, n, term); }
    BecomeFollowerBase(cfg, h, n, term, lead);
    assert NodeOk(cfg, h', BecomeFollower(cfg, n, term, lead));
  }

  // ---------------------------------------------------------------- votes

  lemma AscendingBelow(log: seq<Entry>, t: nat)
    requires TermsAscend(log) && LastTermOf(log) < t
    ensures TermsBelow(log, t)
  {
    forall i | 0 <= i < |log| ensures log[i].term < t {
      assert log[i].term <= log[|log| - 1].term;
    }
  }

  lemma LastTermAgrees(log: seq<Entry>)
    ensures Log(0, 0, log).LastTerm() == LastTermOf(log)
  {
  }

  lemma CastVoteSameView(h: History, id: Id, c: Id, log: seq<Entry>)
    ensures forall v :: v != id ==> SameView(h, CastVote(h, id, c, log), v)
  {
  }

  lemma CastVoteBase(cfg: Config, h: History, n: Node, c: Id)
    requires NodeBase(cfg, h, n) && n.vote == 0 && c != 0
    ensures NodeBase(cfg, CastVote(h, n.id, c, n.log), n.(vote := c))
  {
  }

  /** Recording a vote keeps the node fine. */
  lemma CastVoteNode(cfg: Config, h: History, n: Node, c: Id) returns (h': History)
    requires Work(cfg, h, n) && n.vote == 0 && n.term > cfg.BootTerm() && c != 0
    requires n.role == Follower || n.role == PreCandidate
    requires (n.term, c) in h.campaign && UpToDate(h.campaign[(n.term, c)], n.log)
    ensures h' == CastVote(h, n.id, c, n.log)
    ensures Ext(h, h', n.id) && Work(cfg, h', n.(vote := c))
  {
    h' := CastVote(h, n.id, c, n.log);
    CastVoteHist(cfg, h, n, c);
    MsgsGrow(cfg, h, h', n.msgs);
    CastVoteSameView(h, n.id, c, n.log);
    KeptLog(cfg, h, h', n.id, n.term, n.log, n.commit);
    CastVoteBase(cfg, h, n, c);
    assert NodeOk(cfg, h', n.(vote := c));
  }

  lemma CastVoteHist(cfg: Config, h: History, n: Node, c: Id)
    requires HistOk(cfg, h) && NodeOk(cfg, h, n) && n.vote == 0 && n.term > cfg.BootTerm()
    requires (n.term, c) in h.campaign && UpToDate(h.campaign[(n.term, c)], n.log)
    ensures Grows(h, CastVote(h, n.id, c, n.log)) && HistOk(cfg, CastVote(h, n.id, c, n.log))
  {
    assert CampaignOk(cfg, h, n.term, c);
    AscendingUpTo(h.campaign[(n.term, c)], n.log, n.term);
    CastVoteOk(cfg, h, n.id, c, n.log);
  }

  lemma AscendingUpTo(a: seq<Entry>, b: seq<Entry>, t: nat)
    requires TermsAscend(b) && TermsBelow(a, t) && UpToDate(a, b) && t > 0
    ensures TermsBelow(b, t)
  {
    AscendingBelow(b, t);
  }

  lemma SendOk(cfg: Config, h: History, n: Node, m: Message)
    requires Work(cfg, h, n) && MsgOk(cfg, h, m)
    ensures Work(cfg, h, n.Send(m)) && Work(cfg, h, n.SendVote(m))
  {
    assert n.Send(m).msgs == n.msgs + {m};
    assert n.SendVote(m).msgs == n.msgs + {m};
    assert NodeOk(cfg, h, n.Send(m)) && NodeOk(cfg, h, n.SendVote(m));
  }

  /** A pre-vote request changes nothing but gets an answer. */
  lemma HandlePreVoteOk(cfg: Config, h: History, n: Node, m: Message)
    requires Work(cfg, h, n) && MsgOk(cfg, h, m) && m.to == n.id && m.PreVote? && m.term >= n.term
    ensures Work(cfg, h, HandleVote(n, m))
  {
    assert m.term > 0 && cfg.preVote && m.from in cfg.voters;
    SendOk(cfg, h, n, PreVoteResp(n.id, m.from, m.term, false));
    if n.term > 0 {
      SendOk(cfg, h, n, PreVoteResp(n.id, m.from, n.term, true));
    } else {
      LastPoint(h.logs, n.log);
      TermZero(n);
    }
  }

  lemma LastPoint(logs: map<nat, seq<Entry>>, log: seq<Entry>)
    requires LogOk(logs, log)
    ensures log == [] || log[|log| - 1].term > 0
  {
    if log != [] { assert PointOk(logs, log, |log| - 1); }
  }

  lemma TermZero(n: Node)
    requires n.term == 0 && TermsBelow(n.log, n.term + 1)
    requires n.log == [] || n.log[|n.log| - 1].term > 0
    ensures forall i: nat, t: nat :: n.LogOf().IsUpToDate(i, t)
  {
    assert LastTermOf(n.log) == 0;
  }

  /** A vote request of the node's own term. */
  lemma HandleVoteOk(cfg: Config, h: History, n: Node, m: Message) returns (h': History)
    requires Work(cfg, h, n) && MsgOk(cfg, h, m) && m.to == n.id && m.Vote? && m.term == n.term
    ensures Ext(h, h', n.id) && Work(cfg, h', HandleVote(n, m))
  {
    h' := h;
    assert (n.term, m.from) in h.campaign && m.from in cfg.voters && m.from != n.id && n.term > 0;
    if CanVote(n, m) && n.LogOf().IsUpToDate(m.index, m.logTerm) {
      h' := GrantVoteOk(cfg, h, n, m);
    } else {
      SendOk(cfg, h, n, VoteResp(n.id, m.from, n.term, true));
    }
  }

  lemma GrantVoteOk(cfg: Config, h: History, n: Node, m: Message) returns (h': History)
    requires Work(cfg, h, n) && m.Vote? && m.term == n.term > 0
    requires m.from in cfg.voters && m.from != n.id
    requires (n.term, m.from) in h.campaign
    requires m.index == |h.campaign[(n.term, m.from)]| && m.logTerm == LastTermOf(h.campaign[(n.term, m.from)])
    requires CanVote(n, m) && n.LogOf().IsUpToDate(m.index, m.logTerm)
    ensures Ext(h, h', n.id) && Work(cfg, h', HandleVote(n, m))
  {
    LastTermAgrees(n.log);
    assert CampaignOk(cfg, h, n.term, m.from);
    var n1 := n.(vote := m.from);
    if n.vote == 0 {
      assert n.role == Follower || n.role == PreCandidate;
      h' := CastVoteNode(cfg, h, n, m.from);
    } else {
      h' := h;
      assert n1 == n;
    }
    assert (n1.term, n1.id) in h'.votes && h'.votes[(n1.term, n1.id)] == m.from;
    SendOk(cfg, h', n1, VoteResp(n.id, m.from, m.term, false));
    assert HandleVote(n, m) == n1.SendVote(VoteResp(n.id, m.from, m.term, false));
  }
}

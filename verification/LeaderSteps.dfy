/** Elections won, entries appended, commit index moved, entries sent. */
module LeaderSteps {
  import opened Types
  import opened LogModel
  import opened ProgressModel
  import opened Quorum
  import opened RaftCore
  import opened Cluster
  import opened Invariant
  import opened Growth
  import opened HistorySteps
  import opened FlowControl
  import opened NodeSteps

  // ---------------------------------------------------------------- the leader's own log grows

  lemma ExtendedNodeLog(cfg: Config, h: History, h': History, id: Id, term: nat, log: seq<Entry>, commit: nat, es: seq<Entry>)
    requires Grows(h, h') && NodeLog(cfg, h, id, term, log, commit) && AcksOk(cfg, h) && LogsOk(cfg, h'.logs)
    requires term in h'.logs && h'.logs[term] == log + es
    requires Acked(h', term, id) <= |log + es|
    requires forall t: nat :: t != term ==> Acked(h', t, id) == Acked(h, t, id)
    ensures NodeLog(cfg, h', id, term, log + es, commit)
  {
    assert LeaderLogOk(cfg, h'.logs, term);
    AscendingBelow(log + es, term + 1);
    CommitFits(cfg, h, log, commit, term);
    assert SharesPrefix(log + es, log, commit) by { assert (log + es)[..commit] == log[..commit]; }
    CommitOkGrows(cfg, h, h', log, log + es, commit, term, term);
    forall t: nat, i: nat ensures KeepsPoint(cfg, h', id, term, log + es, t, i) {
      if t < term && Choosable(cfg, h', t, i) && i <= Acked(h', t, id) {
        KeptPrefix(cfg, h, h', id, term, log, t, i);
        assert (log + es)[..i] == log[..i];
      }
    }
  }

  lemma AckSelfView(h: History, h': History, id: Id, t: nat, i: nat)
    requires h' == Ack(h, t, id, i)
    ensures forall v :: v != id ==> SameView(h, h', v)
  {
  }

  // ---------------------------------------------------------------- an election is won

  lemma NotYetElected(cfg: Config, h: History, n: Node)
    requires cfg.Valid() && HistOk(cfg, h) && CandidateOk(cfg, h, n) && |Granted(n.votes)| >= QuorumSize(cfg.voters)
    ensures n.term !in h.logs && n.term !in h.leader && cfg.BootTerm() < n.term
    ensures IsQuorum(cfg.voters, Granted(n.votes))
  {
    assert CampaignOk(cfg, h, n.term, n.id);
    assert Granted(n.votes) <= n.votes.Keys;
    if n.term in h.logs {
      assert ElectionOk(cfg, h, n.term);
      var x := Intersect(cfg.voters, Granted(n.votes), h.electors[n.term]);
      assert false;
    }
  }

  /** The candidate after it has turned leader and appended its first entry, before it looks
      at the commit index. */
  function NewLeader(cfg: Config, n: Node): Node
    requires n.id in n.prs
  {
    var r := Reset(cfg, n, n.term).(lead := n.id, role := Leader);
    var p := r.prs[n.id].BecomeReplicate().MaybeUpdate(n.Last() + 1).0;
    r.(log := n.log + NewEntries(n, [Payload(EntryNormal, [])]), prs := r.prs[n.id := p])
  }

  lemma BecomeLeaderIs(cfg: Config, n: Node)
    requires n.id in n.prs && n.role == Candidate && n.commit <= n.Last()
    ensures BecomeLeader(cfg, n) == MaybeCommit(NewLeader(cfg, n)).0
  {
    var r := Reset(cfg, n, n.term).(lead := n.id, role := Leader);
    var self := r.(prs := r.prs[n.id := r.prs[n.id].BecomeReplicate()]);
    var log := self.log + NewEntries(self, [Payload(EntryNormal, [])]);
    assert NewEntries(self, [Payload(EntryNormal, [])]) == NewEntries(n, [Payload(EntryNormal, [])]);
    var a := self.(log := log, fatal := self.fatal || self.Last() < self.commit);
    assert a.prs[n.id := a.prs[n.id].MaybeUpdate(|log|).0] == NewLeader(cfg, n).prs;
    assert a.(prs := a.prs[n.id := a.prs[n.id].MaybeUpdate(|log|).0]) == NewLeader(cfg, n);
  }

  lemma NewLeaderProgress(cfg: Config, h: History, n: Node)
    requires cfg.Valid() && n.id in n.prs && Acked(h, n.term, n.id) >= n.Last() + 1
    ensures ProgressOk(cfg, h, NewLeader(cfg, n).prs, n.term, n.Last() + 1)
  {
    var prs := NewLeader(cfg, n).prs;
    forall v | v in prs ensures PrOk(prs[v], n.Last() + 1, cfg.maxInflight) && prs[v].matched <= Acked(h, n.term, v) {
      if v != n.id {
        FreshOk(n.Last(), 0, cfg.maxInflight);
        LastGrows(prs[v], n.Last(), n.Last() + 1, cfg.maxInflight);
      }
    }
  }

  lemma ElectHist(cfg: Config, h: History, n: Node) returns (h': History)
    requires cfg.Valid() && HistOk(cfg, h) && NodeOk(cfg, h, n) && n.role == Candidate
    requires |Granted(n.votes)| == QuorumSize(cfg.voters)
    ensures Ext(h, h', n.id) && HistOk(cfg, h')
    ensures n.term in h'.logs && h'.logs[n.term] == n.log + NewEntries(n, [Payload(EntryNormal, [])])
    ensures n.term > cfg.BootTerm() && n.term in h'.leader && h'.leader[n.term] == n.id
    ensures Acked(h', n.term, n.id) == n.Last() + 1
    ensures forall t: nat :: t != n.term ==> Acked(h', t, n.id) == Acked(h, t, n.id)
    ensures h'.votes == h.votes && h'.term == h.term
  {
    NotYetElected(cfg, h, n);
    var es := NewEntries(n, [Payload(EntryNormal, [])]);
    var e := es[0];
    assert es == [e];
    ElectOk(cfg, h, n.term, n.id, Granted(n.votes), n.log, e);
    var h1 := Elect(h, n.term, n.id, Granted(n.votes), n.log + [e]);
    ElectView(h, n.term, n.id, Granted(n.votes), n.log + [e]);
    assert Acked(h1, n.term, n.id) == 0 by { NobodyAcked(cfg, h, h1, n.term); }
    h' := Ack(h1, n.term, n.id, n.Last() + 1);
    AckOk(cfg, h1, n.term, n.id, n.Last() + 1);
    AckSelfView(h1, h', n.id, n.term, n.Last() + 1);
    ExtTransitive(h, h1, h', n.id);
  }

  lemma ElectView(h: History, t: nat, c: Id, electors: set<Id>, log: seq<Entry>)
    requires t !in h.leader
    ensures forall v :: v != c ==> SameView(h, Elect(h, t, c, electors, log), v)
  {
  }

  lemma BecomeLeaderOk(cfg: Config, h: History, n: Node) returns (h': History)
    requires Work(cfg, h, n) && n.role == Candidate && |Granted(n.votes)| == QuorumSize(cfg.voters)
    ensures Ext(h, h', n.id) && Work(cfg, h', BecomeLeader(cfg, n)) && BecomeLeader(cfg, n).role == Leader
  {
    h' := ElectHist(cfg, h, n);
    CommitFits(cfg, h, n.log, n.commit, n.term);
    BecomeLeaderIs(cfg, n);
    var p := NewLeader(cfg, n);
    ExtendedNodeLog(cfg, h, h', n.id, n.term, n.log, n.commit, NewEntries(n, [Payload(EntryNormal, [])]));
    NewLeaderProgress(cfg, h', n);
    MsgsGrow(cfg, h, h', n.msgs);
    NewLeaderBase(cfg, h, h', n);
    NewLeaderOk(cfg, h', n);
    LeaderNode(cfg, h', p);
    MaybeCommitOk(cfg, h', p);
  }

  /** What the new leader is, on its way to the commit rule. */
  lemma NewLeaderOk(cfg: Config, h: History, n: Node)
    requires n.id in n.prs && n.vote == n.id && n.term in h.logs && h.logs[n.term] == n.log + NewEntries(n, [Payload(EntryNormal, [])])
    requires ProgressOk(cfg, h, NewLeader(cfg, n).prs, n.term, n.Last() + 1)
    ensures var p := NewLeader(cfg, n);
            && LeaderOk(cfg, h, p) && p.role == Leader && p.msgs == n.msgs
            && p.id == n.id && p.term == n.term && p.commit == n.commit && p.log == h.logs[n.term]
  {
  }

  lemma LeaderNode(cfg: Config, h: History, n: Node)
    requires NodeBase(cfg, h, n) && n.role == Leader
    requires NodeLog(cfg, h, n.id, n.term, n.log, n.commit) && LeaderOk(cfg, h, n)
    ensures NodeOk(cfg, h, n)
  {
  }

  lemma NewLeaderBase(cfg: Config, h: History, h': History, n: Node)
    requires NodeBase(cfg, h, n) && h'.votes == h.votes && h'.term == h.term
    requires n.term in h'.logs && n.term in h'.leader && h'.leader[n.term] == n.id && n.term > cfg.BootTerm()
    ensures NodeBase(cfg, h', NewLeader(cfg, n))
  {
  }

  // ---------------------------------------------------------------- the commit index moves

  lemma MaybeCommitOk(cfg: Config, h: History, n: Node)
    requires Work(cfg, h, n) && n.role == Leader
    ensures Work(cfg, h, MaybeCommit(n).0)
    ensures MaybeCommit(n).0.role == Leader && MaybeCommit(n).0.id == n.id && MaybeCommit(n).0.prs == n.prs
    ensures MaybeCommit(n).0.log == n.log && MaybeCommit(n).0.term == n.term
  {
    assert cfg.BootTerm() < n.term;
    var i := MaybeCommitIs(cfg.voters, n);
    if i > n.commit {
      QuorumAcked(cfg, h, n, i);
      MoveCommit(cfg, h, n, i);
    }
  }

  /** `maybe_commit` stays or moves to an index of the current term that a majority reached. */
  lemma MaybeCommitIs(voters: set<Id>, n: Node) returns (i: nat)
    requires n.prs.Keys == voters && voters != {} && n.term > 0
    ensures MaybeCommit(n).0 == n.(commit := i) && i >= n.commit
    ensures MaybeCommit(n).1 <==> i > n.commit
    ensures i > n.commit ==> i <= |n.log| && n.log[i - 1].term == n.term && MajorityReached(Matches(n), i)
  {
    i := n.commit;
    assert Matches(n).Keys == voters;
    var mci := QuorumIndex(Matches(n));
    if mci > n.commit && n.LogOf().Term(mci) == n.term {
      i := mci;
    }
  }

  lemma QuorumAcked(cfg: Config, h: History, n: Node, i: nat)
    requires cfg.Valid() && NodeBase(cfg, h, n) && LeaderOk(cfg, h, n)
    requires 0 < i <= |n.log| && n.log[i - 1].term == n.term
    requires MajorityReached(Matches(n), i)
    ensures Committed(cfg, h, n.term, i)
  {
    assert Matches(n).Keys == n.prs.Keys;
    assert Reached(Matches(n), i) <= Ackers(cfg, h, n.term, i);
    SubsetSize(Reached(Matches(n), i), Ackers(cfg, h, n.term, i));
  }

  lemma MoveCommit(cfg: Config, h: History, n: Node, i: nat)
    requires Work(cfg, h, n) && n.role == Leader && Committed(cfg, h, n.term, i) && i <= |n.log|
    ensures Work(cfg, h, n.(commit := i))
  {
    assert SharesPrefix(n.log, h.logs[n.term], i);
    assert CommitOk(cfg, h, n.log, i, n.term);
    var n' := n.(commit := i);
    assert NodeLog(cfg, h, n'.id, n'.term, n'.log, n'.commit);
    MoveCommitBase(cfg, h, n, i);
    assert NodeOk(cfg, h, n');
  }

  lemma MoveCommitBase(cfg: Config, h: History, n: Node, i: nat)
    requires NodeBase(cfg, h, n) && NodeRole(cfg, h, n) && n.role == Leader
    ensures NodeBase(cfg, h, n.(commit := i)) && NodeRole(cfg, h, n.(commit := i))
  {
  }

  // ---------------------------------------------------------------- entries are appended

  function Appended(n: Node, payloads: seq<Payload>): Node
    requires n.id in n.prs
  {
    var log := n.log + NewEntries(n, payloads);
    n.(log := log, prs := n.prs[n.id := n.prs[n.id].MaybeUpdate(|log|).0])
  }

  lemma AppendHist(cfg: Config, h: History, n: Node, es: seq<Entry>) returns (h': History)
    requires HistOk(cfg, h) && NodeBase(cfg, h, n) && LeaderOk(cfg, h, n) && 0 !in cfg.voters
    requires Consecutive(es, n.Last() + 1) && forall i :: 0 <= i < |es| ==> es[i].term == n.term
    ensures Ext(h, h', n.id) && HistOk(cfg, h')
    ensures n.term in h'.logs && h'.logs[n.term] == n.log + es
    ensures Acked(h', n.term, n.id) == |n.log + es|
    ensures forall t: nat :: t != n.term ==> Acked(h', t, n.id) == Acked(h, t, n.id)
    ensures h'.votes == h.votes && h'.term == h.term && h'.leader == h.leader
  {
    LeaderAppendOk(cfg, h, n.term, es);
    var h1 := LeaderAppend(h, n.term, es);
    assert Acked(h1, n.term, n.id) <= |n.log + es| by { assert Acked(h, n.term, n.id) <= |h.logs[n.term]|; }
    AppendView(h, n.term, n.id, es);
    h' := Ack(h1, n.term, n.id, |n.log + es|);
    AckOk(cfg, h1, n.term, n.id, |n.log + es|);
    AckSelfView(h1, h', n.id, n.term, |n.log + es|);
    ExtTransitive(h, h1, h', n.id);
  }

  lemma AppendView(h: History, t: nat, id: Id, es: seq<Entry>)
    requires t in h.logs && t in h.leader && h.leader[t] == id
    ensures forall v :: v != id ==> SameView(h, LeaderAppend(h, t, es), v)
  {
  }

  lemma AppendedProgress(cfg: Config, h: History, h': History, n: Node, payloads: seq<Payload>)
    requires n.id in n.prs && ProgressOk(cfg, h, n.prs, n.term, n.Last()) && Grows(h, h')
    requires n.prs[n.id].ins.q == []
    requires Acked(h', n.term, n.id) == n.Last() + |payloads|
    ensures ProgressOk(cfg, h', Appended(n, payloads).prs, n.term, n.Last() + |payloads|)
  {
    var last := n.Last() + |payloads|;
    var prs := Appended(n, payloads).prs;
    forall v | v in prs ensures PrOk(prs[v], last, cfg.maxInflight) && prs[v].matched <= Acked(h', n.term, v) {
      LastGrows(n.prs[v], n.Last(), last, cfg.maxInflight);
      if v == n.id {
        SelfUpdateOk(n.prs[v], last, cfg.maxInflight);
      }
    }
  }

  /** The leader raises its own `match` without touching its window. */
  lemma SelfUpdateOk(p: Progress, last: nat, size: nat)
    requires PrOk(p, last, size) && p.ins.q == []
    ensures PrOk(p.MaybeUpdate(last).0, last, size)
    ensures p.MaybeUpdate(last).0.matched == last
  {
  }

  lemma AppendEntryOk(cfg: Config, h: History, n: Node, payloads: seq<Payload>) returns (h': History)
    requires Work(cfg, h, n) && n.role == Leader
    ensures Ext(h, h', n.id) && Work(cfg, h', AppendEntry(n, payloads)) && AppendEntry(n, payloads).role == Leader
  {
    h' := AppendHist(cfg, h, n, NewEntries(n, payloads));
    CommitFits(cfg, h, n.log, n.commit, n.term);
    AppendEntryIs(n, payloads);
    AppendedNode(cfg, h, h', n, payloads);
    MsgsGrow(cfg, h, h', n.msgs);
    MaybeCommitOk(cfg, h', Appended(n, payloads));
  }

  lemma AppendedNode(cfg: Config, h: History, h': History, n: Node, payloads: seq<Payload>)
    requires NodeOk(cfg, h, n) && n.role == Leader && AcksOk(cfg, h)
    requires Grows(h, h') && LogsOk(cfg, h'.logs) && h'.votes == h.votes && h'.term == h.term
    requires n.term in h'.logs && h'.logs[n.term] == n.log + NewEntries(n, payloads)
    requires Acked(h', n.term, n.id) == n.Last() + |payloads|
    requires forall t: nat :: t != n.term ==> Acked(h', t, n.id) == Acked(h, t, n.id)
    ensures NodeOk(cfg, h', Appended(n, payloads))
  {
    ExtendedNodeLog(cfg, h, h', n.id, n.term, n.log, n.commit, NewEntries(n, payloads));
    AppendedProgress(cfg, h, h', n, payloads);
    AppendedBase(cfg, h, h', n, payloads);
    AppendedLeader(cfg, h', n, payloads);
    LeaderNode(cfg, h', Appended(n, payloads));
  }

  lemma AppendedLeader(cfg: Config, h': History, n: Node, payloads: seq<Payload>)
    requires n.vote == n.id && n.lead == n.id && n.id in n.prs && n.prs[n.id].ins.q == [] && n.prs[n.id].state != Snapshot
    requires n.term in h'.logs && h'.logs[n.term] == n.log + NewEntries(n, payloads)
    requires n.prs[n.id].matched <= n.Last() + |payloads|
    requires ProgressOk(cfg, h', Appended(n, payloads).prs, n.term, n.Last() + |payloads|)
    ensures LeaderOk(cfg, h', Appended(n, payloads))
  {
  }

  lemma AppendEntryIs(n: Node, payloads: seq<Payload>)
    requires n.id in n.prs && n.commit <= n.Last()
    ensures AppendEntry(n, payloads) == MaybeCommit(Appended(n, payloads)).0
  {
  }

  lemma AppendedBase(cfg: Config, h: History, h': History, n: Node, payloads: seq<Payload>)
    requires NodeBase(cfg, h, n) && Grows(h, h') && h'.votes == h.votes && h'.term == h.term
    ensures NodeBase(cfg, h', Appended(n, payloads))
  {
  }

  // ---------------------------------------------------------------- entries are sent

  /** A leader with new flow-control state and more messages. */
  lemma PeersOk(cfg: Config, h: History, n: Node, prs: map<Id, Progress>, msgs: set<Message>)
    requires Work(cfg, h, n) && n.role == Leader
    requires prs.Keys == n.prs.Keys && prs[n.id].ins.q == []
    requires ProgressOk(cfg, h, prs, n.term, |n.log|)
    requires MsgsOk(cfg, h, msgs)
    ensures Work(cfg, h, n.(prs := prs, msgs := msgs))
  {
    var n' := n.(prs := prs, msgs := msgs);
    PeersBase(cfg, h, n, prs, msgs);
    LeaderNode(cfg, h, n');
  }

  lemma PeersBase(cfg: Config, h: History, n: Node, prs: map<Id, Progress>, msgs: set<Message>)
    requires NodeBase(cfg, h, n) && LeaderOk(cfg, h, n)
    requires prs.Keys == n.prs.Keys && prs[n.id].ins.q == []
    requires ProgressOk(cfg, h, prs, n.term, |n.log|)
    ensures NodeBase(cfg, h, n.(prs := prs, msgs := msgs)) && LeaderOk(cfg, h, n.(prs := prs, msgs := msgs))
  {
  }

  lemma ProgressSet(cfg: Config, h: History, prs: map<Id, Progress>, term: nat, last: nat, v: Id, p: Progress)
    requires ProgressOk(cfg, h, prs, term, last)
    requires PrOk(p, last, cfg.maxInflight) && p.matched <= Acked(h, term, v)
    ensures ProgressOk(cfg, h, prs[v := p], term, last) && (v in prs ==> prs[v := p].Keys == prs.Keys)
  {
    assert prs[v := p].Keys == prs.Keys + {v};
  }

  lemma OnePeerOk(cfg: Config, h: History, n: Node, v: Id, p: Progress, msgs: set<Message>)
    requires Work(cfg, h, n) && n.role == Leader && v in n.prs && (v == n.id ==> p.ins.q == [])
    requires PrOk(p, |n.log|, cfg.maxInflight) && p.matched <= Acked(h, n.term, v)
    requires MsgsOk(cfg, h, msgs)
    ensures Work(cfg, h, n.(prs := n.prs[v := p], msgs := msgs))
  {
    ProgressSet(cfg, h, n.prs, n.term, |n.log|, v, p);
    PeersOk(cfg, h, n, n.prs[v := p], msgs);
  }

  /** Every replication message of a leader is a segment of its log. */
  lemma AppendMsgOk(cfg: Config, h: History, n: Node, pr: Progress, to: Id, sendIfEmpty: bool)
    requires Work(cfg, h, n) && n.role == Leader && to in cfg.voters && to != n.id
    requires PrOk(pr, n.Last(), cfg.maxInflight)
    ensures MsgOk(cfg, h, AppendFor(cfg, n, pr, to, sendIfEmpty).msg)
  {
    AppendMessage(cfg, n, pr, to, sendIfEmpty);
    assert LedBy(cfg, h, n.term, n.id);
    assert CommitOk(cfg, h, h.logs[n.term], n.commit, n.term);
    assert n.term > 0;
  }

  lemma MaybeSendAppendIs(cfg: Config, n: Node, to: Id, sendIfEmpty: bool)
    requires to in n.prs && !n.fatal && n.prs[to].next > 0
    ensures var r := AppendFor(cfg, n, n.prs[to], to, sendIfEmpty);
            MaybeSendAppend(cfg, n, to, sendIfEmpty).0
            == n.(prs := n.prs[to := r.pr], msgs := if r.sent then n.msgs + {r.msg} else n.msgs)
  {
  }

  lemma MaybeSendAppendOk(cfg: Config, h: History, n: Node, to: Id, sendIfEmpty: bool)
    requires Work(cfg, h, n) && n.role == Leader && to in cfg.voters && to != n.id
    ensures Work(cfg, h, MaybeSendAppend(cfg, n, to, sendIfEmpty).0)
    ensures MaybeSendAppend(cfg, n, to, sendIfEmpty).0.role == Leader && MaybeSendAppend(cfg, n, to, sendIfEmpty).0.id == n.id
  {
    var pr := n.prs[to];
    var r := AppendFor(cfg, n, pr, to, sendIfEmpty);
    assert PrOk(pr, n.Last(), cfg.maxInflight);
    assert Consecutive(n.log, 1);
    AppendForOk(cfg, n, pr, to, sendIfEmpty);
    AppendMsgOk(cfg, h, n, pr, to, sendIfEmpty);
    MaybeSendAppendIs(cfg, n, to, sendIfEmpty);
    OnePeerOk(cfg, h, n, to, r.pr, if r.sent then n.msgs + {r.msg} else n.msgs);
  }

  lemma RoomShrinks(cfg: Config, n: Node, to: Id)
    requires to in n.prs && MaybeSendAppend(cfg, n, to, false).1
    ensures to in MaybeSendAppend(cfg, n, to, false).0.prs
    ensures Room(MaybeSendAppend(cfg, n, to, false).0.prs[to]) < Room(n.prs[to])
  {
  }

  lemma {:induction false} SendWhileOk(cfg: Config, h: History, n: Node, to: Id)
    requires Work(cfg, h, n) && n.role == Leader && to in cfg.voters && to != n.id
    ensures Work(cfg, h, SendWhile(cfg, n, to))
    decreases if to in n.prs then Room(n.prs[to]) else 0
  {
    MaybeSendAppendOk(cfg, h, n, to, false);
    var r := MaybeSendAppend(cfg, n, to, false);
    if r.1 {
      RoomShrinks(cfg, n, to);
      SendWhileOk(cfg, h, r.0, to);
    }
  }

  lemma BcastPeer(cfg: Config, h: History, n: Node, v: Id)
    requires Work(cfg, h, n) && n.role == Leader && v in n.prs && v != n.id
    ensures !Underflow(n, v)
    ensures var r := AppendFor(cfg, n, n.prs[v], v, true);
            && PrOk(r.pr, |n.log|, cfg.maxInflight) && r.pr.matched <= Acked(h, n.term, v)
            && MsgOk(cfg, h, r.msg)
  {
    assert Consecutive(n.log, 1);
    assert PrOk(n.prs[v], n.Last(), cfg.maxInflight);
    AppendForOk(cfg, n, n.prs[v], v, true);
    AppendMsgOk(cfg, h, n, n.prs[v], v, true);
  }

  lemma BcastAppendOk(cfg: Config, h: History, n: Node)
    requires Work(cfg, h, n) && n.role == Leader
    ensures Work(cfg, h, BcastAppend(cfg, n))
  {
    var n' := BcastAppend(cfg, n);
    forall v | v in n.prs && v != n.id
      ensures !Underflow(n, v)
      ensures PrOk(n'.prs[v], |n.log|, cfg.maxInflight) && n'.prs[v].matched <= Acked(h, n.term, v)
      ensures MsgOk(cfg, h, AppendFor(cfg, n, n.prs[v], v, true).msg)
    {
      BcastPeer(cfg, h, n, v);
    }
    PeersOk(cfg, h, n, n'.prs, n'.msgs);
  }

  lemma BcastHeartbeatOk(cfg: Config, h: History, n: Node)
    requires Work(cfg, h, n) && n.role == Leader
    ensures Work(cfg, h, BcastHeartbeat(n))
  {
    forall v | v in n.prs && v != n.id ensures MsgOk(cfg, h, HeartbeatFor(n, v)) {
      HeartbeatOk(cfg, h, n, v);
    }
    PeersOk(cfg, h, n, n.prs, BcastHeartbeat(n).msgs);
  }

  /** The heartbeat's commit index is safe for a follower that may lack committed entries. */
  lemma HeartbeatOk(cfg: Config, h: History, n: Node, v: Id)
    requires Work(cfg, h, n) && n.role == Leader && v in n.prs && v != n.id
    ensures MsgOk(cfg, h, HeartbeatFor(n, v))
  {
    var c := Min(n.prs[v].matched, n.commit);
    assert LedBy(cfg, h, n.term, n.id);
    assert n.term > 0;
    LowerCommit(cfg, h, n.log, n.commit, c, n.term);
    assert n.prs[v].matched <= Acked(h, n.term, v);
  }

  lemma LowerCommit(cfg: Config, h: History, log: seq<Entry>, commit: nat, c: nat, term: nat)
    requires CommitOk(cfg, h, log, commit, term) && c <= commit
    ensures CommitOk(cfg, h, log, c, term)
  {
    var t: nat, k: nat :| Committed(cfg, h, t, k) && t <= term && commit <= k && SharesPrefix(log, h.logs[t], commit);
    assert log[..c] == log[..commit][..c] == h.logs[t][..commit][..c] == h.logs[t][..c];
    assert SharesPrefix(log, h.logs[t], c);
  }

  // ---------------------------------------------------------------- answers from followers

  /** A peer's flow-control state is replaced. */
  lemma SetProgressOk(cfg: Config, h: History, n: Node, v: Id, p: Progress)
    requires Work(cfg, h, n) && n.role == Leader && v in n.prs && (v == n.id ==> p.ins.q == [])
    requires PrOk(p, |n.log|, cfg.maxInflight) && p.matched <= Acked(h, n.term, v)
    ensures Work(cfg, h, SetProgress(n, v, p))
  {
    OnePeerOk(cfg, h, n, v, p, n.msgs);
  }

  lemma RejectedOk(cfg: Config, h: History, n: Node, m: Message)
    requires Work(cfg, h, n) && n.role == Leader && m.AppResp? && m.reject
    requires m.from in n.prs && m.from != n.id
    ensures Work(cfg, h, OnAppResp(cfg, n, m))
  {
    var pr := n.prs[m.from].(recentActive := true);
    assert PrOk(pr, |n.log|, cfg.maxInflight) && pr.matched <= Acked(h, n.term, m.from);
    var d := pr.MaybeDecreaseTo(m.index, m.rejectHint);
    if d.1 {
      MaybeDecreaseOk(pr, m.index, m.rejectHint, |n.log|, cfg.maxInflight);
      var p := if d.0.state == Replicate then d.0.BecomeProbe() else d.0;
      SetProgressOk(cfg, h, n, m.from, p);
      MaybeSendAppendOk(cfg, h, SetProgress(n, m.from, p), m.from, true);
    } else {
      SetProgressOk(cfg, h, n, m.from, pr);
    }
  }

  lemma AcceptedOk(cfg: Config, h: History, n: Node, m: Message)
    requires Work(cfg, h, n) && n.role == Leader && m.AppResp? && !m.reject
    requires m.from in n.prs && m.from != n.id && m.index <= Acked(h, n.term, m.from)
    ensures Work(cfg, h, OnAppResp(cfg, n, m))
  {
    var pr := n.prs[m.from].(recentActive := true);
    assert PrOk(pr, |n.log|, cfg.maxInflight) && pr.matched <= Acked(h, n.term, m.from);
    AckWithin(cfg, h, n.term, m.from);
    MaybeUpdateOk(pr, m.index, |n.log|, cfg.maxInflight);
    var u := pr.MaybeUpdate(m.index);
    if u.1 {
      var n1 := SetProgress(n, m.from, u.0.AfterUpdate(m.index));
      SetProgressOk(cfg, h, n, m.from, u.0.AfterUpdate(m.index));
      MaybeCommitOk(cfg, h, n1);
      AfterAccepted(cfg, h, MaybeCommit(n1).0, MaybeCommit(n1).1, pr.IsPaused(), m.from);
    } else {
      SetProgressOk(cfg, h, n, m.from, u.0);
    }
  }

  lemma AckWithin(cfg: Config, h: History, t: nat, v: Id)
    requires AcksOk(cfg, h)
    ensures Acked(h, t, v) > 0 ==> t in h.logs && Acked(h, t, v) <= |h.logs[t]|
  {
  }

  lemma AfterAccepted(cfg: Config, h: History, n: Node, moved: bool, wasPaused: bool, to: Id)
    requires Work(cfg, h, n) && n.role == Leader && to in n.prs && to != n.id
    ensures var s := if moved then BcastAppend(cfg, n) else if wasPaused then SendAppend(cfg, n, to) else n;
            Work(cfg, h, SendWhile(cfg, s, to))
  {
    var s := if moved then BcastAppend(cfg, n) else if wasPaused then SendAppend(cfg, n, to) else n;
    BcastAppendOk(cfg, h, n);
    MaybeSendAppendOk(cfg, h, n, to, true);
    SendWhileOk(cfg, h, s, to);
  }

  lemma OnHeartbeatRespOk(cfg: Config, h: History, n: Node, from: Id)
    requires Work(cfg, h, n) && n.role == Leader && from in n.prs && from != n.id
    ensures Work(cfg, h, OnHeartbeatResp(cfg, n, from))
  {
    assert PrOk(n.prs[from], |n.log|, cfg.maxInflight) && n.prs[from].matched <= Acked(h, n.term, from);
    HeartbeatRespOk(n.prs[from], |n.log|, cfg.maxInflight);
    SetProgressOk(cfg, h, n, from, n.prs[from].OnHeartbeatResp());
    MaybeSendAppendOk(cfg, h, SetProgress(n, from, n.prs[from].OnHeartbeatResp()), from, true);
  }

  lemma ProposeOk(cfg: Config, h: History, n: Node, payloads: seq<Payload>) returns (h': History)
    requires Work(cfg, h, n) && n.role == Leader && payloads != []
    ensures Ext(h, h', n.id) && Work(cfg, h', Propose(cfg, n, payloads))
  {
    assert n.(fatal := n.fatal || payloads == []) == n;
    h' := AppendEntryOk(cfg, h, n, payloads);
    BcastAppendOk(cfg, h', AppendEntry(n, payloads));
  }
}

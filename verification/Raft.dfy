/** The raft node as the source writes it: an object whose methods update its fields, with
    loops over the peers.  Every method is proved to do what the function of `RaftCore` of the
    same name says, so everything proved about runs of those functions holds of this object. */
module RaftNode {
  import opened Types
  import opened LogModel
  import opened ProgressModel
  import opened EntrySize
  import opened Quorum
  import opened QuorumCommit
  import opened RaftCore

  // ---------------------------------------------------------------- loops over the peers

  /** The broadcast when only the peers in `done` have had their turn. */
  function BcastTo(cfg: Config, n: Node, done: set<Id>): Node {
    n.(prs := map v | v in n.prs :: if v in done && v != n.id then AppendFor(cfg, n, n.prs[v], v, true).pr else n.prs[v],
       msgs := n.msgs + set v | v in done && v in n.prs && v != n.id && AppendFor(cfg, n, n.prs[v], v, true).sent
                          :: AppendFor(cfg, n, n.prs[v], v, true).msg,
       fatal := n.fatal || exists v :: v in done && v in n.prs && v != n.id && Underflow(n, v))
  }

  lemma BcastToNone(cfg: Config, n: Node)
    ensures BcastTo(cfg, n, {}) == n
  {
    assert BcastTo(cfg, n, {}).prs == n.prs;
  }

  lemma BcastToAll(cfg: Config, n: Node)
    ensures BcastTo(cfg, n, n.prs.Keys) == BcastAppend(cfg, n)
  {
    var b := BcastTo(cfg, n, n.prs.Keys);
    assert b.prs == BcastAppend(cfg, n).prs;
    assert b.msgs == BcastAppend(cfg, n).msgs;
  }

  /** What goes out to one peer does not depend on the progress of the others. */
  lemma AppendForFrame(cfg: Config, n: Node, n': Node, pr: Progress, to: Id, sendIfEmpty: bool)
    requires n' == n.(prs := n'.prs, msgs := n'.msgs, fatal := n'.fatal)
    ensures AppendFor(cfg, n', pr, to, sendIfEmpty) == AppendFor(cfg, n, pr, to, sendIfEmpty)
  {
  }

  lemma BcastToOneMore(cfg: Config, n: Node, done: set<Id>, v: Id)
    requires v in n.prs && v !in done
    ensures v == n.id ==> BcastTo(cfg, n, done + {v}) == BcastTo(cfg, n, done)
    ensures v != n.id ==> BcastTo(cfg, n, done + {v}) == MaybeSendAppend(cfg, BcastTo(cfg, n, done), v, true).0
  {
    var b, b' := BcastTo(cfg, n, done), BcastTo(cfg, n, done + {v});
    var r := AppendFor(cfg, n, n.prs[v], v, true);
    BcastToMore(cfg, n, done, v);
    if v != n.id {
      AppendForFrame(cfg, n, b, n.prs[v], v, true);
      assert b.prs[v] == n.prs[v];
    }
  }

  lemma BcastToMore(cfg: Config, n: Node, done: set<Id>, v: Id)
    requires v in n.prs && v !in done
    ensures var b, b' := BcastTo(cfg, n, done), BcastTo(cfg, n, done + {v});
            var r := AppendFor(cfg, n, n.prs[v], v, true);
            if v == n.id then b' == b
            else
              && b'.prs == b.prs[v := r.pr]
              && b'.msgs == (if r.sent then b.msgs + {r.msg} else b.msgs)
              && b'.fatal == (b.fatal || Underflow(n, v))
  {
    BcastMessages(cfg, n, done, v);
    var b, b' := BcastTo(cfg, n, done), BcastTo(cfg, n, done + {v});
    if v == n.id { assert b'.prs == b.prs; }
  }

  lemma BcastMessages(cfg: Config, n: Node, done: set<Id>, v: Id)
    requires v in n.prs && v !in done
    ensures var r := AppendFor(cfg, n, n.prs[v], v, true);
            BcastTo(cfg, n, done + {v}).msgs
            == BcastTo(cfg, n, done).msgs + (if v != n.id && r.sent then {r.msg} else {})
  {
  }

  function HeartbeatsTo(n: Node, done: set<Id>): Node {
    n.(msgs := n.msgs + set v | v in done && v in n.prs && v != n.id :: HeartbeatFor(n, v))
  }

  lemma HeartbeatsToOneMore(n: Node, done: set<Id>, v: Id)
    requires v in n.prs
    ensures HeartbeatsTo(n, done + {v}).msgs == HeartbeatsTo(n, done).msgs + (if v == n.id then {} else {HeartbeatFor(n, v)})
    ensures HeartbeatsTo(n, {}).msgs == n.msgs
    ensures HeartbeatsTo(n, n.prs.Keys) == BcastHeartbeat(n)
  {
    assert HeartbeatsTo(n, n.prs.Keys).msgs == BcastHeartbeat(n).msgs;
  }

  /** The request that `campaign` sends. */
  function Request(n: Node, pre: bool, v: Id): Message {
    if pre then PreVote(n.id, v, n.term + 1, n.Last(), n.LogOf().LastTerm())
    else Vote(n.id, v, n.term, n.Last(), n.LogOf().LastTerm())
  }

  function Requests(n: Node, pre: bool, done: set<Id>): set<Message> {
    set v | v in done && v in n.prs && v != n.id :: Request(n, pre, v)
  }

  lemma RequestsOneMore(n: Node, pre: bool, done: set<Id>, v: Id)
    requires v in n.prs
    ensures Requests(n, pre, done + {v}) == Requests(n, pre, done) + (if v == n.id then {} else {Request(n, pre, v)})
  {
  }

  lemma CampaignSends(cfg: Config, n: Node)
    ensures var p := Poll(BecomeCandidate(cfg, n), n.id, true);
            CampaignElection(cfg, n) == if p.Quorum() == |Granted(p.votes)| then BecomeLeader(cfg, p)
                                        else p.(msgs := p.msgs + Requests(p, false, p.prs.Keys))
  {
    var p := Poll(BecomeCandidate(cfg, n), n.id, true);
    assert Requests(p, false, p.prs.Keys)
        == set v | v in p.prs && v != p.id :: Message.Vote(p.id, v, p.term, p.Last(), p.LogOf().LastTerm());
  }

  lemma PreCampaignSends(cfg: Config, n: Node)
    ensures var p := Poll(BecomePreCandidate(n), n.id, true);
            CampaignPreElection(cfg, n) == if p.Quorum() == |Granted(p.votes)| then CampaignElection(cfg, p)
                                           else p.(msgs := p.msgs + Requests(p, true, p.prs.Keys))
  {
    var p := Poll(BecomePreCandidate(n), n.id, true);
    assert Requests(p, true, p.prs.Keys)
        == set v | v in p.prs && v != p.id :: Message.PreVote(p.id, v, p.term + 1, p.Last(), p.LogOf().LastTerm());
  }

  lemma CountOneMore(all: set<Id>, done: set<Id>, x: Id)
    requires x !in done
    ensures |all * (done + {x})| == |all * done| + if x in all then 1 else 0
  {
    assert all * (done + {x}) == all * done + if x in all then {x} else {};
  }

  /** The new leader before it appends its empty entry. */
  function LeaderBeforeAppend(cfg: Config, n: Node): Node {
    var r := RaftCore.Reset(cfg, n, n.term).(lead := n.id, role := Leader, fatal := n.fatal || n.role == Follower);
    r.(prs := if n.id in r.prs then r.prs[n.id := r.prs[n.id].BecomeReplicate()] else r.prs)
  }

  function FreshFor(cfg: Config, n: Node, v: Id): Progress {
    FreshProgress(n.Last() + 1, if v == n.id then n.Last() else 0, cfg.maxInflight)
  }

  function ActiveIn(id: Id, prs: map<Id, Progress>): set<Id> {
    set v | v in prs && (v == id || prs[v].recentActive)
  }

  method CountActive(id: Id, prs: map<Id, Progress>) returns (act: nat)
    ensures act == |ActiveIn(id, prs)|
  {
    act := 0;
    ghost var done := {};
    var rest := prs.Keys;
    while rest != {}
      invariant rest <= prs.Keys && done == prs.Keys - rest
      invariant act == |ActiveIn(id, prs) * done|
      decreases rest
    {
      var v :| v in rest;
      CountOneMore(ActiveIn(id, prs), done, v);
      if v == id || prs[v].recentActive { act := act + 1; }
      done := done + {v};
      rest := rest - {v};
    }
    assert ActiveIn(id, prs) * done == ActiveIn(id, prs);
  }

  function MatchesOf(prs: map<Id, Progress>): map<Id, nat> {
    map v | v in prs :: prs[v].matched
  }

  /** The match indexes of all peers, in the order of the map. */
  method ListMatches(prs: map<Id, Progress>) returns (buf: seq<nat>)
    ensures Lists(buf, MatchesOf(prs), prs.Keys)
  {
    buf := [];
    ghost var done := {};
    ListsNone(MatchesOf(prs));
    var rest := prs.Keys;
    while rest != {}
      invariant rest <= prs.Keys && done == prs.Keys - rest
      invariant Lists(buf, MatchesOf(prs), done)
      decreases rest
    {
      var v :| v in rest;
      ListsOneMore(buf, MatchesOf(prs), done, v);
      buf := buf + [prs[v].matched];
      done := done + {v};
      rest := rest - {v};
    }
    assert done == prs.Keys;
  }

  method CountGranted(votes: map<Id, bool>) returns (granted: nat)
    ensures granted == |Granted(votes)|
  {
    granted := 0;
    ghost var done := {};
    var rest := votes.Keys;
    while rest != {}
      invariant rest <= votes.Keys && done == votes.Keys - rest
      invariant granted == |Granted(votes) * done|
      decreases rest
    {
      var x :| x in rest;
      CountOneMore(Granted(votes), done, x);
      if votes[x] { granted := granted + 1; }
      done := done + {x};
      rest := rest - {x};
    }
    assert Granted(votes) * done == Granted(votes);
  }

  // ---------------------------------------------------------------- the object

  class Raft {
    const cfg: Config
    const id: Id
    var term: nat
    var vote: Id
    var log: seq<Entry>
    var committed: nat
    var role: Role
    var lead: Id
    var votes: map<Id, bool>
    var prs: map<Id, Progress>
    var msgs: seq<Message>
    var matchBuf: seq<nat>
    var fatal: bool

    ghost function Outbox(): set<Message>
      reads this
    {
      set m | m in msgs
    }

    /** The object as a value of the protocol model. */
    ghost function View(): Node
      reads this
    {
      Node(id, term, vote, log, committed, role, lead, votes, prs, Outbox(), fatal)
    }

    /** A node always tracks itself. */
    ghost predicate Valid()
      reads this
    {
      id in prs
    }

    constructor (cfg: Config, id: Id, term: nat, vote: Id, log: seq<Entry>, commit: nat)
      requires id in cfg.voters
      ensures this.cfg == cfg && this.id == id && Valid()
      ensures View() == Boot(cfg, id, term, vote, log, commit)
    {
      this.cfg, this.id := cfg, id;
      this.term, this.vote, this.log, this.committed := term, vote, log, commit;
      role, lead, votes, msgs, matchBuf := Follower, 0, map[], [], [];
      prs := map v | v in cfg.voters :: FreshProgress(|log| + 1, if v == id then |log| else 0, cfg.maxInflight);
      fatal := commit > |log|;
    }

    method Push(m: Message)
      modifies this
      ensures View() == old(View()).Send(m) && prs == old(prs)
    {
      msgs := msgs + [m];
      assert Outbox() == old(Outbox()) + {m};
    }

    /** `send` for a vote message or its answer. */
    method SendVote(m: Message)
      modifies this
      ensures View() == old(View()).SendVote(m) && prs == old(prs)
    {
      if m.term == 0 { fatal := true; }
      Push(m);
    }

    // -------------------------------------------------------------- roles

    /** Every peer is tracked afresh. */
    method ResetProgress()
      requires Valid()
      modifies this`prs
      ensures prs == RaftCore.ResetProgress(cfg, old(View()))
      ensures prs.Keys == old(prs).Keys
    {
      ghost var n := View();
      var rest := prs.Keys;
      while rest != {}
        invariant rest <= prs.Keys == n.prs.Keys
        invariant forall v :: v in prs ==> prs[v] == if v in rest then n.prs[v] else FreshFor(cfg, n, v)
        decreases rest
      {
        var v :| v in rest;
        prs := prs[v := FreshProgress(|log| + 1, if v == id then |log| else 0, cfg.maxInflight)];
        rest := rest - {v};
      }
    }

    method Reset(newTerm: nat)
      requires Valid()
      modifies this
      ensures View() == RaftCore.Reset(cfg, old(View()), newTerm)
      ensures prs.Keys == old(prs).Keys
    {
      if term != newTerm {
        term := newTerm;
        vote := 0;
      }
      lead := 0;
      votes := map[];
      ResetProgress();
    }

    method BecomeFollower(newTerm: nat, newLead: Id)
      requires Valid()
      modifies this
      ensures View() == RaftCore.BecomeFollower(cfg, old(View()), newTerm, newLead)
      ensures prs.Keys == old(prs).Keys
    {
      Reset(newTerm);
      lead := newLead;
      role := Follower;
    }

    method BecomeCandidate()
      requires Valid()
      modifies this
      ensures View() == RaftCore.BecomeCandidate(cfg, old(View()))
      ensures prs.Keys == old(prs).Keys
    {
      if role == Leader { fatal := true; }
      Reset(term + 1);
      vote := id;
      role := Candidate;
    }

    method BecomePreCandidate()
      requires Valid()
      modifies this
      ensures View() == RaftCore.BecomePreCandidate(old(View()))
      ensures prs.Keys == old(prs).Keys
    {
      if role == Leader { fatal := true; }
      votes := map[];
      lead := 0;
      role := PreCandidate;
    }

    method BecomeLeader()
      requires Valid()
      modifies this
      ensures View() == RaftCore.BecomeLeader(cfg, old(View()))
      ensures prs.Keys == old(prs).Keys
    {
      if role == Follower { fatal := true; }
      Reset(term);
      lead := id;
      role := Leader;
      prs := prs[id := prs[id].BecomeReplicate()];
      assert View() == LeaderBeforeAppend(cfg, old(View()));
      AppendEntry([Payload(EntryNormal, [])]);
    }

    // -------------------------------------------------------------- the leader's log

    method AppendEntry(payloads: seq<Payload>)
      requires Valid()
      modifies this
      ensures View() == RaftCore.AppendEntry(old(View()), payloads)
      ensures prs.Keys == old(prs).Keys
    {
      var last := |log|;
      var ents: seq<Entry> := [];
      var i := 0;
      while i < |payloads|
        invariant i <= |payloads| && |ents| == i
        invariant ents == NewEntries(old(View()), payloads)[..i]
      {
        ents := ents + [Entry(term, last + i + 1, payloads[i].typ, payloads[i].data)];
        i := i + 1;
      }
      assert ents == NewEntries(old(View()), payloads);
      if |log| < committed { fatal := true; }
      log := log + ents;
      prs := prs[id := prs[id].MaybeUpdate(|log|).0];
      var _ := MaybeCommit();
    }

    /** Fills the match buffer, sorts it and takes the element at size - quorum. */
    method MaybeCommit() returns (moved: bool)
      requires Valid()
      modifies this
      ensures (View(), moved) == RaftCore.MaybeCommit(old(View()))
      ensures prs == old(prs)
    {
      FillMatchBuf();
      ghost var matches := Matches(View());
      SortedRankIsQuorumIndex(matchBuf, matches);
      matchBuf := Sort(matchBuf);
      var mci := matchBuf[|matchBuf| - QuorumSize(prs.Keys)];
      QuorumIndexUnique(matches, mci, QuorumIndex(matches));
      moved := mci > committed && Log(0, 0, log).Term(mci) == term;
      if moved { CommitTo(mci); }
    }

    method FillMatchBuf()
      requires Valid()
      modifies this`matchBuf
      ensures Lists(matchBuf, Matches(View()), Matches(View()).Keys) && Matches(View()).Keys == prs.Keys
    {
      matchBuf := ListMatches(prs);
      assert Matches(View()) == MatchesOf(prs) && MatchesOf(prs).Keys == prs.Keys;
    }

    /** `RaftLog::commit_to`. */
    method CommitTo(to: nat)
      modifies this
      ensures var c := LogModel.CommitTo(old(View()).LogOf(), old(committed), to);
              View() == old(View()).(commit := c.0, fatal := old(fatal) || c.1)
      ensures prs == old(prs) && matchBuf == old(matchBuf)
    {
      if committed < to {
        if |log| < to { fatal := true; } else { committed := to; }
      }
    }

    // -------------------------------------------------------------- replication messages

    method MaybeSendAppend(to: Id, sendIfEmpty: bool) returns (sent: bool)
      requires Valid() && to in prs
      modifies this
      ensures (View(), sent) == RaftCore.MaybeSendAppend(cfg, old(View()), to, sendIfEmpty)
      ensures prs.Keys == old(prs).Keys
    {
      ghost var r := AppendFor(cfg, View(), prs[to], to, sendIfEmpty);
      var pr := prs[to];
      if pr.next == 0 { fatal := true; }
      if pr.IsPaused() {
        assert r == Append(pr, false, r.msg) && prs == old(prs)[to := pr];
        return false;
      }
      var prev := if pr.next == 0 then 0 else pr.next - 1;
      var prevTerm := Log(0, 0, log).Term(prev);
      var entries: seq<Entry> := [];
      if 0 < pr.next <= |log| {
        entries := LimitSize(cfg.maxMsgSize, log[pr.next - 1..]);
      }
      if entries == [] && !sendIfEmpty {
        assert r == Append(pr, false, r.msg) && prs == old(prs)[to := pr];
        return false;
      }
      if entries != [] {
        if pr.state == Replicate {
          var last := entries[|entries| - 1].index;
          pr := pr.(next := last + 1, ins := pr.ins.Add(last));
        } else {
          pr := pr.(paused := true);
        }
      }
      var msg := App(id, to, term, prev, prevTerm, entries, committed);
      assert r == Append(pr, true, msg);
      prs := prs[to := pr];
      Push(msg);
      return true;
    }

    method SendAppend(to: Id)
      requires Valid() && to in prs
      modifies this
      ensures View() == RaftCore.SendAppend(cfg, old(View()), to)
      ensures prs.Keys == old(prs).Keys
    {
      var _ := MaybeSendAppend(to, true);
    }

    /** The loop that sends until `maybe_send_append` answers false. */
    method SendWhile(to: Id)
      requires Valid() && to in prs
      modifies this
      ensures View() == RaftCore.SendWhile(cfg, old(View()), to)
      ensures prs.Keys == old(prs).Keys
    {
      var more := true;
      while more
        invariant prs.Keys == old(prs).Keys
        invariant if more then RaftCore.SendWhile(cfg, View(), to) == RaftCore.SendWhile(cfg, old(View()), to)
                  else View() == RaftCore.SendWhile(cfg, old(View()), to)
        decreases more, Room(prs[to])
      {
        more := MaybeSendAppend(to, false);
      }
    }

    method BcastAppend()
      requires Valid()
      modifies this
      ensures View() == RaftCore.BcastAppend(cfg, old(View()))
      ensures prs.Keys == old(prs).Keys
    {
      ghost var n := View();
      ghost var done := {};
      BcastToNone(cfg, n);
      var rest := prs.Keys;
      while rest != {}
        invariant rest <= prs.Keys == n.prs.Keys && done == prs.Keys - rest
        invariant View() == BcastTo(cfg, n, done)
        decreases rest
      {
        var v :| v in rest;
        BcastToOneMore(cfg, n, done, v);
        if v != id { SendAppend(v); }
        done := done + {v};
        rest := rest - {v};
      }
      assert done == n.prs.Keys;
      BcastToAll(cfg, n);
    }

    method BcastHeartbeat()
      requires Valid()
      modifies this
      ensures View() == RaftCore.BcastHeartbeat(old(View()))
      ensures prs == old(prs)
    {
      ghost var n := View();
      ghost var done := {};
      HeartbeatsToOneMore(n, {}, id);
      var rest := prs.Keys;
      while rest != {}
        invariant rest <= prs.Keys && prs == n.prs && done == prs.Keys - rest
        invariant View() == HeartbeatsTo(n, done)
        decreases rest
      {
        var v :| v in rest;
        HeartbeatsToOneMore(n, done, v);
        if v != id { Push(Heartbeat(id, v, term, Min(prs[v].matched, committed))); }
        done := done + {v};
        rest := rest - {v};
      }
      assert done == n.prs.Keys;
    }

    // -------------------------------------------------------------- elections

    /** Records an answer and counts the grants. */
    method Poll(from: Id, v: bool) returns (granted: nat)
      modifies this
      ensures View() == RaftCore.Poll(old(View()), from, v)
      ensures granted == |Granted(votes)| && prs == old(prs)
    {
      if from !in votes { votes := votes[from := v]; }
      granted := CountGranted(votes);
    }

    method SendRequests(pre: bool)
      requires Valid()
      modifies this
      ensures var n := old(View());
              View() == n.(msgs := n.msgs + Requests(n, pre, n.prs.Keys))
      ensures prs == old(prs)
    {
      ghost var n := View();
      ghost var done := {};
      assert n.msgs + Requests(n, pre, {}) == n.msgs;
      var rest := prs.Keys;
      while rest != {}
        invariant rest <= prs.Keys && prs == n.prs && done == prs.Keys - rest
        invariant View() == n.(msgs := n.msgs + Requests(n, pre, done))
        decreases rest
      {
        var v :| v in rest;
        RequestsOneMore(n, pre, done, v);
        if v != id {
          var lastTerm := Log(0, 0, log).LastTerm();
          Push(if pre then PreVote(id, v, term + 1, |log|, lastTerm) else Vote(id, v, term, |log|, lastTerm));
        }
        done := done + {v};
        rest := rest - {v};
      }
      assert done == n.prs.Keys;
    }

    method Campaign(pre: bool)
      requires Valid()
      modifies this
      ensures View() == if pre then CampaignPreElection(cfg, old(View())) else CampaignElection(cfg, old(View()))
      ensures prs.Keys == old(prs).Keys
      decreases pre
    {
      CampaignSends(cfg, View());
      PreCampaignSends(cfg, View());
      if pre { BecomePreCandidate(); } else { BecomeCandidate(); }
      var granted := Poll(id, true);
      if QuorumSize(prs.Keys) == granted {
        if pre { Campaign(false); } else { BecomeLeader(); }
      } else {
        SendRequests(pre);
      }
    }

    method HandleVote(m: Message)
      requires Valid() && (m.Vote? || m.PreVote?)
      modifies this
      ensures View() == RaftCore.HandleVote(old(View()), m)
      ensures prs == old(prs)
    {
      var canVote := vote == m.from || (vote == 0 && lead == 0) || (m.PreVote? && m.term > term);
      if canVote && Log(0, 0, log).IsUpToDate(m.index, m.logTerm) {
        SendVote(if m.Vote? then VoteResp(id, m.from, m.term, false) else PreVoteResp(id, m.from, m.term, false));
        if m.Vote? { vote := m.from; }
      } else {
        SendVote(if m.Vote? then VoteResp(id, m.from, term, true) else PreVoteResp(id, m.from, term, true));
      }
    }

    // -------------------------------------------------------------- followers

    method HandleAppendEntries(m: Message)
      requires Valid() && m.App? && Consecutive(m.entries, m.index + 1)
      modifies this
      ensures View() == RaftCore.HandleAppendEntries(old(View()), m)
      ensures prs == old(prs)
    {
      if m.index < committed {
        Push(AppResp(id, m.from, term, committed, false, 0));
        return;
      }
      var r := LogModel.MaybeAppend(Log(0, 0, log), committed, m.index, m.logTerm, m.commit, m.entries);
      log, committed, fatal := r.log.ents, r.committed, fatal || r.fatal;
      if r.ok {
        Push(AppResp(id, m.from, term, r.lastNew, false, 0));
      } else {
        Push(AppResp(id, m.from, term, m.index, true, |log|));
      }
    }

    method HandleHeartbeat(m: Message)
      requires Valid() && m.Heartbeat?
      modifies this
      ensures View() == RaftCore.HandleHeartbeat(old(View()), m)
      ensures prs == old(prs)
    {
      CommitTo(m.commit);
      Push(HeartbeatResp(id, m.from, term));
    }

    method StepFollower(m: Message)
      requires Valid() && (m.App? ==> Consecutive(m.entries, m.index + 1))
      modifies this
      ensures View() == RaftCore.StepFollower(cfg, old(View()), m)
      ensures prs.Keys == old(prs).Keys
    {
      match m
      case App(_, _, _, _, _, _, _) =>
        lead := m.from;
        HandleAppendEntries(m);
      case Heartbeat(_, _, _, _) =>
        lead := m.from;
        HandleHeartbeat(m);
      case Prop(_, _, _, _) =>
        if lead != 0 && cfg.forwardProposals {
          if m.term != 0 { fatal := true; }
          Push(Prop(id, lead, term, m.payloads));
        }
      case _ =>
    }

    // -------------------------------------------------------------- candidates

    method OnVoteResp(m: Message)
      requires Valid() && (m.VoteResp? || m.PreVoteResp?)
      modifies this
      ensures View() == RaftCore.OnVoteResp(cfg, old(View()), m)
      ensures prs.Keys == old(prs).Keys
    {
      var granted := Poll(m.from, !m.reject);
      if QuorumSize(prs.Keys) == granted {
        if role == PreCandidate {
          Campaign(false);
        } else {
          BecomeLeader();
          BcastAppend();
        }
      } else if QuorumSize(prs.Keys) == |votes| - granted {
        BecomeFollower(term, 0);
      }
    }

    method StepCandidate(m: Message)
      requires Valid() && (m.App? ==> Consecutive(m.entries, m.index + 1))
      modifies this
      ensures View() == RaftCore.StepCandidate(cfg, old(View()), m)
      ensures prs.Keys == old(prs).Keys
    {
      match m
      case App(_, _, _, _, _, _, _) =>
        BecomeFollower(m.term, m.from);
        HandleAppendEntries(m);
      case Heartbeat(_, _, _, _) =>
        BecomeFollower(m.term, m.from);
        HandleHeartbeat(m);
      case VoteResp(_, _, _, _) => OnVoteResp(m);
      case PreVoteResp(_, _, _, _) => OnVoteResp(m);
      case _ =>
    }

    // -------------------------------------------------------------- the leader

    method OnRejected(m: Message)
      requires Valid() && m.AppResp? && m.from in prs && m.reject
      modifies this
      ensures View() == RaftCore.OnAppResp(cfg, old(View()), m)
      ensures prs.Keys == old(prs).Keys
    {
      var pr := prs[m.from].(recentActive := true);
      var d := pr.MaybeDecreaseTo(m.index, m.rejectHint);
      pr := d.0;
      if d.1 && pr.state == Replicate { pr := pr.BecomeProbe(); }
      prs := prs[m.from := pr];
      if d.1 { SendAppend(m.from); }
    }

    method OnAccepted(m: Message)
      requires Valid() && m.AppResp? && m.from in prs && !m.reject
      modifies this
      ensures View() == RaftCore.OnAppResp(cfg, old(View()), m)
      ensures prs.Keys == old(prs).Keys
    {
      var pr := prs[m.from].(recentActive := true);
      var oldPaused := pr.IsPaused();
      var u := pr.MaybeUpdate(m.index);
      pr := u.0;
      if !u.1 {
        prs := prs[m.from := pr];
        return;
      }
      match pr.state {
        case Probe => pr := pr.BecomeReplicate();
        case Snapshot => if pr.NeedSnapshotAbort() { pr := pr.BecomeProbe(); }
        case Replicate => pr := pr.(ins := pr.ins.FreeTo(m.index));
      }
      prs := prs[m.from := pr];
      AfterMatch(m.from, oldPaused);
    }

    /** The match index of a peer has moved: commit what that allows, and send what is due. */
    method AfterMatch(from: Id, wasPaused: bool)
      requires Valid() && from in prs
      modifies this
      ensures var c := RaftCore.MaybeCommit(old(View()));
              var s := if c.1 then RaftCore.BcastAppend(cfg, c.0)
                       else if wasPaused then RaftCore.SendAppend(cfg, c.0, from) else c.0;
              View() == RaftCore.SendWhile(cfg, s, from)
      ensures prs.Keys == old(prs).Keys
    {
      var moved := MaybeCommit();
      if moved {
        BcastAppend();
      } else if wasPaused {
        SendAppend(from);
      }
      SendWhile(from);
    }

    method OnHeartbeatResp(from: Id)
      requires Valid() && from in prs
      modifies this
      ensures View() == RaftCore.OnHeartbeatResp(cfg, old(View()), from)
      ensures prs.Keys == old(prs).Keys
    {
      var pr := prs[from].(recentActive := true, paused := false);
      if pr.state == Replicate && pr.ins.Full() { pr := pr.(ins := pr.ins.FreeFirstOne()); }
      prs := prs[from := pr];
      if pr.matched < |log| { SendAppend(from); }
    }

    method Propose(payloads: seq<Payload>)
      requires Valid()
      modifies this
      ensures View() == RaftCore.Propose(cfg, old(View()), payloads)
      ensures prs.Keys == old(prs).Keys
    {
      if payloads == [] { fatal := true; }
      AppendEntry(payloads);
      BcastAppend();
    }

    method StepLeader(m: Message)
      requires Valid()
      modifies this
      ensures View() == RaftCore.StepLeader(cfg, old(View()), m)
      ensures prs.Keys == old(prs).Keys
    {
      match m
      case Prop(_, _, _, payloads) => Propose(payloads);
      case AppResp(_, _, _, _, _, _) =>
        if m.from in prs {
          if m.reject { OnRejected(m); } else { OnAccepted(m); }
        }
      case HeartbeatResp(_, _, _) => if m.from in prs { OnHeartbeatResp(m.from); }
      case _ =>
    }

    // -------------------------------------------------------------- one message

    method Dispatch(m: Message)
      requires Valid() && (m.App? ==> Consecutive(m.entries, m.index + 1))
      modifies this
      ensures View() == RaftCore.Dispatch(cfg, old(View()), m)
      ensures prs.Keys == old(prs).Keys
    {
      if m.Vote? || m.PreVote? {
        HandleVote(m);
      } else {
        match role
        case Leader => StepLeader(m);
        case Candidate => StepCandidate(m);
        case PreCandidate => StepCandidate(m);
        case Follower => StepFollower(m);
      }
    }

    method Step(m: Message, inLease: bool)
      requires Valid() && (m.App? ==> Consecutive(m.entries, m.index + 1))
      modifies this
      ensures View() == RaftCore.Step(cfg, old(View()), m, inLease)
      ensures Valid()
    {
      if m.term == 0 {
        Dispatch(m);
      } else if m.term > term {
        if (m.Vote? || m.PreVote?) && cfg.checkQuorum && lead != 0 && inLease { return; }
        if !(m.PreVote? || (m.PreVoteResp? && !m.reject)) {
          BecomeFollower(m.term, if m.App? || m.Heartbeat? then m.from else 0);
        }
        Dispatch(m);
      } else if m.term < term {
        if (cfg.checkQuorum || cfg.preVote) && (m.Heartbeat? || m.App?) {
          Push(AppResp(id, m.from, term, 0, false, 0));
        } else if m.PreVote? {
          SendVote(PreVoteResp(id, m.from, term, true));
        }
      } else {
        Dispatch(m);
      }
    }

    // -------------------------------------------------------------- local events

    /** Counts the peers heard from since the leader began to lead. */
    method CheckQuorumActive() returns (active: bool)
      requires Valid()
      ensures active <==> 2 * |Active(View())| > |prs.Keys|
    {
      var act := CountActive(id, prs);
      assert ActiveIn(id, prs) == Active(View());
      active := act >= QuorumSize(prs.Keys);
    }

    method Local(e: Event)
      requires Valid()
      modifies this
      ensures View() == RaftCore.Local(cfg, old(View()), e)
      ensures Valid()
    {
      match e
      case Hup => if role != Leader { Campaign(cfg.preVote); }
      case TimeoutNow => if role == Follower { Campaign(false); }
      case Beat => if role == Leader { BcastHeartbeat(); }
      case CheckQuorum =>
        if role == Leader {
          var active := CheckQuorumActive();
          if !active { BecomeFollower(term, 0); }
        }
      case Unreachable(v) =>
        if role == Leader && v in prs && prs[v].state == Replicate {
          prs := prs[v := prs[v].BecomeProbe()];
        }
      case Client(payloads) =>
        match role {
          case Leader => Propose(payloads);
          case Follower => if lead != 0 && cfg.forwardProposals { Push(Prop(id, lead, term, payloads)); }
          case _ =>
        }
    }
  }
}

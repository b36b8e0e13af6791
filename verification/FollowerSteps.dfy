/** A follower takes entries, commit indexes and heartbeats from the leader of its term. */
module FollowerSteps {
  import opened Types
  import opened LogModel
  import opened ProgressModel
  import opened Quorum
  import opened RaftCore
  import opened Cluster
  import opened Invariant
  import opened Growth
  import opened HistorySteps
  import opened NodeSteps
  import opened LeaderSteps

  /** Two logs that agree with the history match each other. */
  lemma LogsMatch(logs: map<nat, seq<Entry>>, a: seq<Entry>, b: seq<Entry>)
    requires LogOk(logs, a) && LogOk(logs, b)
    ensures Matching(a, b)
  {
    forall i | 0 <= i < |a| && i < |b| ensures MatchAt(a, b, i) {
      assert PointOk(logs, a, i) && PointOk(logs, b, i);
    }
  }

  /** What a node knows to be committed is in the log of the leader of its term. */
  lemma CommittedInLeader(cfg: Config, h: History, log: seq<Entry>, commit: nat, term: nat)
    requires HistOk(cfg, h) && CommitOk(cfg, h, log, commit, term) && term in h.logs
    ensures SharesPrefix(log, h.logs[term], commit)
  {
    var t: nat, k: nat :| Committed(cfg, h, t, k) && t <= term && commit <= k && SharesPrefix(log, h.logs[t], commit);
    if t < term {
      CommittedIsChoosable(cfg, h, t, k);
      assert LeaderHas(cfg, h, t, term, k);
      assert h.logs[term][..commit] == h.logs[term][..k][..commit] == h.logs[t][..k][..commit] == h.logs[t][..commit];
    }
  }

  lemma PrefixLogOk(logs: map<nat, seq<Entry>>, log: seq<Entry>, n: nat)
    requires LogOk(logs, log) && n <= |log|
    ensures LogOk(logs, log[..n])
  {
    var p := log[..n];
    forall i | 0 <= i < |p| ensures PointOk(logs, p, i) {
      assert PointOk(logs, log, i);
      assert p[..i + 1] == log[..i + 1];
    }
  }

  lemma LeaderLogFacts(cfg: Config, logs: map<nat, seq<Entry>>, t: nat)
    requires LogsOk(cfg, logs) && t in logs
    ensures LogOk(logs, logs[t]) && TermsBelow(logs[t], t + 1)
    ensures forall i :: 0 <= i < |logs[t]| ==> logs[t][i].term > 0
  {
    assert LeaderLogOk(cfg, logs, t);
    forall i | 0 <= i < |logs[t]| ensures 0 < logs[t][i].term <= t {
      assert PointOk(logs, logs[t], i);
      assert logs[t][i].term <= logs[t][|logs[t]| - 1].term;
    }
  }

  /** The log after an append, `log'`, keeps what the old one was bound to keep. */
  lemma AppendKeeps(cfg: Config, h: History, h': History, id: Id, term: nat, log: seq<Entry>, log': seq<Entry>, last: nat)
    requires LeadersComplete(cfg, h) && AcksOk(cfg, h) && Keeps(cfg, h, id, term, log)
    requires Grows(h, h') && h'.logs == h.logs && term in h.logs
    requires last <= |h.logs[term]| && last <= |log'| && log'[..last] == h.logs[term][..last]
    requires log' == log || log' == h.logs[term][..last]
    requires log' == log <==> last <= |log| && log[..last] == h.logs[term][..last]
    requires Acked(h', term, id) == Max(Acked(h, term, id), last)
    requires forall t: nat :: t != term ==> Acked(h', t, id) == Acked(h, t, id)
    ensures Keeps(cfg, h', id, term, log')
  {
    if Acked(h, term, id) >= last {
      AckedPrefix(cfg, h, id, term, log, last);
      assert log' == log;
    }
    forall t: nat, i: nat ensures KeepsPoint(cfg, h', id, term, log', t, i) {
      if t < term && Choosable(cfg, h', t, i) && i <= Acked(h', t, id) && i > 0 {
        assert (t, id) in h.acked;
        ChoosableBefore(cfg, h, h', t, i);
        assert KeepsPoint(cfg, h, id, term, log, t, i) && LeaderHas(cfg, h, t, term, i);
        if i > last {
          assert log[..last] == log[..i][..last] == h.logs[term][..i][..last] == h.logs[term][..last];
        } else if log' != log {
          assert log'[..i] == h.logs[term][..last][..i] == h.logs[term][..i];
        }
      }
    }
  }

  /** The commit index after an append. */
  lemma AppendCommit(cfg: Config, h: History, term: nat, log: seq<Entry>, commit: nat, log': seq<Entry>, last: nat,
                     leaderCommit: nat, commit': nat)
    requires term in h.logs && CommitOk(cfg, h, log, commit, term) && CommitOk(cfg, h, h.logs[term], leaderCommit, term)
    requires last <= |h.logs[term]| && last <= |log'| && log'[..last] == h.logs[term][..last]
    requires commit <= |log| && commit <= |log'| && log'[..commit] == log[..commit]
    requires commit' == Max(commit, Min(leaderCommit, last))
    ensures CommitOk(cfg, h, log', commit', term)
  {
    if commit' == commit {
      CommitOkGrows(cfg, h, h, log, log', commit, term, term);
    } else {
      LowerCommit(cfg, h, h.logs[term], leaderCommit, commit', term);
      assert log'[..commit'] == log'[..last][..commit'] == h.logs[term][..last][..commit'] == h.logs[term][..commit'];
      CommitOkGrows(cfg, h, h, h.logs[term], log', commit', term, term);
    }
  }

  lemma AckHist(cfg: Config, h: History, n: Node, i: nat) returns (h': History)
    requires HistOk(cfg, h) && NodeBase(cfg, h, n) && n.term in h.logs && i <= |h.logs[n.term]|
    ensures h' == Ack(h, n.term, n.id, i) && Ext(h, h', n.id) && HistOk(cfg, h')
    ensures Acked(h', n.term, n.id) == Max(Acked(h, n.term, n.id), i)
    ensures forall t: nat :: t != n.term ==> Acked(h', t, n.id) == Acked(h, t, n.id)
  {
    h' := Ack(h, n.term, n.id, i);
    AckOk(cfg, h, n.term, n.id, i);
    AckSelfView(h, h', n.id, n.term, i);
  }

  /** A follower whose log and commit index are replaced by ones that agree with the history. */
  lemma NewLogNode(cfg: Config, h: History, h': History, n: Node, log: seq<Entry>, commit: nat)
    requires NodeBase(cfg, h, n) && n.role == Follower && Grows(h, h') && h'.votes == h.votes && h'.term == h.term
    requires NodeLog(cfg, h', n.id, n.term, log, commit)
    ensures NodeOk(cfg, h', n.(log := log, commit := commit))
  {
    var n' := n.(log := log, commit := commit);
    assert NodeBase(cfg, h', n');
  }

  /** A replication message of the follower's own term. */
  ghost predicate AppFits(cfg: Config, h: History, n: Node, m: Message) {
    && m.App? && m.term == n.term && m.from in cfg.voters && m.from != n.id && n.term > 0
    && n.term in h.logs
    && m.index + |m.entries| <= |h.logs[n.term]|
    && m.entries == h.logs[n.term][m.index..m.index + |m.entries|]
    && m.logTerm == TermAt(h.logs[n.term], m.index)
    && CommitOk(cfg, h, h.logs[n.term], m.commit, n.term)
  }

  lemma SegmentInOrder(leader: seq<Entry>, index: nat, es: seq<Entry>)
    requires Consecutive(leader, 1) && index + |es| <= |leader| && es == leader[index..index + |es|]
    ensures Consecutive(es, index + 1)
  {
    forall k | 0 <= k < |es| ensures es[k].index == index + 1 + k {
      assert es[k] == leader[index + k];
    }
  }

  lemma AppendedUpTo(r: Outcome, log: seq<Entry>, committed: nat, leaderCommit: nat, leader: seq<Entry>, lastNew: nat)
    requires lastNew <= |leader| && LogModel.Appended(r, log, committed, leaderCommit, leader, lastNew)
    ensures r.lastNew == lastNew <= |r.log.ents| && r.log.ents[..r.lastNew] == leader[..r.lastNew]
    ensures r.log.ents == log || r.log.ents == leader[..r.lastNew]
    ensures r.log.ents == log <==> r.lastNew <= |log| && log[..r.lastNew] == leader[..r.lastNew]
    ensures r.committed == Max(committed, Min(leaderCommit, r.lastNew))
  {
  }

  /** The append on the follower's log, by the contract of `maybe_append`. */
  lemma AppendOutcome(cfg: Config, h: History, n: Node, m: Message) returns (r: Outcome)
    requires HistOk(cfg, h) && NodeOk(cfg, h, n) && AppFits(cfg, h, n, m)
    ensures Consecutive(m.entries, m.index + 1) && n.commit <= |n.log|
    ensures r == MaybeAppend(n.LogOf(), n.commit, m.index, m.logTerm, m.commit, m.entries)
    ensures !r.fatal && n.commit <= r.committed <= |r.log.ents| && r.log.ents[..n.commit] == n.log[..n.commit]
    ensures !r.ok ==> r.log.ents == n.log && r.committed == n.commit
    ensures r.ok ==> var leader := h.logs[n.term];
              && r.lastNew == m.index + |m.entries| <= |r.log.ents|
              && r.log.ents[..r.lastNew] == leader[..r.lastNew]
              && (r.log.ents == n.log || r.log.ents == leader[..r.lastNew])
              && (r.log.ents == n.log <==> r.lastNew <= |n.log| && n.log[..r.lastNew] == leader[..r.lastNew])
              && r.committed == Max(n.commit, Min(m.commit, r.lastNew))
  {
    var leader := h.logs[n.term];
    LeaderLogFacts(cfg, h.logs, n.term);
    LogsMatch(h.logs, n.log, leader);
    CommittedInLeader(cfg, h, n.log, n.commit, n.term);
    SegmentInOrder(leader, m.index, m.entries);
    r := MaybeAppend(n.LogOf(), n.commit, m.index, m.logTerm, m.commit, m.entries);
    MaybeAppendContract(n.log, n.commit, m.index, m.logTerm, m.commit, m.entries, leader);
    if r.ok { AppendedUpTo(r, n.log, n.commit, m.commit, leader, m.index + |m.entries|); }
  }

  lemma AppendedNodeLog(cfg: Config, h: History, h': History, n: Node, m: Message, r: Outcome)
    requires HistOk(cfg, h) && NodeOk(cfg, h, n) && AppFits(cfg, h, n, m) && r.ok
    requires n.commit <= |n.log| && n.commit <= r.committed <= |r.log.ents| && r.log.ents[..n.commit] == n.log[..n.commit]
    requires r.lastNew == m.index + |m.entries| <= |r.log.ents|
    requires r.log.ents[..r.lastNew] == h.logs[n.term][..r.lastNew]
    requires r.log.ents == n.log || r.log.ents == h.logs[n.term][..r.lastNew]
    requires r.log.ents == n.log <==> r.lastNew <= |n.log| && n.log[..r.lastNew] == h.logs[n.term][..r.lastNew]
    requires r.committed == Max(n.commit, Min(m.commit, r.lastNew))
    requires Grows(h, h') && h'.logs == h.logs
    requires Acked(h', n.term, n.id) == Max(Acked(h, n.term, n.id), r.lastNew)
    requires forall t: nat :: t != n.term ==> Acked(h', t, n.id) == Acked(h, t, n.id)
    ensures NodeLog(cfg, h', n.id, n.term, r.log.ents, r.committed)
  {
    LeaderLogFacts(cfg, h.logs, n.term);
    PrefixLogOk(h.logs, h.logs[n.term], r.lastNew);
    AppendCommit(cfg, h, n.term, n.log, n.commit, r.log.ents, r.lastNew, m.commit, r.committed);
    CommitOkGrows(cfg, h, h', r.log.ents, r.log.ents, r.committed, n.term, n.term);
    AppendKeeps(cfg, h, h', n.id, n.term, n.log, r.log.ents, r.lastNew);
  }

  lemma HandleAppendEntriesOk(cfg: Config, h: History, n: Node, m: Message) returns (h': History)
    requires Work(cfg, h, n) && n.role == Follower && AppFits(cfg, h, n, m)
    ensures Consecutive(m.entries, m.index + 1)
    ensures Ext(h, h', n.id) && Work(cfg, h', HandleAppendEntries(n, m))
  {
    var r := AppendOutcome(cfg, h, n, m);
    if m.index < n.commit {
      h' := StaleAppendOk(cfg, h, n, m);
    } else if r.ok {
      h' := AckHist(cfg, h, n, r.lastNew);
      AppendedNodeLog(cfg, h, h', n, m, r);
      NewLogNode(cfg, h, h', n, r.log.ents, r.committed);
      MsgsGrow(cfg, h, h', n.msgs);
      SendOk(cfg, h', n.(log := r.log.ents, commit := r.committed), AppResp(n.id, m.from, n.term, r.lastNew, false, 0));
    } else {
      h' := h;
      SendOk(cfg, h, n, AppResp(n.id, m.from, n.term, m.index, true, n.Last()));
      assert n.(log := r.log.ents, commit := r.committed, fatal := n.fatal || r.fatal) == n;
    }
  }

  /** An old message is answered with the commit index, up to which the logs agree. */
  lemma StaleAppendOk(cfg: Config, h: History, n: Node, m: Message) returns (h': History)
    requires Work(cfg, h, n) && n.role == Follower && AppFits(cfg, h, n, m)
    ensures Ext(h, h', n.id) && Work(cfg, h', n.Send(AppResp(n.id, m.from, n.term, n.commit, false, 0)))
  {
    CommittedInLeader(cfg, h, n.log, n.commit, n.term);
    h' := AckHist(cfg, h, n, n.commit);
    StaleKeeps(cfg, h, h', n);
    NewLogNode(cfg, h, h', n, n.log, n.commit);
    MsgsGrow(cfg, h, h', n.msgs);
    SendOk(cfg, h', n, AppResp(n.id, m.from, n.term, n.commit, false, 0));
  }

  lemma StaleKeeps(cfg: Config, h: History, h': History, n: Node)
    requires HistOk(cfg, h) && NodeOk(cfg, h, n) && n.term in h.logs && SharesPrefix(n.log, h.logs[n.term], n.commit)
    requires Grows(h, h') && h'.logs == h.logs
    requires Acked(h', n.term, n.id) == Max(Acked(h, n.term, n.id), n.commit)
    requires forall t: nat :: t != n.term ==> Acked(h', t, n.id) == Acked(h, t, n.id)
    ensures NodeLog(cfg, h', n.id, n.term, n.log, n.commit)
  {
    AppendKeeps(cfg, h, h', n.id, n.term, n.log, n.log, n.commit);
    CommitOkGrows(cfg, h, h', n.log, n.log, n.commit, n.term, n.term);
  }

  // ---------------------------------------------------------------- heartbeats

  ghost predicate HeartbeatFits(cfg: Config, h: History, n: Node, m: Message) {
    && m.Heartbeat? && m.term == n.term && m.from in cfg.voters && m.from != n.id && n.term > 0
    && n.term in h.logs
    && m.commit <= Acked(h, n.term, n.id)
    && CommitOk(cfg, h, h.logs[n.term], m.commit, n.term)
  }

  lemma HandleHeartbeatOk(cfg: Config, h: History, n: Node, m: Message)
    requires Work(cfg, h, n) && n.role == Follower && HeartbeatFits(cfg, h, n, m)
    ensures Work(cfg, h, HandleHeartbeat(n, m))
  {
    CommitFits(cfg, h, n.log, n.commit, n.term);
    AckedPrefix(cfg, h, n.id, n.term, n.log, m.commit);
    var n' := n;
    if n.commit < m.commit {
      CommitOkGrows(cfg, h, h, h.logs[n.term], n.log, m.commit, n.term, n.term);
      n' := n.(commit := m.commit);
      NewLogNode(cfg, h, h, n, n.log, m.commit);
    }
    SendOk(cfg, h, n', HeartbeatResp(n.id, m.from, n.term));
    assert HandleHeartbeat(n, m) == n'.Send(HeartbeatResp(n.id, m.from, n.term));
  }
}

/** The safety properties of Raft (Figure 3 of the extended Raft paper), for every run with
    loss, repetition, reordering and restarts. */
module Safety {
  import opened Types
  import opened LogModel
  import opened ProgressModel
  import opened Quorum
  import opened RaftCore
  import opened Cluster
  import opened Invariant
  import opened Growth
  import opened HistorySteps
  import opened NodeSteps
  import opened LeaderSteps
  import opened FollowerSteps
  import opened StepProof

  // ---------------------------------------------------------------- the invariant holds in every run

  function InitHistory(cfg: Config): History {
    History(map[cfg.BootTerm() := cfg.boot], map[], map[], map[], map[], map[],
            map v | v in cfg.voters :: (cfg.BootTerm(), v) := |cfg.boot|,
            map v | v in cfg.voters :: cfg.BootTerm())
  }

  lemma BootLogs(cfg: Config)
    requires cfg.Valid()
    ensures LogsOk(cfg, InitHistory(cfg).logs) && LogOk(InitHistory(cfg).logs, cfg.boot)
  {
    var logs := InitHistory(cfg).logs;
    forall i | 0 <= i < |cfg.boot| ensures PointOk(logs, cfg.boot, i) {}
    assert LeaderLogOk(cfg, logs, cfg.BootTerm());
  }

  lemma BootAcked(cfg: Config)
    ensures forall v :: v in cfg.voters ==> Acked(InitHistory(cfg), cfg.BootTerm(), v) == |cfg.boot|
    ensures forall t: nat, v :: (t, v) in InitHistory(cfg).acked ==> t == cfg.BootTerm() && v in cfg.voters
    ensures AcksOk(cfg, InitHistory(cfg))
  {
    var h := InitHistory(cfg);
    assert forall v :: v in cfg.voters ==> (cfg.BootTerm(), v) in h.acked;
  }

  lemma InitNodeOk(cfg: Config, v: Id)
    requires cfg.Valid() && v in cfg.voters
    ensures NodeOk(cfg, InitHistory(cfg), InitNode(cfg, v))
  {
    var h := InitHistory(cfg);
    BootLogs(cfg);
    BootAcked(cfg);
    var n := InitNode(cfg, v);
    assert NodeBase(cfg, h, n);
    BootCommit(cfg);
    assert Keeps(cfg, h, v, n.term, n.log);
  }

  lemma BootCommit(cfg: Config)
    requires cfg.Valid()
    ensures CommitOk(cfg, InitHistory(cfg), cfg.boot, |cfg.boot|, cfg.BootTerm())
  {
    var h := InitHistory(cfg);
    BootLogs(cfg);
    BootAcked(cfg);
    assert Ackers(cfg, h, cfg.BootTerm(), |cfg.boot|) == cfg.voters;
    assert Committed(cfg, h, cfg.BootTerm(), |cfg.boot|);
  }

  lemma InitOk(cfg: Config, s: State)
    requires cfg.Valid() && Init(cfg, s)
    ensures Inv(cfg, s, InitHistory(cfg))
  {
    var h := InitHistory(cfg);
    InitHistOk(cfg);
    forall v | v in s.nodes ensures NodeFits(cfg, s, h, v) {
      assert StartsAt(cfg, s, v);
      InitNodeOk(cfg, v);
    }
  }

  lemma InitHistOk(cfg: Config)
    requires cfg.Valid()
    ensures HistOk(cfg, InitHistory(cfg))
  {
    var h := InitHistory(cfg);
    BootLogs(cfg);
    BootAcked(cfg);
    forall t: nat, u: nat, i: nat ensures LeaderHas(cfg, h, t, u, i) {}
    forall u: nat, v: Id, t: nat, i: nat ensures VoterKept(cfg, h, u, v, t, i) {}
  }

  lemma PutNode(cfg: Config, s: State, h: History, h': History, n: Node, v: Id)
    requires Inv(cfg, s, h) && n.id in s.nodes && Ext(h, h', n.id) && NodeOk(cfg, h', n)
    requires v in s.nodes
    ensures NodeFits(cfg, Put(s, n), h', v)
  {
    if v == n.id {
      OutboxNode(cfg, h', n, {});
    } else {
      assert NodeFits(cfg, s, h, v);
      NodeGrows(cfg, h, h', s.nodes[v]);
    }
  }

  lemma PutMsg(cfg: Config, s: State, h: History, h': History, n: Node, m: Message)
    requires Inv(cfg, s, h) && Grows(h, h') && MsgsOk(cfg, h', n.msgs)
    requires m in Put(s, n).net
    ensures MsgOk(cfg, h', m)
  {
    if m in s.net {
      assert MsgOk(cfg, h, m);
      MsgGrows(cfg, h, h', m);
    }
  }

  lemma PutNodes(cfg: Config, s: State, h: History, h': History, n: Node)
    requires Inv(cfg, s, h) && n.id in s.nodes && Ext(h, h', n.id) && NodeOk(cfg, h', n)
    ensures forall v {:trigger NodeFits(cfg, Put(s, n), h', v)} :: v in Put(s, n).nodes ==> NodeFits(cfg, Put(s, n), h', v)
  {
    forall v | v in Put(s, n).nodes { PutNode(cfg, s, h, h', n, v); }
  }

  lemma PutMsgs(cfg: Config, s: State, h: History, h': History, n: Node)
    requires Inv(cfg, s, h) && Grows(h, h') && MsgsOk(cfg, h', n.msgs)
    ensures forall m {:trigger MsgOk(cfg, h', m)} :: m in Put(s, n).net ==> MsgOk(cfg, h', m)
  {
    forall m | m in Put(s, n).net { PutMsg(cfg, s, h, h', n, m); }
  }

  /** The node that worked is put back among the others. */
  lemma PutOk(cfg: Config, s: State, h: History, h': History, n: Node)
    requires Inv(cfg, s, h) && n.id in s.nodes && Ext(h, h', n.id) && Work(cfg, h', n)
    ensures Inv(cfg, Put(s, n), h')
  {
    assert Put(s, n).nodes.Keys == s.nodes.Keys;
    PutNodes(cfg, s, h, h', n);
    PutMsgs(cfg, s, h, h', n);
  }

  lemma WorkOf(cfg: Config, s: State, h: History, v: Id)
    requires Inv(cfg, s, h) && v in s.nodes
    ensures Work(cfg, h, s.nodes[v]) && s.nodes[v].id == v
  {
    assert NodeFits(cfg, s, h, v);
  }

  lemma DeliverOk(cfg: Config, s: State, h: History, m: Message, inLease: bool) returns (h': History)
    requires Inv(cfg, s, h) && Enabled(s, Deliver(m, inLease)) && (cfg.preVote ==> !StalePreVote(s, Deliver(m, inLease)))
    ensures Inv(cfg, Apply(cfg, s, Deliver(m, inLease)), h') && Grows(h, h')
  {
    WorkOf(cfg, s, h, m.to);
    assert MsgOk(cfg, h, m);
    h' := StepOk(cfg, h, s.nodes[m.to], m, inLease);
    PutOk(cfg, s, h, h', Step(cfg, s.nodes[m.to], m, inLease));
  }

  lemma LocalEventOk(cfg: Config, s: State, h: History, id: Id, e: Event) returns (h': History)
    requires Inv(cfg, s, h) && Enabled(s, LocalEvent(id, e))
    ensures Inv(cfg, Apply(cfg, s, LocalEvent(id, e)), h') && Grows(h, h')
  {
    WorkOf(cfg, s, h, id);
    h' := LocalOk(cfg, h, s.nodes[id], e);
    PutOk(cfg, s, h, h', Local(cfg, s.nodes[id], e));
  }

  lemma CrashOk(cfg: Config, s: State, h: History, id: Id, commit: nat)
    requires Inv(cfg, s, h) && Enabled(s, Crash(id, commit))
    ensures Inv(cfg, Apply(cfg, s, Crash(id, commit)), h)
  {
    WorkOf(cfg, s, h, id);
    RestartOk(cfg, h, s.nodes[id], commit);
    PutOk(cfg, s, h, h, Restart(cfg, s.nodes[id], commit));
  }

  lemma ActionOk(cfg: Config, s: State, h: History, a: Action) returns (h': History)
    requires Inv(cfg, s, h) && Enabled(s, a) && (cfg.preVote ==> !StalePreVote(s, a))
    ensures Inv(cfg, Apply(cfg, s, a), h') && Grows(h, h')
  {
    match a
    case Deliver(m, inLease) => h' := DeliverOk(cfg, s, h, m, inLease);
    case LocalEvent(id, e) => h' := LocalEventOk(cfg, s, h, id, e);
    case Crash(id, commit) =>
      h' := h;
      CrashOk(cfg, s, h, id, commit);
  }

  /** The runs the theorems are about: all of them when pre-vote is off, and otherwise those in
      which no granted pre-vote is delivered to a candidate. */
  ghost predicate SoundRun(cfg: Config, r: Run) {
    cfg.Valid() && IsRun(cfg, r) && (cfg.preVote ==> NoStalePreVotes(r))
  }

  ghost predicate Explained(cfg: Config, r: Run, hs: seq<History>, i: nat)
    requires i < |hs| <= |r.states|
  {
    Inv(cfg, r.states[i], hs[i])
  }

  /** A growing history for the first states of a run. */
  ghost predicate Explains(cfg: Config, r: Run, hs: seq<History>) {
    && |hs| <= |r.states|
    && (forall i {:trigger Explained(cfg, r, hs, i)} :: 0 <= i < |hs| ==> Explained(cfg, r, hs, i))
    && forall i, j {:trigger Grows(hs[i], hs[j])} :: 0 <= i <= j < |hs| ==> Grows(hs[i], hs[j])
  }

  lemma {:induction false} Histories(cfg: Config, r: Run, n: nat) returns (hs: seq<History>)
    requires SoundRun(cfg, r) && n < |r.states|
    ensures |hs| == n + 1 && Explains(cfg, r, hs)
  {
    if n == 0 {
      hs := FirstHistory(cfg, r);
    } else {
      var before := Histories(cfg, r, n - 1);
      hs := LongerHistory(cfg, r, before, n);
    }
  }

  lemma FirstHistory(cfg: Config, r: Run) returns (hs: seq<History>)
    requires SoundRun(cfg, r)
    ensures |hs| == 1 && Explains(cfg, r, hs)
  {
    InitOk(cfg, r.states[0]);
    hs := [InitHistory(cfg)];
    GrowsReflexive(hs[0]);
    assert Explained(cfg, r, hs, 0);
  }

  lemma LongerHistory(cfg: Config, r: Run, before: seq<History>, n: nat) returns (hs: seq<History>)
    requires SoundRun(cfg, r) && 0 < n == |before| < |r.states| && Explains(cfg, r, before)
    ensures |hs| == n + 1 && Explains(cfg, r, hs)
  {
    assert Explained(cfg, r, before, n - 1);
    var h := NextHistory(cfg, r, n, before[n - 1]);
    hs := before + [h];
    MoreHistory(cfg, r, before, n, h);
  }

  lemma NextHistory(cfg: Config, r: Run, i: nat, h: History) returns (h': History)
    requires SoundRun(cfg, r) && 0 < i < |r.states| && Inv(cfg, r.states[i - 1], h)
    ensures Inv(cfg, r.states[i], h') && Grows(h, h')
  {
    assert IsStep(cfg, r, i - 1);
    h' := ActionOk(cfg, r.states[i - 1], h, r.actions[i - 1]);
  }

  lemma MoreHistory(cfg: Config, r: Run, hs: seq<History>, n: nat, h: History)
    requires 0 < n == |hs| < |r.states| && Explains(cfg, r, hs)
    requires Inv(cfg, r.states[n], h) && Grows(hs[n - 1], h)
    ensures Explains(cfg, r, hs + [h])
  {
    var hs' := hs + [h];
    forall i | 0 <= i < |hs'| ensures Explained(cfg, r, hs', i) {
      if i < |hs| { assert Explained(cfg, r, hs, i); }
    }
    forall i, j | 0 <= i <= j < |hs'| ensures Grows(hs'[i], hs'[j]) {
      LaterGrows(hs, h, i, j);
    }
  }

  lemma LaterGrows(hs: seq<History>, h: History, i: nat, j: nat)
    requires hs != [] && i <= j <= |hs| && Grows(hs[|hs| - 1], h)
    requires forall i, j {:trigger Grows(hs[i], hs[j])} :: 0 <= i <= j < |hs| ==> Grows(hs[i], hs[j])
    ensures Grows((hs + [h])[i], (hs + [h])[j])
  {
    if j < |hs| {
      assert Grows(hs[i], hs[j]);
    } else if i == j {
      GrowsReflexive(h);
    } else {
      assert Grows(hs[i], hs[|hs| - 1]);
      GrowsTransitive(hs[i], hs[|hs| - 1], h);
    }
  }

  lemma TwoHistories(cfg: Config, r: Run, i: nat, j: nat) returns (h: History, h': History)
    requires SoundRun(cfg, r) && i <= j < |r.states|
    ensures Inv(cfg, r.states[i], h) && Inv(cfg, r.states[j], h') && Grows(h, h')
  {
    var hs := Histories(cfg, r, j);
    h, h' := hs[i], hs[j];
    assert Explained(cfg, r, hs, i) && Explained(cfg, r, hs, j);
    assert Grows(hs[i], hs[j]);
  }

  // ---------------------------------------------------------------- Figure 3

  predicate Leads(s: State, a: Id, t: nat) {
    a in s.nodes && s.nodes[a].role == Leader && s.nodes[a].term == t
  }

  lemma LeaderRecorded(cfg: Config, s: State, h: History, a: Id, t: nat)
    requires Inv(cfg, s, h) && Leads(s, a, t)
    ensures t in h.leader && h.leader[t] == a && t in h.logs && h.logs[t] == s.nodes[a].log && t > cfg.BootTerm()
  {
    assert NodeFits(cfg, s, h, a);
  }

  /** Election Safety: at most one node is ever leader in a term, at whatever times. */
  lemma ElectionSafety(cfg: Config, r: Run, i: nat, j: nat, a: Id, b: Id, t: nat)
    requires SoundRun(cfg, r) && i <= j < |r.states|
    requires Leads(r.states[i], a, t) && Leads(r.states[j], b, t)
    ensures a == b
  {
    var h, h' := TwoHistories(cfg, r, i, j);
    LeaderRecorded(cfg, r.states[i], h, a, t);
    LeaderRecorded(cfg, r.states[j], h', b, t);
  }

  /** Leader Append-Only: a leader's log only grows, by appending, throughout its term. */
  lemma LeaderAppendOnly(cfg: Config, r: Run, i: nat, j: nat, a: Id, t: nat)
    requires SoundRun(cfg, r) && i <= j < |r.states|
    requires Leads(r.states[i], a, t) && Leads(r.states[j], a, t)
    ensures r.states[i].nodes[a].log <= r.states[j].nodes[a].log
  {
    var h, h' := TwoHistories(cfg, r, i, j);
    LeaderRecorded(cfg, r.states[i], h, a, t);
    LeaderRecorded(cfg, r.states[j], h', a, t);
  }

  lemma LogOf(cfg: Config, s: State, h: History, a: Id)
    requires Inv(cfg, s, h) && a in s.nodes
    ensures LogOk(h.logs, s.nodes[a].log)
  {
    assert NodeFits(cfg, s, h, a);
  }

  /** Log Matching: any two logs, of any nodes at any two times, that have an entry of the same
      term at some index are equal up to that index. */
  lemma LogMatching(cfg: Config, r: Run, i: nat, j: nat, a: Id, b: Id)
    requires SoundRun(cfg, r) && i <= j < |r.states| && a in r.states[i].nodes && b in r.states[j].nodes
    ensures Matching(r.states[i].nodes[a].log, r.states[j].nodes[b].log)
    ensures Consecutive(r.states[i].nodes[a].log, 1)
  {
    var h, h' := TwoHistories(cfg, r, i, j);
    LogOf(cfg, r.states[i], h, a);
    LogOf(cfg, r.states[j], h', b);
    LogOkGrows(h, h', r.states[i].nodes[a].log);
    LogsMatch(h'.logs, r.states[i].nodes[a].log, r.states[j].nodes[b].log);
  }

  /** A commit index of an earlier state is still covered in a later one. */
  lemma CommitStays(cfg: Config, s: State, h: History, h': History, a: Id)
    requires Inv(cfg, s, h) && Grows(h, h') && a in s.nodes
    ensures s.nodes[a].commit <= |s.nodes[a].log|
    ensures CommitOk(cfg, h', s.nodes[a].log, s.nodes[a].commit, s.nodes[a].term)
  {
    var n := s.nodes[a];
    assert NodeFits(cfg, s, h, a);
    CommitFits(cfg, h, n.log, n.commit, n.term);
    CommitOkGrows(cfg, h, h', n.log, n.log, n.commit, n.term, n.term);
  }

  /** Leader Completeness: whatever a node knew to be committed is in the log of every leader
      of a later term. */
  lemma LeaderCompleteness(cfg: Config, r: Run, i: nat, j: nat, a: Id, b: Id, t: nat)
    requires SoundRun(cfg, r) && i <= j < |r.states| && a in r.states[i].nodes
    requires Leads(r.states[j], b, t) && t >= r.states[i].nodes[a].term
    ensures var n := r.states[i].nodes[a];
            var log := r.states[j].nodes[b].log;
            n.commit <= |n.log| && n.commit <= |log| && log[..n.commit] == n.log[..n.commit]
  {
    var h, h' := TwoHistories(cfg, r, i, j);
    var n := r.states[i].nodes[a];
    CommitStays(cfg, r.states[i], h, h', a);
    LeaderRecorded(cfg, r.states[j], h', b, t);
    CommitOkGrows(cfg, h', h', n.log, n.log, n.commit, n.term, t);
    CommittedInLeader(cfg, h', n.log, n.commit, t);
  }

  /** Two committed prefixes agree as far as both go. */
  lemma CommittedAgree(cfg: Config, h: History, a: seq<Entry>, ca: nat, ta: nat, b: seq<Entry>, cb: nat, tb: nat, k: nat)
    requires HistOk(cfg, h) && CommitOk(cfg, h, a, ca, ta) && CommitOk(cfg, h, b, cb, tb)
    requires k <= ca && k <= cb && ca <= |a| && cb <= |b|
    ensures a[..k] == b[..k]
  {
    var t1: nat, k1: nat :| Committed(cfg, h, t1, k1) && t1 <= ta && ca <= k1 && SharesPrefix(a, h.logs[t1], ca);
    var t2: nat, k2: nat :| Committed(cfg, h, t2, k2) && t2 <= tb && cb <= k2 && SharesPrefix(b, h.logs[t2], cb);
    assert a[..k] == a[..ca][..k] == h.logs[t1][..ca][..k] == h.logs[t1][..k];
    assert b[..k] == b[..cb][..k] == h.logs[t2][..cb][..k] == h.logs[t2][..k];
    if t1 < t2 {
      LaterLeaderHas(cfg, h, t1, k1, t2, k);
    } else if t2 < t1 {
      LaterLeaderHas(cfg, h, t2, k2, t1, k);
    }
  }

  lemma LaterLeaderHas(cfg: Config, h: History, t: nat, k: nat, u: nat, i: nat)
    requires HistOk(cfg, h) && Committed(cfg, h, t, k) && t < u && u in h.logs && i <= k
    ensures i <= |h.logs[u]| && h.logs[t][..i] == h.logs[u][..i]
  {
    CommittedIsChoosable(cfg, h, t, k);
    assert LeaderHas(cfg, h, t, u, k);
    assert h.logs[u][..i] == h.logs[u][..k][..i] == h.logs[t][..k][..i] == h.logs[t][..i];
  }

  /** State Machine Safety: any two nodes, at any two times, hold the same entries at every index
      at or below both their commit indexes. */
  lemma StateMachineSafety(cfg: Config, r: Run, i: nat, j: nat, a: Id, b: Id, k: nat)
    requires SoundRun(cfg, r) && i <= j < |r.states| && a in r.states[i].nodes && b in r.states[j].nodes
    requires k <= r.states[i].nodes[a].commit && k <= r.states[j].nodes[b].commit
    ensures k <= |r.states[i].nodes[a].log| && k <= |r.states[j].nodes[b].log|
    ensures r.states[i].nodes[a].log[..k] == r.states[j].nodes[b].log[..k]
  {
    var h, h' := TwoHistories(cfg, r, i, j);
    var n, n' := r.states[i].nodes[a], r.states[j].nodes[b];
    CommitStays(cfg, r.states[i], h, h', a);
    CommitStays(cfg, r.states[j], h', h', b);
    CommittedAgree(cfg, h', n.log, n.commit, n.term, n'.log, n'.commit, n'.term, k);
  }

  // ---------------------------------------------------------------- beyond Figure 3

  /** Durability: whatever a node ever knew to be committed is, from then on and at all times, in
      the logs of a majority of the voters. */
  lemma CommittedOnMajority(cfg: Config, r: Run, i: nat, j: nat, a: Id) returns (q: set<Id>)
    requires SoundRun(cfg, r) && i <= j < |r.states| && a in r.states[i].nodes
    ensures IsQuorum(cfg.voters, q) && q <= r.states[j].nodes.Keys
    ensures var n := r.states[i].nodes[a];
            forall v :: v in q ==> SharesPrefix(r.states[j].nodes[v].log, n.log, n.commit)
  {
    var h, h' := TwoHistories(cfg, r, i, j);
    var n := r.states[i].nodes[a];
    CommitStays(cfg, r.states[i], h, h', a);
    var t: nat, k: nat :| Committed(cfg, h', t, k) && t <= n.term && n.commit <= k && SharesPrefix(n.log, h'.logs[t], n.commit);
    q := Ackers(cfg, h', t, k);
    forall v | v in q { AckerShares(cfg, r.states[j], h', v, t, k, n.log, n.commit); }
  }

  lemma AckerShares(cfg: Config, s: State, h: History, v: Id, t: nat, k: nat, log: seq<Entry>, commit: nat)
    requires Inv(cfg, s, h) && Committed(cfg, h, t, k) && v in Ackers(cfg, h, t, k)
    requires commit <= k && SharesPrefix(log, h.logs[t], commit)
    ensures v in s.nodes && SharesPrefix(s.nodes[v].log, log, commit)
  {
    AckerHolds(cfg, s, h, v, t, k);
    var own := s.nodes[v].log;
    assert own[..commit] == own[..k][..commit] == h.logs[t][..k][..commit] == h.logs[t][..commit];
  }

  lemma AckerHolds(cfg: Config, s: State, h: History, v: Id, t: nat, k: nat)
    requires Inv(cfg, s, h) && Committed(cfg, h, t, k) && v in Ackers(cfg, h, t, k)
    ensures v in s.nodes && SharesPrefix(s.nodes[v].log, h.logs[t], k)
  {
    assert NodeFits(cfg, s, h, v);
    AckerKeeps(cfg, h, s.nodes[v], t, k);
  }

  lemma AckerKeeps(cfg: Config, h: History, n: Node, t: nat, k: nat)
    requires HistOk(cfg, h) && NodeOk(cfg, h, n) && Committed(cfg, h, t, k) && Acked(h, t, n.id) >= k
    ensures SharesPrefix(n.log, h.logs[t], k)
  {
    if k > 0 {
      assert (t, n.id) in h.acked;
      if t == n.term {
        AckedPrefix(cfg, h, n.id, n.term, n.log, k);
      } else {
        CommittedIsChoosable(cfg, h, t, k);
        assert KeepsPoint(cfg, h, n.id, n.term, n.log, t, k);
      }
    }
  }

  /** Match soundness: a follower that is still in the leader's term agrees with the leader's log
      up to the match index the leader has recorded for it. */
  lemma MatchSoundness(cfg: Config, r: Run, i: nat, a: Id, v: Id, t: nat)
    requires SoundRun(cfg, r) && i < |r.states| && Leads(r.states[i], a, t)
    requires v in r.states[i].nodes && r.states[i].nodes[v].term == t
    ensures v in r.states[i].nodes[a].prs
    ensures SharesPrefix(r.states[i].nodes[v].log, r.states[i].nodes[a].log, r.states[i].nodes[a].prs[v].matched)
  {
    var h, _ := TwoHistories(cfg, r, i, i);
    var n, f := r.states[i].nodes[a], r.states[i].nodes[v];
    LeaderRecorded(cfg, r.states[i], h, a, t);
    assert NodeFits(cfg, r.states[i], h, a) && NodeFits(cfg, r.states[i], h, v);
    assert n.prs[v].matched <= Acked(h, t, v);
    AckedPrefix(cfg, h, v, t, f.log, n.prs[v].matched);
  }

  /** No panic: no run reaches a LOG_FATAL branch, and every message in flight carries entries
      with consecutive indexes. */
  lemma NoPanic(cfg: Config, r: Run, i: nat)
    requires SoundRun(cfg, r) && i < |r.states|
    ensures forall v :: v in r.states[i].nodes ==> !r.states[i].nodes[v].fatal
    ensures forall m :: m in r.states[i].net && m.App? ==> Consecutive(m.entries, m.index + 1)
  {
    var h, _ := TwoHistories(cfg, r, i, i);
    forall v | v in r.states[i].nodes ensures !r.states[i].nodes[v].fatal {
      assert NodeFits(cfg, r.states[i], h, v);
    }
    forall m | m in r.states[i].net && m.App? ensures Consecutive(m.entries, m.index + 1) {
      EntriesInOrder(cfg, h, m);
    }
  }

  /** A node votes for at most one candidate in a term, restarts included. */
  lemma VotesOnce(cfg: Config, r: Run, i: nat, j: nat, v: Id)
    requires SoundRun(cfg, r) && i <= j < |r.states| && v in r.states[i].nodes && v in r.states[j].nodes
    requires r.states[i].nodes[v].term == r.states[j].nodes[v].term && r.states[i].nodes[v].vote != 0
    ensures r.states[j].nodes[v].vote == r.states[i].nodes[v].vote
  {
    var h, h' := TwoHistories(cfg, r, i, j);
    assert NodeFits(cfg, r.states[i], h, v) && NodeFits(cfg, r.states[j], h', v);
  }

  /** At a leader the window of every follower is strictly increasing, lies between `match` and
      `next`, holds at most its size, and `next` stays within the log. */
  lemma WindowsOk(cfg: Config, r: Run, i: nat, a: Id, t: nat)
    requires SoundRun(cfg, r) && i < |r.states| && Leads(r.states[i], a, t)
    ensures var n := r.states[i].nodes[a];
            forall v :: v in n.prs ==> PrOk(n.prs[v], |n.log|, cfg.maxInflight)
  {
    var h, _ := TwoHistories(cfg, r, i, i);
    assert NodeFits(cfg, r.states[i], h, a);
  }
}

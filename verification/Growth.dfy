/** The history only grows, and what was known of nodes and messages stays known. */
module Growth {
  import opened Types
  import opened LogModel
  import opened ProgressModel
  import opened Quorum
  import opened RaftCore
  import opened Cluster
  import opened Invariant

  ghost predicate LogsGrow(logs: map<nat, seq<Entry>>, logs': map<nat, seq<Entry>>) {
    forall t :: t in logs ==> t in logs' && logs[t] <= logs'[t]
  }

  ghost predicate RecordsGrow(h: History, h': History) {
    && (forall t :: t in h.leader ==> t in h'.leader && h'.leader[t] == h.leader[t])
    && (forall k :: k in h.votes ==> k in h'.votes && h'.votes[k] == h.votes[k])
    && (forall k :: k in h.campaign ==> k in h'.campaign && h'.campaign[k] == h.campaign[k])
  }

  /** A node acknowledges only in its current term or a later one. */
  ghost predicate AcksGrow(h: History, h': History) {
    && (forall v :: TermOf(h, v) <= TermOf(h', v))
    && (forall t: nat, v :: Acked(h, t, v) <= Acked(h', t, v))
    && (forall t: nat, v :: Acked(h, t, v) < Acked(h', t, v) ==> TermOf(h, v) <= t)
  }

  ghost predicate Grows(h: History, h': History) {
    LogsGrow(h.logs, h'.logs) && RecordsGrow(h, h') && AcksGrow(h, h')
  }

  lemma GrowsReflexive(h: History)
    ensures Grows(h, h)
  {
  }

  lemma GrowsTransitive(a: History, b: History, c: History)
    requires Grows(a, b) && Grows(b, c)
    ensures LogsGrow(a.logs, c.logs) && RecordsGrow(a, c)
    ensures forall t: nat, v :: Acked(a, t, v) <= Acked(c, t, v)
    ensures forall v :: TermOf(a, v) <= TermOf(c, v)
    ensures Grows(a, c)
  {
    forall t: nat, v | Acked(a, t, v) < Acked(c, t, v) ensures TermOf(a, v) <= t {
      if Acked(a, t, v) == Acked(b, t, v) {
        assert TermOf(b, v) <= t;
      }
    }
  }

  lemma LogOkGrows(h: History, h': History, log: seq<Entry>)
    requires LogsGrow(h.logs, h'.logs) && LogOk(h.logs, log)
    ensures LogOk(h'.logs, log)
  {
    forall i | 0 <= i < |log| ensures PointOk(h'.logs, log, i) {
      assert PointOk(h.logs, log, i);
      SharesGrows(h, h', log[i].term, log, i + 1);
    }
  }

  lemma SharesGrows(h: History, h': History, t: nat, log: seq<Entry>, i: nat)
    requires LogsGrow(h.logs, h'.logs) && t in h.logs
    requires SharesPrefix(h.logs[t], log, i)
    ensures t in h'.logs && SharesPrefix(h'.logs[t], log, i) && SharesPrefix(log, h'.logs[t], i)
  {
    assert h'.logs[t][..i] == h.logs[t][..i];
  }

  lemma ChoosableBefore(cfg: Config, h: History, h': History, t: nat, i: nat)
    requires Grows(h, h') && Choosable(cfg, h', t, i)
    requires t in h.logs && i <= |h.logs[t]|
    ensures Choosable(cfg, h, t, i)
  {
    assert Willing(cfg, h', t, i) <= Willing(cfg, h, t, i);
    SubsetSize(Willing(cfg, h', t, i), Willing(cfg, h, t, i));
  }

  lemma CommittedGrows(cfg: Config, h: History, h': History, t: nat, i: nat)
    requires Grows(h, h') && Committed(cfg, h, t, i)
    ensures Committed(cfg, h', t, i)
  {
    assert Ackers(cfg, h, t, i) <= Ackers(cfg, h', t, i);
    SubsetSize(Ackers(cfg, h, t, i), Ackers(cfg, h', t, i));
  }

  lemma CommittedIsChoosable(cfg: Config, h: History, t: nat, i: nat)
    requires Committed(cfg, h, t, i)
    ensures Choosable(cfg, h, t, i)
  {
    assert Ackers(cfg, h, t, i) <= Willing(cfg, h, t, i);
    SubsetSize(Ackers(cfg, h, t, i), Willing(cfg, h, t, i));
  }

  lemma CommitOkGrows(cfg: Config, h: History, h': History, log: seq<Entry>, log': seq<Entry>, commit: nat, term: nat, term': nat)
    requires Grows(h, h') && CommitOk(cfg, h, log, commit, term) && term <= term'
    requires SharesPrefix(log', log, commit)
    ensures CommitOk(cfg, h', log', commit, term')
  {
    var t: nat, k: nat :| Committed(cfg, h, t, k) && t <= term && commit <= k && SharesPrefix(log, h.logs[t], commit);
    CommittedGrows(cfg, h, h', t, k);
    assert SharesPrefix(log', h'.logs[t], commit) by { SharesGrows(h, h', t, log', commit); }
  }

  lemma MsgGrows(cfg: Config, h: History, h': History, m: Message)
    requires Grows(h, h') && MsgOk(cfg, h, m)
    ensures MsgOk(cfg, h', m)
  {
    if m.App? || m.Heartbeat? {
      assert h.logs[m.term] <= h'.logs[m.term];
      assert CommitOk(cfg, h', h'.logs[m.term], m.commit, m.term) by {
        CommitFits(cfg, h, h.logs[m.term], m.commit, m.term);
        CommitOkGrows(cfg, h, h', h.logs[m.term], h'.logs[m.term], m.commit, m.term, m.term);
      }
    }
  }

  lemma CommitFits(cfg: Config, h: History, log: seq<Entry>, commit: nat, term: nat)
    requires CommitOk(cfg, h, log, commit, term)
    ensures commit <= |log|
  {
  }

  /** Nothing about node `id` itself has been recorded. */
  ghost predicate SameView(h: History, h': History, id: Id) {
    && TermOf(h, id) == TermOf(h', id) && (id in h.term <==> id in h'.term)
    && (forall t: nat :: Acked(h', t, id) == Acked(h, t, id))
    && (forall t: nat :: (t, id) in h'.votes ==> (t, id) in h.votes)
    && (forall t :: t in h'.leader && h'.leader[t] == id ==>
          t in h.leader && (t in h'.logs ==> t in h.logs && h'.logs[t] == h.logs[t]))
  }

  /** What is known of a node survives what other nodes do. */
  lemma NodeGrows(cfg: Config, h: History, h': History, n: Node)
    requires Grows(h, h') && SameView(h, h', n.id)
    requires NodeOk(cfg, h, n) && AcksOk(cfg, h) && 0 !in cfg.voters
    ensures NodeOk(cfg, h', n)
  {
    KeptLog(cfg, h, h', n.id, n.term, n.log, n.commit);
    NodeBaseGrows(cfg, h, h', n);
    NodeRoleGrows(cfg, h, h', n);
  }

  lemma NodeBaseGrows(cfg: Config, h: History, h': History, n: Node)
    requires Grows(h, h') && SameView(h, h', n.id) && NodeBase(cfg, h, n)
    ensures NodeBase(cfg, h', n)
  {
  }

  lemma NodeRoleGrows(cfg: Config, h: History, h': History, n: Node)
    requires Grows(h, h') && SameView(h, h', n.id) && 0 !in cfg.voters
    requires NodeBase(cfg, h, n) && NodeRole(cfg, h, n)
    ensures NodeRole(cfg, h', n)
  {
  }

  /** The log clause survives any growth that adds no acknowledgement of this node. */
  lemma KeptLog(cfg: Config, h: History, h': History, id: Id, term: nat, log: seq<Entry>, commit: nat)
    requires Grows(h, h') && NodeLog(cfg, h, id, term, log, commit) && AcksOk(cfg, h)
    requires forall t: nat :: Acked(h', t, id) == Acked(h, t, id)
    ensures NodeLog(cfg, h', id, term, log, commit)
  {
    LogOkGrows(h, h', log);
    CommitFits(cfg, h, log, commit, term);
    CommitOkGrows(cfg, h, h', log, log, commit, term, term);
    if term in h'.logs {
      KeptPrefix(cfg, h, h', id, term, log, term, Acked(h, term, id));
    }
    forall t: nat, i: nat ensures KeepsPoint(cfg, h', id, term, log, t, i) {
      if t < term && Choosable(cfg, h', t, i) && i <= Acked(h', t, id) {
        KeptPrefix(cfg, h, h', id, term, log, t, i);
      }
    }
  }

  lemma KeptPrefix(cfg: Config, h: History, h': History, id: Id, term: nat, log: seq<Entry>, t: nat, i: nat)
    requires Grows(h, h') && Keeps(cfg, h, id, term, log) && AcksOk(cfg, h)
    requires t <= term && t in h'.logs && i <= Acked(h, t, id) && (t == term || Choosable(cfg, h', t, i))
    ensures SharesPrefix(log, h'.logs[t], i)
  {
    if i > 0 {
      assert (t, id) in h.acked;
      if t < term {
        ChoosableBefore(cfg, h, h', t, i);
        assert KeepsPoint(cfg, h, id, term, log, t, i);
      } else {
        AckedPrefix(cfg, h, id, term, log, i);
      }
      SharesGrows(h, h', t, log, i);
    }
  }

  lemma AckedPrefix(cfg: Config, h: History, id: Id, term: nat, log: seq<Entry>, i: nat)
    requires Keeps(cfg, h, id, term, log) && term in h.logs && i <= Acked(h, term, id)
    ensures SharesPrefix(log, h.logs[term], i)
  {
    var a := Acked(h, term, id);
    assert log[..i] == log[..a][..i] == h.logs[term][..a][..i] == h.logs[term][..i];
  }
}

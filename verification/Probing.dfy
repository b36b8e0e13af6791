/** Leader and follower together: probing finds the point where the two logs meet. */
module Probing {
  import opened Types
  import opened LogModel
  import opened ProgressModel
  import opened RaftCore
  import opened FlowControl

  /** The append that the leader n sends to a follower it is probing. */
  function ProbeMsg(cfg: Config, n: Node, pr: Progress, f: Node): Message {
    AppendFor(cfg, n, pr, f.id, true).msg
  }

  /** A follower that the leader may probe next: flow control in order, and not paused. */
  ghost predicate Probes(cfg: Config, n: Node, pr: Progress) {
    PrOk(pr, n.Last(), cfg.maxInflight) && pr.state == Probe && !pr.paused && Consecutive(n.log, 1)
  }

  lemma ProbeIsSent(cfg: Config, n: Node, pr: Progress, f: Node)
    requires Probes(cfg, n, pr)
    ensures var a, m := AppendFor(cfg, n, pr, f.id, true), ProbeMsg(cfg, n, pr, f);
            && a.sent && m.App? && m.index + 1 == pr.next && Consecutive(m.entries, m.index + 1)
            && m.entries == n.log[m.index..m.index + |m.entries|] && m.index + |m.entries| <= |n.log|
            && m.logTerm == TermAt(n.log, m.index) && m.commit == n.commit
            && a.pr == pr.(paused := m.entries != [])
  {
    AppendMessage(cfg, n, pr, f.id, true);
    var m := ProbeMsg(cfg, n, pr, f);
    forall k | 0 <= k < |m.entries| ensures m.entries[k].index == m.index + 1 + k {
      assert m.entries[k] == n.log[m.index + k];
    }
  }

  /** The follower after the probe. */
  function After(cfg: Config, n: Node, pr: Progress, f: Node): Node
    requires Probes(cfg, n, pr)
  {
    ProbeIsSent(cfg, n, pr, f);
    HandleAppendEntries(f.(msgs := {}), ProbeMsg(cfg, n, pr, f))
  }

  /** The logs differ at the probed index, above the follower's commit index. */
  predicate Rejects(n: Node, next: nat, f: Node)
    requires next > 0
  {
    f.commit <= next - 1 && TermAt(f.log, next - 1) != TermAt(n.log, next - 1)
  }

  /** The follower gives exactly one answer.  A rejection says which index is rejected and where the
      follower's log ends. */
  lemma OneAnswer(cfg: Config, n: Node, pr: Progress, f: Node) returns (a: Message)
    requires Probes(cfg, n, pr)
    ensures After(cfg, n, pr, f).msgs == {a} && a.AppResp? && a.from == f.id && a.to == n.id && a.term == f.term
    ensures a.reject <==> Rejects(n, pr.next, f)
    ensures a.reject ==> a.index == pr.next - 1 && a.rejectHint == |f.log|
  {
    ProbeIsSent(cfg, n, pr, f);
    a := AnswerTo(f, ProbeMsg(cfg, n, pr, f));
  }

  lemma AnswerTo(f: Node, m: Message) returns (a: Message)
    requires m.App? && Consecutive(m.entries, m.index + 1)
    ensures HandleAppendEntries(f.(msgs := {}), m).msgs == {a} && a.AppResp? && a.from == f.id && a.to == m.from
    ensures a.term == f.term
    ensures a.reject <==> f.commit <= m.index && TermAt(f.log, m.index) != m.logTerm
    ensures a.reject ==> a.index == m.index && a.rejectHint == |f.log|
  {
    if m.index < f.commit {
      a := AppResp(f.id, m.from, f.term, f.commit, false, 0);
    } else {
      var r := MaybeAppend(f.LogOf(), f.commit, m.index, m.logTerm, m.commit, m.entries);
      a := if r.ok then AppResp(f.id, m.from, f.term, r.lastNew, false, 0) else AppResp(f.id, m.from, f.term, m.index, true, f.Last());
    }
  }

  /** What the leader makes of a rejection: the rejection counts, and the next probe is strictly
      lower, not beyond the follower's log, and can be sent at once. */
  lemma RejectionHelps(cfg: Config, n: Node, pr: Progress, f: Node)
    requires Probes(cfg, n, pr) && Rejects(n, pr.next, f)
    ensures var d := AppendFor(cfg, n, pr, f.id, true).pr.MaybeDecreaseTo(pr.next - 1, |f.log|);
            d.1 && Probes(cfg, n, d.0) && 1 <= d.0.next < pr.next && d.0.next <= |f.log| + 1 && d.0.matched == pr.matched
  {
    ProbeIsSent(cfg, n, pr, f);
    var _ := OneAnswer(cfg, n, pr, f);
    assert TermAt(f.log, 0) == TermAt(n.log, 0) == 0;
  }

  /** Probing, answer after answer, until the follower accepts: it ends, after fewer rejections
      than `next`. */
  ghost function ProbeUntilAccepted(cfg: Config, n: Node, pr: Progress, f: Node): (r: (Progress, nat))
    requires Probes(cfg, n, pr)
    ensures Probes(cfg, n, r.0) && !Rejects(n, r.0.next, f) && r.0.matched == pr.matched
    ensures r.0.next + r.1 <= pr.next
    decreases pr.next
  {
    if Rejects(n, pr.next, f) then
      RejectionHelps(cfg, n, pr, f);
      var rest := ProbeUntilAccepted(cfg, n, AppendFor(cfg, n, pr, f.id, true).pr.MaybeDecreaseTo(pr.next - 1, |f.log|).0, f);
      (rest.0, rest.1 + 1)
    else (pr, 0)
  }

  /** The logs agree up to the answered index, and nothing committed has changed. */
  ghost predicate Agreed(n: Node, f: Node, after: Node, index: nat) {
    && index <= |after.log| && index <= |n.log| && after.log[..index] == n.log[..index]
    && f.commit <= after.commit && f.commit <= |f.log| && f.commit <= |after.log|
    && after.log[..f.commit] == f.log[..f.commit]
    && after.fatal == f.fatal
  }

  /** The follower's log and the leader's satisfy log matching, and agree on what is committed. */
  ghost predicate Comparable(n: Node, f: Node) {
    && PositiveTerms(n.log) && Matching(f.log, n.log)
    && f.commit <= |f.log| && f.commit <= |n.log| && f.log[..f.commit] == n.log[..f.commit]
  }

  /** A segment of the leader's log, sent to a follower. */
  ghost predicate Segment(n: Node, m: Message) {
    && m.App? && Consecutive(m.entries, m.index + 1) && m.index + |m.entries| <= |n.log|
    && m.entries == n.log[m.index..m.index + |m.entries|] && m.logTerm == TermAt(n.log, m.index)
  }

  lemma AppendAgrees(n: Node, f: Node, m: Message)
    requires Segment(n, m) && Comparable(n, f) && m.index >= f.commit && TermAt(f.log, m.index) == m.logTerm
    ensures var after := HandleAppendEntries(f.(msgs := {}), m);
            && after.msgs == {AppResp(f.id, m.from, f.term, m.index + |m.entries|, false, 0)}
            && Agreed(n, f, after, m.index + |m.entries|)
  {
    MaybeAppendContract(f.log, f.commit, m.index, m.logTerm, m.commit, m.entries, n.log);
    MatchedPrefix(f.log, n.log, m.index);
  }

  lemma StaleAgrees(n: Node, f: Node, m: Message)
    requires Segment(n, m) && Comparable(n, f) && m.index < f.commit
    ensures var after := HandleAppendEntries(f.(msgs := {}), m);
            && after.msgs == {AppResp(f.id, m.from, f.term, f.commit, false, 0)}
            && Agreed(n, f, after, f.commit)
  {
  }

  lemma AcceptedAgrees(cfg: Config, n: Node, pr: Progress, f: Node) returns (a: Message)
    requires Probes(cfg, n, pr) && !Rejects(n, pr.next, f) && Comparable(n, f)
    ensures After(cfg, n, pr, f).msgs == {a} && a.AppResp? && !a.reject
    ensures Agreed(n, f, After(cfg, n, pr, f), a.index)
    ensures pr.next <= n.Last() && f.commit < pr.next ==> a.index >= pr.next
    ensures a.index >= Min(pr.next, n.Last())
  {
    ProbeIsSent(cfg, n, pr, f);
    var m := ProbeMsg(cfg, n, pr, f);
    ProbeCarries(cfg, n, pr, f);
    if m.index < f.commit {
      StaleAgrees(n, f, m);
      a := AppResp(f.id, m.from, f.term, f.commit, false, 0);
    } else {
      AppendAgrees(n, f, m);
      a := AppResp(f.id, m.from, f.term, m.index + |m.entries|, false, 0);
    }
  }

  lemma ProbeCarries(cfg: Config, n: Node, pr: Progress, f: Node)
    requires Probes(cfg, n, pr)
    ensures pr.next <= n.Last() ==> ProbeMsg(cfg, n, pr, f).entries != []
  {
  }

  lemma ReplicatesNext(p: Progress, index: nat)
    requires p.state == Probe && index > p.matched
    ensures var q := p.MaybeUpdate(index).0.AfterUpdate(index);
            q.state == Replicate && q.matched == index && q.next == index + 1
  {
  }

  /** Probing converges: the probe that is finally accepted brings the follower's log into agreement
      with the leader's up to the index it answers, with new entries if there are any, and the leader
      goes over to replication from there. */
  lemma ProbingConverges(cfg: Config, n: Node, pr: Progress, f: Node) returns (a: Message)
    requires Probes(cfg, n, pr) && Comparable(n, f)
    ensures var p := ProbeUntilAccepted(cfg, n, pr, f).0;
            && After(cfg, n, p, f).msgs == {a} && a.AppResp? && !a.reject
            && Agreed(n, f, After(cfg, n, p, f), a.index)
            && (p.next <= n.Last() && f.commit < p.next ==> a.index >= p.next)
            && (a.index > pr.matched ==>
                  var q := p.MaybeUpdate(a.index).0.AfterUpdate(a.index);
                  q.state == Replicate && q.matched == a.index && q.next == a.index + 1)
  {
    var p := ProbeUntilAccepted(cfg, n, pr, f).0;
    a := AcceptedAgrees(cfg, n, p, f);
    if a.index > pr.matched { ReplicatesNext(p, a.index); }
  }
}

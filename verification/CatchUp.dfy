/** A leader can bring any follower up to its log: heartbeat, answer, append, answer, and each round gets
    nearer, whatever state the two are in. */
module CatchUp {
  import opened Types
  import opened LogModel
  import opened ProgressModel
  import opened RaftCore
  import opened Cluster
  import opened Invariant
  import opened Safety
  import opened FlowControl
  import opened Probing
  import opened NodeDuties
  import opened Commitment
  import opened Continuations

  /** Node a leads term t, and nobody of q has gone beyond that term. */
  ghost predicate Led(s: State, a: Id, t: nat, q: set<Id>) {
    Leads(s, a, t) && a in q && forall v :: v in q ==> v in s.nodes && s.nodes[v].term <= t
  }

  // ---------------------------------------------------------------- heartbeat and answer

  /** What a node is after the leader's heartbeat. */
  ghost predicate Heard(f: Node, f': Node, a: Id, t: nat, commit: nat) {
    && f'.id == f.id && f'.role == Follower && f'.term == t && f'.lead == a && f'.log == f.log && f'.prs.Keys == f.prs.Keys
    && (!f'.fatal ==> f'.commit == Max(f.commit, commit))
  }

  /** Unless it leads that very term, a node that is not ahead follows a heartbeat, and answers. */
  lemma FollowsHeartbeat(cfg: Config, f: Node, m: Message)
    requires m.Heartbeat? && f.term <= m.term && m.term > 0 && (f.role == Leader ==> f.term < m.term)
    ensures var r := Step(cfg, f, m, false);
            Heard(f, r, m.from, m.term, m.commit) && r.msgs == f.msgs + {HeartbeatResp(f.id, m.from, m.term)}
  {
    var n := if f.term < m.term || f.role != Follower then BecomeFollower(cfg, f, m.term, m.from) else f.(lead := m.from);
    HeartbeatCommitRule(n, m);
    assert Step(cfg, f, m, false) == HandleHeartbeat(n.(lead := m.from), m);
  }

  lemma SendsHeartbeats(cfg: Config, r: Run, a: Id, t: nat, q: set<Id>, v: Id) returns (r': Run)
    requires SoundRun(cfg, r) && q <= cfg.voters && Led(Last(r), a, t, q) && v in q && v != a
    ensures Goes(cfg, r, r', q) && Last(r').nodes == Last(r).nodes && Last(r).net <= Last(r').net
    ensures v in Last(r).nodes[a].prs && HeartbeatFor(Last(r).nodes[a], v) in Last(r').net
  {
    NodeNow(cfg, r, a);
    var n := Last(r).nodes[a];
    r' := Happen(cfg, r, a, Beat, q);
    assert BcastHeartbeat(n).(msgs := {}) == n;
  }

  /** One heartbeat to v, and its answer on the way back. */
  lemma HearsLeader(cfg: Config, r: Run, a: Id, t: nat, q: set<Id>, v: Id) returns (r': Run)
    requires SoundRun(cfg, r) && q <= cfg.voters && Led(Last(r), a, t, q) && v in q && v != a
    ensures Goes(cfg, r, r', q) && Worked(Last(r), Last(r'), v) && Led(Last(r'), a, t, q)
    ensures v in Last(r).nodes[a].prs
    ensures var n, f, f' := Last(r).nodes[a], Last(r).nodes[v], Last(r').nodes[v];
            && Heard(f, f', a, t, Min(n.prs[v].matched, n.commit)) && !f'.fatal && f'.msgs == {}
            && HeartbeatResp(v, a, t) in Last(r').net
  {
    var r1 := SendsHeartbeats(cfg, r, a, t, q, v);
    NodeNow(cfg, r, a);
    NodeNow(cfg, r, v);
    var m := HeartbeatFor(Last(r).nodes[a], v);
    var h := Now(cfg, r);
    LeaderRecorded(cfg, Last(r), h, a, t);
    if Last(r).nodes[v].role == Leader && Last(r).nodes[v].term == t { LeaderRecorded(cfg, Last(r), h, v, t); }
    FollowsHeartbeat(cfg, Last(r).nodes[v], m);
    var r2 := Receive(cfg, r1, m, q);
    GoesOn(cfg, r, r1, r2, q);
    NodeNow(cfg, r2, v);
    r' := r2;
  }

  // ---------------------------------------------------------------- the leader wakes up

  /** Node n, having probed v from the state `p` of its progress record. */
  function HavingProbed(cfg: Config, n: Node, p: Progress, v: Id): Node {
    n.(prs := n.prs[v := AppendFor(cfg, n, p, v, true).pr])
  }

  function Awake(p: Progress): Progress {
    p.(recentActive := true, paused := false)
  }

  /** A follower that is being probed and lacks something is probed again when it answers a heartbeat. */
  lemma AnswerWakes(cfg: Config, n: Node, v: Id)
    requires v in n.prs && PrOk(n.prs[v], |n.log|, cfg.maxInflight) && n.prs[v].state == Probe && n.prs[v].matched < |n.log|
    requires Consecutive(n.log, 1) && n.role == Leader && n.term > 0
    ensures var p := Awake(n.prs[v]);
            && Probes(cfg, n, p)
            && Step(cfg, n, HeartbeatResp(v, n.id, n.term), false)
               == HavingProbed(cfg, n, p, v).(msgs := n.msgs + {AppendFor(cfg, n, p, v, true).msg})
  {
    var p := Awake(n.prs[v]);
    var s := SetProgress(n, v, p);
    assert OnHeartbeatResp(cfg, n, v) == SendAppend(cfg, s, v);
    assert AppendFor(cfg, s, p, v, true) == AppendFor(cfg, n, p, v, true);
    ProbeGoesOut(cfg, n, p, v);
    assert s.prs[v := AppendFor(cfg, n, p, v, true).pr] == n.prs[v := AppendFor(cfg, n, p, v, true).pr];
  }

  lemma ProbeGoesOut(cfg: Config, n: Node, p: Progress, v: Id)
    requires Probes(cfg, n, p)
    ensures AppendFor(cfg, n, p, v, true).sent
  {
  }

  lemma LeaderNow(cfg: Config, r: Run, a: Id, t: nat) returns (n: Node)
    requires SoundRun(cfg, r) && Leads(Last(r), a, t)
    ensures n == Last(r).nodes[a] && n.id == a && n.role == Leader && n.term == t > 0 && n.msgs == {} && n.prs.Keys == cfg.voters
    ensures Consecutive(n.log, 1) && n.log != [] && n.log[|n.log| - 1].term == t
    ensures forall v :: v in n.prs ==> PrOk(n.prs[v], |n.log|, cfg.maxInflight)
  {
    var h := Now(cfg, r);
    n := Last(r).nodes[a];
    LeaderFacts(cfg, Last(r), h, a, t);
    NodeNow(cfg, r, a);
    WindowsOk(cfg, r, |r.states| - 1, a, t);
  }

  /** If v is being sent to without probing, the leader falls back to probing. */
  lemma FallsBack(cfg: Config, r: Run, a: Id, t: nat, q: set<Id>, v: Id) returns (r': Run, p: Progress)
    requires SoundRun(cfg, r) && q <= cfg.voters && Led(Last(r), a, t, q) && v in q && v != a
    ensures Goes(cfg, r, r', q) && Worked(Last(r), Last(r'), a)
    ensures v in Last(r).nodes[a].prs
    ensures var n := Last(r).nodes[a];
            && Last(r').nodes[a] == n.(prs := n.prs[v := p]) && p.state == Probe && p.matched == n.prs[v].matched
            && p.next == if n.prs[v].state == Replicate then n.prs[v].matched + 1 else n.prs[v].next
  {
    var n := LeaderNow(cfg, r, a, t);
    if n.prs[v].state == Replicate {
      r' := Happen(cfg, r, a, Unreachable(v), q);
      p := n.prs[v].BecomeProbe();
    } else {
      GoesNowhere(cfg, r, q);
      r', p := r, n.prs[v];
      assert n.prs[v := p] == n.prs;
    }
  }

  lemma Wakes(cfg: Config, r: Run, a: Id, t: nat, q: set<Id>, v: Id) returns (r': Run, p: Progress)
    requires SoundRun(cfg, r) && q <= cfg.voters && Led(Last(r), a, t, q) && v in q && v != a
    requires HeartbeatResp(v, a, t) in Last(r).net
    requires v in Last(r).nodes[a].prs && Last(r).nodes[a].prs[v].matched < |Last(r).nodes[a].log|
    ensures Goes(cfg, r, r', q) && Worked(Last(r), Last(r'), a)
    ensures var n := Last(r).nodes[a];
            && Probes(cfg, n, p) && p.matched == n.prs[v].matched
            && p.next == (if n.prs[v].state == Replicate then n.prs[v].matched + 1 else n.prs[v].next)
            && Last(r').nodes[a] == HavingProbed(cfg, n, p, v) && AppendFor(cfg, n, p, v, true).msg in Last(r').net
  {
    var r1, p1 := FallsBack(cfg, r, a, t, q, v);
    var n1 := LeaderNow(cfg, r1, a, t);
    AnswerWakes(cfg, n1, v);
    r' := Receive(cfg, r1, HeartbeatResp(v, a, t), q);
    p := Awake(p1);
    GoesOn(cfg, r, r1, r', q);
    WokenIs(cfg, Last(r).nodes[a], n1, p1, p, v);
  }

  lemma WokenIs(cfg: Config, n: Node, n1: Node, p1: Progress, p: Progress, v: Id)
    requires n1 == n.(prs := n.prs[v := p1])
    ensures AppendFor(cfg, n1, p, v, true) == AppendFor(cfg, n, p, v, true)
    ensures HavingProbed(cfg, n1, p, v) == HavingProbed(cfg, n, p, v)
  {
    assert n.prs[v := p1][v := AppendFor(cfg, n, p, v, true).pr] == n.prs[v := AppendFor(cfg, n, p, v, true).pr];
  }

  // ---------------------------------------------------------------- the follower answers the probe

  /** The leader's log and that of a node that is not ahead satisfy what probing asks for. */
  lemma Compares(cfg: Config, r: Run, a: Id, t: nat, v: Id)
    requires SoundRun(cfg, r) && Leads(Last(r), a, t) && v in Last(r).nodes && Last(r).nodes[v].term <= t
    ensures Comparable(Last(r).nodes[a], Last(r).nodes[v])
  {
    var i := |r.states| - 1;
    LogMatching(cfg, r, i, i, v, a);
    LeaderCompleteness(cfg, r, i, i, v, a, t);
    var h := Now(cfg, r);
    LogOf(cfg, Last(r), h, a);
    PositiveLog(h, Last(r).nodes[a].log);
  }

  lemma PositiveLog(h: History, log: seq<Entry>)
    requires LogOk(h.logs, log)
    ensures PositiveTerms(log)
  {
    forall i | 0 <= i < |log| ensures PositiveAt(log, i) {
      assert PointOk(h.logs, log, i);
    }
  }

  /** Node f answers the probe with `x`. */
  ghost predicate Answered(n: Node, p: Progress, f: Node, x: Message)
    requires p.next > 0
  {
    && x.AppResp? && x.from == f.id && x.to == n.id && x.term == n.term
    && (x.reject <==> Rejects(n, p.next, f))
    && (x.reject ==> x.index == p.next - 1 && x.rejectHint == |f.log|)
    && (!x.reject ==> Min(p.next, |n.log|) <= x.index <= |n.log|)
  }

  lemma AnswersProbe(cfg: Config, n: Node, p: Progress, f: Node) returns (x: Message)
    requires Probes(cfg, n, p) && Comparable(n, f) && n.term == f.term > 0 && f.role == Follower && f.lead == n.id && f.msgs == {}
    ensures var m := ProbeMsg(cfg, n, p, f);
            && Consecutive(m.entries, m.index + 1) && m.to == f.id && m.App?
            && Step(cfg, f, m, false).msgs == {x} && Answered(n, p, f, x)
            && Step(cfg, f, m, false).term == f.term && Step(cfg, f, m, false).id == f.id
  {
    ProbeIsSent(cfg, n, p, f);
    var m := ProbeMsg(cfg, n, p, f);
    assert f.(msgs := {}) == f.(lead := m.from) == f;
    assert Step(cfg, f, m, false) == After(cfg, n, p, f);
    x := OneAnswer(cfg, n, p, f);
    if !x.reject {
      var y := AcceptedAgrees(cfg, n, p, f);
      assert x in {y};
    }
  }

  lemma Answers(cfg: Config, r: Run, a: Id, t: nat, q: set<Id>, v: Id, n: Node, p: Progress) returns (r': Run, x: Message)
    requires SoundRun(cfg, r) && q <= cfg.voters && Led(Last(r), a, t, q) && v in q && v != a
    requires Last(r).nodes[a] == HavingProbed(cfg, n, p, v) && Probes(cfg, n, p) && AppendFor(cfg, n, p, v, true).msg in Last(r).net
    requires var f := Last(r).nodes[v]; f.term == t && f.role == Follower && f.lead == a
    ensures Goes(cfg, r, r', q) && Worked(Last(r), Last(r'), v) && Last(r').nodes[v].term == t
    ensures Answered(n, p, Last(r).nodes[v], x) && x in Last(r').net
  {
    var f := Last(r).nodes[v];
    NodeNow(cfg, r, v);
    NodeNow(cfg, r, a);
    var _ := LeaderNow(cfg, r, a, t);
    Compares(cfg, r, a, t, v);
    x := AnswersProbe(cfg, n, p, f);
    r' := Receive(cfg, r, AppendFor(cfg, n, p, v, true).msg, q);
  }

  // ---------------------------------------------------------------- the leader takes the answer

  /** How far `next` is from where probing would begin anew. */
  function Distance(p: Progress): nat {
    if p.next > p.matched then p.next - (p.matched + 1) else p.matched + 1 - p.next
  }

  /** Leader n' is leader n, nearer to v: more is matched, or as much and the next probe is closer. */
  ghost predicate Nearer(n: Node, n': Node, p: Progress, v: Id) {
    && n'.id == n.id && n'.role == n.role && n'.term == n.term && n'.log == n.log && n'.prs.Keys == n.prs.Keys
    && v in n.prs && p.matched == n.prs[v].matched
    && (forall u :: u in n.prs ==> n'.prs[u].matched >= n.prs[u].matched)
    && (n'.prs[v].matched > p.matched || (n'.prs[v].matched == p.matched && Distance(n'.prs[v]) < Distance(p)))
  }

  lemma ProbedRecord(cfg: Config, n: Node, p: Progress, v: Id)
    requires Probes(cfg, n, p)
    ensures var a := AppendFor(cfg, n, p, v, true).pr;
            a.matched == p.matched && a.next == p.next && a.state == Probe && a.recentActive == p.recentActive
  {
  }

  /** A rejection above the match index brings the next probe closer. */
  lemma RejectionNearer(cfg: Config, n: Node, p: Progress, v: Id, f: Node, x: Message)
    requires Probes(cfg, n, p) && v in n.prs && n.prs[v].matched == p.matched && Answered(n, p, f, x) && x.reject && x.from == v
    requires p.matched < p.next - 1 && p.matched <= |f.log|
    ensures Nearer(n, OnAppResp(cfg, HavingProbed(cfg, n, p, v), x), p, v)
  {
    var n1 := HavingProbed(cfg, n, p, v);
    ProbedRecord(cfg, n, p, v);
    RejectedSame(cfg, n1, x);
    RejectedNext(cfg, n1, x);
  }

  /** What a counted rejection leaves of `next`. */
  lemma RejectedNext(cfg: Config, n: Node, x: Message)
    requires x.AppResp? && x.reject && x.from in n.prs && n.prs[x.from].state == Probe && n.prs[x.from].next == x.index + 1
    requires x.index > 0
    ensures OnAppResp(cfg, n, x).prs[x.from].next == Min(x.index, x.rejectHint + 1)
  {
    var d := n.prs[x.from].(recentActive := true).MaybeDecreaseTo(x.index, x.rejectHint).0;
    var n1 := SetProgress(n, x.from, d);
    assert OnAppResp(cfg, n, x) == SendAppend(cfg, n1, x.from);
    ProbeKeepsNext(cfg, n1, d, x.from);
  }

  lemma ProbeKeepsNext(cfg: Config, n: Node, p: Progress, v: Id)
    requires p.state == Probe
    ensures AppendFor(cfg, n, p, v, true).pr.next == p.next
  {
  }

  /** An acceptance beyond the match index moves it there, and no other. */
  lemma AcceptedMore(cfg: Config, n: Node, x: Message)
    requires x.AppResp? && !x.reject && x.from in n.prs && x.index > n.prs[x.from].matched && n.term > 0
    ensures var r := OnAppResp(cfg, n, x);
            && r.id == n.id && r.role == n.role && r.term == n.term && r.log == n.log && r.prs.Keys == n.prs.Keys
            && r.prs[x.from].matched == x.index
            && forall u :: u in n.prs && u != x.from ==> r.prs[u].matched == n.prs[u].matched
  {
    AcceptedIs(cfg, n, x);
    var c := MaybeCommit(Recorded(n, x));
    MaybeCommitSettles(Recorded(n, x));
    AfterCommitSame(cfg, c.0, x.from, c.1, n.prs[x.from].IsPaused());
  }

  /** An acceptance up to the match index moves at most `next`. */
  lemma AcceptedLess(cfg: Config, n: Node, x: Message)
    requires x.AppResp? && !x.reject && x.from in n.prs && x.index <= n.prs[x.from].matched
    ensures var r := OnAppResp(cfg, n, x);
            && r == n.(prs := r.prs) && r.prs.Keys == n.prs.Keys
            && r.prs[x.from].matched == n.prs[x.from].matched && r.prs[x.from].next == Max(n.prs[x.from].next, x.index + 1)
            && forall u :: u in n.prs && u != x.from ==> r.prs[u] == n.prs[u]
  {
    AcceptedIs(cfg, n, x);
  }

  /** An acceptance matches more, or brings a probe that had fallen behind the match index closer. */
  lemma AcceptanceNearer(cfg: Config, n: Node, p: Progress, v: Id, f: Node, x: Message)
    requires Probes(cfg, n, p) && v in n.prs && n.prs[v].matched == p.matched && Answered(n, p, f, x) && !x.reject && x.from == v
    requires p.matched < |n.log| && n.term > 0
    ensures Nearer(n, OnAppResp(cfg, HavingProbed(cfg, n, p, v), x), p, v)
  {
    var n1 := HavingProbed(cfg, n, p, v);
    ProbedRecord(cfg, n, p, v);
    if x.index > p.matched {
      AcceptedMore(cfg, n1, x);
    } else {
      AcceptedLess(cfg, n1, x);
    }
  }

  lemma SameTerms(a: seq<Entry>, b: seq<Entry>, k: nat, i: nat)
    requires SharesPrefix(a, b, k) && i <= k
    ensures TermAt(a, i) == TermAt(b, i)
  {
    if i > 0 { assert a[i - 1] == a[..k][i - 1] == b[..k][i - 1] == b[i - 1]; }
  }

  /** A rejected index lies above what is matched, because up to there the logs agree. */
  lemma RejectedAbove(n: Node, p: Progress, f: Node)
    requires p.next > 0 && Rejects(n, p.next, f) && SharesPrefix(f.log, n.log, p.matched)
    ensures p.matched < p.next - 1
  {
    if p.next - 1 <= p.matched { SameTerms(f.log, n.log, p.matched, p.next - 1); }
  }

  lemma AnswerNearer(cfg: Config, n: Node, p: Progress, v: Id, f: Node, x: Message)
    requires Probes(cfg, n, p) && v in n.prs && n.prs[v].matched == p.matched < |n.log| && n.term > 0
    requires Answered(n, p, f, x) && x.from == v && SharesPrefix(f.log, n.log, p.matched)
    ensures Nearer(n, OnAppResp(cfg, HavingProbed(cfg, n, p, v), x), p, v)
  {
    if x.reject {
      RejectedAbove(n, p, f);
      RejectionNearer(cfg, n, p, v, f, x);
    } else {
      AcceptanceNearer(cfg, n, p, v, f, x);
    }
  }

  lemma Digests(cfg: Config, r: Run, a: Id, t: nat, q: set<Id>, v: Id, n: Node, p: Progress, f: Node, x: Message) returns (r': Run)
    requires SoundRun(cfg, r) && q <= cfg.voters && Led(Last(r), a, t, q) && v != a && v in n.prs
    requires Last(r).nodes[a] == HavingProbed(cfg, n, p, v) && Probes(cfg, n, p) && n.prs[v].matched == p.matched < |n.log|
    requires x in Last(r).net && f.id == v && n.id == a && n.term == t > 0 && Answered(n, p, f, x) && SharesPrefix(f.log, n.log, p.matched)
    ensures Goes(cfg, r, r', q) && Worked(Last(r), Last(r'), a) && Nearer(n, Last(r').nodes[a], p, v)
  {
    var n1 := HavingProbed(cfg, n, p, v);
    AnswerNearer(cfg, n, p, v, f, x);
    TakesAnswer(cfg, Last(r).nodes[a], x);
    r' := Receive(cfg, r, x, q);
    NearerOutbox(n, OnAppResp(cfg, n1, x), p, v);
  }

  lemma TakesAnswer(cfg: Config, n: Node, x: Message)
    requires n.role == Leader && x.AppResp? && x.term == n.term > 0 && x.from in n.prs
    ensures Step(cfg, n, x, false) == OnAppResp(cfg, n, x)
  {
  }

  lemma NearerOutbox(n: Node, n': Node, p: Progress, v: Id)
    requires Nearer(n, n', p, v)
    ensures Nearer(n, n'.(msgs := {}), p, v)
  {
  }

  // ---------------------------------------------------------------- round after round

  /** Heartbeat and answer: the probe is on its way, and v follows. */
  lemma ProbeUnderway(cfg: Config, r: Run, a: Id, t: nat, q: set<Id>, v: Id) returns (r': Run, p: Progress)
    requires SoundRun(cfg, r) && q <= cfg.voters && Led(Last(r), a, t, q) && v in q && v != a
    requires v in Last(r).nodes[a].prs && Last(r).nodes[a].prs[v].matched < |Last(r).nodes[a].log|
    ensures Goes(cfg, r, r', q) && Led(Last(r'), a, t, q)
    ensures var n, f := Last(r).nodes[a], Last(r').nodes[v];
            && Probes(cfg, n, p) && p.matched == n.prs[v].matched && Distance(p) <= Distance(n.prs[v])
            && Last(r').nodes[a] == HavingProbed(cfg, n, p, v) && AppendFor(cfg, n, p, v, true).msg in Last(r').net
            && f.term == t && f.role == Follower && f.lead == a
  {
    var n := LeaderNow(cfg, r, a, t);
    var r1 := HearsLeader(cfg, r, a, t, q, v);
    r', p := Wakes(cfg, r1, a, t, q, v);
    GoesOn(cfg, r, r1, r', q);
  }

  /** One round: heartbeat and answer, append and answer. */
  lemma OneRound(cfg: Config, r: Run, a: Id, t: nat, q: set<Id>, v: Id) returns (r': Run, p: Progress)
    requires SoundRun(cfg, r) && q <= cfg.voters && Led(Last(r), a, t, q) && v in q && v != a
    requires v in Last(r).nodes[a].prs && Last(r).nodes[a].prs[v].matched < |Last(r).nodes[a].log|
    ensures Goes(cfg, r, r', q) && Led(Last(r'), a, t, q)
    ensures var n := Last(r).nodes[a];
            Nearer(n, Last(r').nodes[a], p, v) && Distance(p) <= Distance(n.prs[v])
  {
    var n := LeaderNow(cfg, r, a, t);
    var r2: Run;
    r2, p := ProbeUnderway(cfg, r, a, t, q, v);
    var f := Last(r2).nodes[v];
    NodeNow(cfg, r2, v);
    ProbedRecord(cfg, n, p, v);
    MatchSoundness(cfg, r2, |r2.states| - 1, a, v, t);
    var r3, x := Answers(cfg, r2, a, t, q, v, n, p);
    r' := Digests(cfg, r3, a, t, q, v, n, p, f, x);
    GoesOn(cfg, r, r2, r3, q);
    GoesOn(cfg, r, r3, r', q);
  }

  /** Leader a of the same log, with at least as much matched everywhere. */
  ghost predicate Leading(n: Node, n': Node) {
    && n'.log == n.log && n'.prs.Keys == n.prs.Keys && forall u :: u in n.prs ==> n'.prs[u].matched >= n.prs[u].matched
  }

  /** Rounds until v has everything. */
  lemma {:induction false} CatchesUp(cfg: Config, r: Run, a: Id, t: nat, q: set<Id>, v: Id) returns (r': Run)
    requires SoundRun(cfg, r) && q <= cfg.voters && Led(Last(r), a, t, q) && v in q && v != a
    requires v in Last(r).nodes[a].prs && Last(r).nodes[a].prs[v].matched <= |Last(r).nodes[a].log|
    ensures Goes(cfg, r, r', q) && Led(Last(r'), a, t, q) && Leading(Last(r).nodes[a], Last(r').nodes[a])
    ensures v in Last(r').nodes[a].prs && Last(r').nodes[a].prs[v].matched == |Last(r').nodes[a].log|
    decreases |Last(r).nodes[a].log| - Last(r).nodes[a].prs[v].matched, Distance(Last(r).nodes[a].prs[v])
  {
    if Last(r).nodes[a].prs[v].matched == |Last(r).nodes[a].log| {
      GoesNowhere(cfg, r, q);
      r' := r;
    } else {
      var r1, p := OneRound(cfg, r, a, t, q, v);
      var _ := LeaderNow(cfg, r1, a, t);
      r' := CatchesUp(cfg, r1, a, t, q, v);
      GoesOn(cfg, r, r1, r', q);
    }
  }
}

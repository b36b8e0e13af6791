/** Carrying a run on: single deliveries and local events of chosen nodes. */
module Continuations {
  import opened Types
  import opened LogModel
  import opened ProgressModel
  import opened Quorum
  import opened RaftCore
  import opened Cluster
  import opened Invariant
  import opened Safety
  import opened Commitment

  // ---------------------------------------------------------------- runs that only some nodes carry on

  function Actor(a: Action): Id {
    match a
    case Deliver(m, _) => m.to
    case LocalEvent(id, _) => id
    case Crash(id, _) => id
  }

  /** A message delivered to, or a local event at, one of these nodes. */
  predicate ByOneOf(a: Action, q: set<Id>) {
    Actor(a) in q && !a.Crash?
  }

  /** `r'` is `r`, carried on by nodes of `q` alone. */
  ghost predicate Continues(r: Run, r': Run, q: set<Id>) {
    && r.states <= r'.states && r.actions <= r'.actions
    && forall i {:trigger r'.actions[i]} :: |r.actions| <= i < |r'.actions| ==> ByOneOf(r'.actions[i], q)
  }

  ghost predicate Goes(cfg: Config, r: Run, r': Run, q: set<Id>) {
    SoundRun(cfg, r') && Continues(r, r', q)
  }

  lemma GoesNowhere(cfg: Config, r: Run, q: set<Id>)
    requires SoundRun(cfg, r)
    ensures Goes(cfg, r, r, q)
  {
  }

  lemma GoesOn(cfg: Config, r1: Run, r2: Run, r3: Run, q: set<Id>)
    requires Goes(cfg, r1, r2, q) && Goes(cfg, r2, r3, q)
    ensures Goes(cfg, r1, r3, q)
  {
    forall i | |r1.actions| <= i < |r3.actions| ensures ByOneOf(r3.actions[i], q) {
      if i < |r2.actions| { assert r3.actions[i] == r2.actions[i]; }
    }
  }

  lemma Go(cfg: Config, r: Run, a: Action, q: set<Id>) returns (r': Run)
    requires SoundRun(cfg, r) && Enabled(Last(r), a) && ByOneOf(a, q) && !StalePreVote(Last(r), a)
    ensures Goes(cfg, r, r', q) && Last(r') == Apply(cfg, Last(r), a)
  {
    r' := Do(cfg, r, a);
    if cfg.preVote { StillNoStale(r, r', a); }
    assert r'.states[..|r.states|] == r.states;
  }

  lemma StillNoStale(r: Run, r': Run, a: Action)
    requires |r.states| == |r.actions| + 1 && NoStalePreVotes(r) && !StalePreVote(Last(r), a)
    requires r'.actions == r.actions + [a] && |r'.states| == |r.states| + 1 && r'.states[..|r.states|] == r.states
    ensures NoStalePreVotes(r')
  {
    forall i | 0 <= i < |r'.actions| ensures !StalePreVote(r'.states[i], r'.actions[i]) {
      assert r'.states[i] == r'.states[..|r.states|][i];
    }
  }

  lemma Now(cfg: Config, r: Run) returns (h: History)
    requires SoundRun(cfg, r)
    ensures Inv(cfg, Last(r), h)
  {
    var _, h' := TwoHistories(cfg, r, |r.states| - 1, |r.states| - 1);
    h := h';
  }

  /** Every voter has a node, and none has aborted. */
  lemma NodeNow(cfg: Config, r: Run, v: Id)
    requires SoundRun(cfg, r) && v in cfg.voters
    ensures v in Last(r).nodes
    ensures var n := Last(r).nodes[v];
            n.id == v && n.msgs == {} && n.prs.Keys == cfg.voters && !n.fatal && n.commit <= |n.log| && Consecutive(n.log, 1)
  {
    var h := Now(cfg, r);
    assert NodeFits(cfg, Last(r), h, v);
    CommitFitsHere(cfg, Last(r), h, v);
  }

  /** Node v has worked, and nobody else. */
  ghost predicate Worked(s: State, s': State, v: Id) {
    && v in s.nodes && s'.nodes.Keys == s.nodes.Keys && s.net <= s'.net
    && forall u :: u in s.nodes && u != v ==> s'.nodes[u] == s.nodes[u]
  }

  lemma Receive(cfg: Config, r: Run, m: Message, q: set<Id>) returns (r': Run)
    requires SoundRun(cfg, r) && m in Last(r).net && m.to in q && q <= cfg.voters
    requires !(m.PreVoteResp? && !m.reject && m.to in Last(r).nodes && Last(r).nodes[m.to].role == Candidate)
    ensures m.to in Last(r).nodes && (m.App? ==> Consecutive(m.entries, m.index + 1))
    ensures var n := Step(cfg, Last(r).nodes[m.to], m, false);
            && Goes(cfg, r, r', q) && Worked(Last(r), Last(r'), m.to)
            && Last(r').nodes[m.to] == n.(msgs := {}) && Last(r').net == Last(r).net + n.msgs
  {
    NodeNow(cfg, r, m.to);
    NoPanic(cfg, r, |r.states| - 1);
    r' := Go(cfg, r, Deliver(m, false), q);
  }

  lemma Happen(cfg: Config, r: Run, v: Id, e: Event, q: set<Id>) returns (r': Run)
    requires SoundRun(cfg, r) && v in q && q <= cfg.voters && (e.Client? ==> e.payloads != [])
    ensures v in Last(r).nodes
    ensures var n := Local(cfg, Last(r).nodes[v], e);
            && Goes(cfg, r, r', q) && Worked(Last(r), Last(r'), v)
            && Last(r').nodes[v] == n.(msgs := {}) && Last(r').net == Last(r).net + n.msgs
  {
    NodeNow(cfg, r, v);
    r' := Go(cfg, r, LocalEvent(v, e), q);
  }
}

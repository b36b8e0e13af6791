/** The cluster: nodes with a network that may lose, repeat and reorder messages. */
module Cluster {
  import opened Types
  import opened LogModel
  import opened RaftCore

  /** `net` holds every message ever sent: a message in it may be delivered any number of
      times, in any order, or never. */
  datatype State = State(nodes: map<Id, Node>, net: set<Message>)

  /** A node that has handled an event persists its state and then sends its messages. */
  function Put(s: State, n: Node): State {
    State(s.nodes[n.id := n.(msgs := {})], s.net + n.msgs)
  }

  datatype Action =
    | Deliver(m: Message, inLease: bool)
    | LocalEvent(id: Id, e: Event)
    | Crash(id: Id, commit: nat)

  ghost predicate Init(cfg: Config, s: State) {
    && s.nodes.Keys == cfg.voters && s.net == {}
    && forall v {:trigger StartsAt(cfg, s, v)} :: v in s.nodes ==> StartsAt(cfg, s, v)
  }

  predicate StartsAt(cfg: Config, s: State, v: Id)
    requires v in s.nodes
  {
    s.nodes[v] == InitNode(cfg, v)
  }

  predicate Enabled(s: State, a: Action) {
    match a
    case Deliver(m, _) => m in s.net && m.to in s.nodes && (m.App? ==> Consecutive(m.entries, m.index + 1))
    case LocalEvent(id, e) => id in s.nodes && (e.Client? ==> e.payloads != [])
    case Crash(id, commit) => id in s.nodes && commit <= s.nodes[id].commit
  }

  ghost function Apply(cfg: Config, s: State, a: Action): State
    requires Enabled(s, a)
  {
    match a
    case Deliver(m, inLease) => Put(s, Step(cfg, s.nodes[m.to], m, inLease))
    case LocalEvent(id, e) => Put(s, Local(cfg, s.nodes[id], e))
    case Crash(id, commit) => Put(s, Restart(cfg, s.nodes[id], commit))
  }

  /** A granted pre-vote reaches a node that is already a candidate.  `step_candidate`
      counts it as a vote. */
  predicate StalePreVote(s: State, a: Action) {
    a.Deliver? && a.m.PreVoteResp? && !a.m.reject && a.m.to in s.nodes && s.nodes[a.m.to].role == Candidate
  }

  /** A run: a sequence of actions and the states between them. */
  datatype Run = Run(states: seq<State>, actions: seq<Action>)

  ghost predicate IsRun(cfg: Config, r: Run) {
    && |r.states| == |r.actions| + 1
    && Init(cfg, r.states[0])
    && forall i {:trigger IsStep(cfg, r, i)} :: 0 <= i < |r.actions| ==> IsStep(cfg, r, i)
  }

  ghost predicate IsStep(cfg: Config, r: Run, i: nat)
    requires |r.states| == |r.actions| + 1 && i < |r.actions|
  {
    Enabled(r.states[i], r.actions[i]) && r.states[i + 1] == Apply(cfg, r.states[i], r.actions[i])
  }

  /** No stale pre-vote is delivered.  Without pre-vote every run is of this kind. */
  ghost predicate NoStalePreVotes(r: Run)
    requires |r.states| > |r.actions|
  {
    forall i :: 0 <= i < |r.actions| ==> !StalePreVote(r.states[i], r.actions[i])
  }

  // ---------------------------------------------------------------- building runs

  function Last(r: Run): State
    requires r.states != []
  {
    r.states[|r.states| - 1]
  }

  /** The run goes on with one more action. */
  lemma Do(cfg: Config, r: Run, a: Action) returns (r': Run)
    requires IsRun(cfg, r) && Enabled(Last(r), a)
    ensures IsRun(cfg, r') && Last(r') == Apply(cfg, Last(r), a)
    ensures r'.states == r.states + [Last(r')] && r'.actions == r.actions + [a]
  {
    r' := Run(r.states + [Apply(cfg, Last(r), a)], r.actions + [a]);
    forall i | 0 <= i < |r'.actions| ensures IsStep(cfg, r', i) {
      if i < |r.actions| { assert IsStep(cfg, r, i); }
    }
  }

  lemma InitState(cfg: Config) returns (s: State)
    ensures Init(cfg, s)
  {
    s := State(map v | v in cfg.voters :: InitNode(cfg, v), {});
    assert s.nodes.Keys == cfg.voters;
  }
}

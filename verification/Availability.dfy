/** A majority is enough: from every state that a run can reach, any majority of the voters can, without
    the others and without a restart, elect a leader, take a proposal, and have everything committed.
    Which messages arrive is up to the network; that the right ones can, and are enough, is proved. */
module Availability {
  import opened Types
  import opened LogModel
  import opened Quorum
  import opened RaftCore
  import opened Cluster
  import opened Invariant
  import opened Safety
  import opened FollowerSteps
  import opened NodeDuties
  import opened Commitment
  import opened Continuations
  import opened CatchUp
  import opened Elections
  import opened PreElections

  // ---------------------------------------------------------------- everyone catches up

  ghost predicate CaughtUp(s: State, a: Id, vs: set<Id>) {
    a in s.nodes && forall v :: v in vs ==> v in s.nodes[a].prs && s.nodes[a].prs[v].matched == |s.nodes[a].log|
  }

  lemma {:induction false} AllCatchUp(cfg: Config, r: Run, a: Id, t: nat, q: set<Id>, vs: set<Id>) returns (r': Run)
    requires SoundRun(cfg, r) && q <= cfg.voters && Led(Last(r), a, t, q) && vs <= q - {a}
    ensures Goes(cfg, r, r', q) && Led(Last(r'), a, t, q) && Last(r').nodes[a].log == Last(r).nodes[a].log
    ensures CaughtUp(Last(r'), a, vs)
    decreases vs
  {
    if vs == {} {
      GoesNowhere(cfg, r, q);
      r' := r;
    } else {
      var v :| v in vs;
      var r1 := AllCatchUp(cfg, r, a, t, q, vs - {v});
      var _ := LeaderNow(cfg, r1, a, t);
      r' := CatchesUp(cfg, r1, a, t, q, v);
      GoesOn(cfg, r, r1, r', q);
      var n := LeaderNow(cfg, r', a, t);
    }
  }

  /** All of q hold the leader's log and have committed all of it. */
  ghost predicate Settled(s: State, a: Id, vs: set<Id>) {
    a in s.nodes && forall v :: v in vs ==> v in s.nodes && HasAll(s.nodes[v], s.nodes[a].log)
  }

  ghost predicate HasAll(n: Node, log: seq<Entry>) {
    SharesPrefix(n.log, log, |log|) && n.commit >= |log|
  }

  /** One more heartbeat each, and they have committed it too. */
  lemma {:induction false} AllHear(cfg: Config, r: Run, a: Id, t: nat, q: set<Id>, vs: set<Id>) returns (r': Run)
    requires SoundRun(cfg, r) && q <= cfg.voters && Led(Last(r), a, t, q) && vs <= q - {a}
    requires CaughtUp(Last(r), a, q) && Last(r).nodes[a].commit == |Last(r).nodes[a].log|
    ensures Goes(cfg, r, r', q) && Led(Last(r'), a, t, q) && Last(r').nodes[a] == Last(r).nodes[a]
    ensures Settled(Last(r'), a, vs)
    decreases vs
  {
    if vs == {} {
      GoesNowhere(cfg, r, q);
      r' := r;
    } else {
      var v :| v in vs;
      var r1 := AllHear(cfg, r, a, t, q, vs - {v});
      r' := HearsLeader(cfg, r1, a, t, q, v);
      GoesOn(cfg, r, r1, r', q);
      MatchSoundness(cfg, r', |r'.states| - 1, a, v, t);
    }
  }

  /** Replication: a leader of a majority that is not behind it can have its whole log on all of it, committed. */
  lemma MajorityReplicates(cfg: Config, r: Run, a: Id, t: nat, q: set<Id>) returns (r': Run)
    requires SoundRun(cfg, r) && IsQuorum(cfg.voters, q) && Led(Last(r), a, t, q)
    ensures Goes(cfg, r, r', q) && Led(Last(r'), a, t, q) && Last(r').nodes[a].log == Last(r).nodes[a].log
    ensures Settled(Last(r'), a, q)
  {
    var r1 := AllCatchUp(cfg, r, a, t, q, q - {a});
    var i := |r1.states| - 1;
    LeaderCommitsAll(cfg, r1, i, a, t);
    MatchedByMajorityIsCommitted(cfg, r1, i, a, t, q);
    r' := AllHear(cfg, r1, a, t, q, q - {a});
    GoesOn(cfg, r, r1, r', q);
  }

  // ---------------------------------------------------------------- the theorem

  /** Election: with or without pre-vote. */
  lemma MajorityCanElect(cfg: Config, r: Run, q: set<Id>) returns (r': Run, a: Id, t: nat)
    requires SoundRun(cfg, r) && IsQuorum(cfg.voters, q)
    ensures Goes(cfg, r, r', q) && Led(Last(r'), a, t, q)
  {
    if cfg.preVote {
      r', a, t := PreVoteElectsLeader(cfg, r, q);
    } else {
      r', a, t := MajorityElectsLeader(cfg, r, q);
    }
  }

  lemma TakesProposal(cfg: Config, r: Run, a: Id, t: nat, q: set<Id>, payloads: seq<Payload>) returns (r': Run)
    requires SoundRun(cfg, r) && q <= cfg.voters && Led(Last(r), a, t, q) && payloads != []
    ensures Goes(cfg, r, r', q) && Led(Last(r'), a, t, q)
    ensures var log, log' := Last(r).nodes[a].log, Last(r').nodes[a].log;
            |log'| == |log| + |payloads| && log'[..|log|] == log && Carries(log'[|log|..], payloads, t, |log| + 1)
  {
    ProposalRule(cfg, Last(r).nodes[a], payloads);
    r' := Happen(cfg, r, a, Client(payloads), q);
  }

  /** The log ends with the entries of these payloads. */
  ghost predicate EndsWith(log: seq<Entry>, payloads: seq<Payload>, t: nat) {
    |payloads| <= |log| && Carries(log[|log| - |payloads|..], payloads, t, |log| - |payloads| + 1)
  }

  /** Availability: whatever has happened so far, messages lost and nodes restarted, any majority of the
      voters can elect one of its own, hand it any proposal, and have the whole log, the proposal at its
      end, on all of the majority and committed there.  Only nodes of that majority act. */
  lemma MajorityMakesProgress(cfg: Config, r: Run, q: set<Id>, payloads: seq<Payload>) returns (r': Run, a: Id, t: nat)
    requires SoundRun(cfg, r) && IsQuorum(cfg.voters, q) && payloads != []
    ensures Goes(cfg, r, r', q) && Leads(Last(r'), a, t) && a in q
    ensures EndsWith(Last(r').nodes[a].log, payloads, t)
    ensures forall v :: v in q ==> v in Last(r').nodes && HasAll(Last(r').nodes[v], Last(r').nodes[a].log)
  {
    var r1: Run;
    r1, a, t := MajorityCanElect(cfg, r, q);
    var r2 := TakesProposal(cfg, r1, a, t, q, payloads);
    GoesOn(cfg, r, r1, r2, q);
    r' := MajorityReplicates(cfg, r2, a, t, q);
    GoesOn(cfg, r, r2, r', q);
  }

  /** And what was committed anywhere before, even by a node of a later term, is in that leader's log: a
      leader that no node of some majority is ahead of has everything. */
  lemma ProgressKeepsCommitted(cfg: Config, r: Run, i: nat, u: Id, a: Id, t: nat, q: set<Id>)
    requires SoundRun(cfg, r) && IsQuorum(cfg.voters, q) && Led(Last(r), a, t, q)
    requires i < |r.states| && u in r.states[i].nodes
    ensures SharesPrefix(Last(r).nodes[a].log, r.states[i].nodes[u].log, r.states[i].nodes[u].commit)
  {
    var n := r.states[i].nodes[u];
    var h, h' := TwoHistories(cfg, r, i, |r.states| - 1);
    CommitStays(cfg, r.states[i], h, h', u);
    LeaderRecorded(cfg, Last(r), h', a, t);
    CommittedByThen(cfg, Last(r), h', n.log, n.commit, n.term, t, q);
    CommittedInLeader(cfg, h', n.log, n.commit, t);
  }

  /** What is committed was committed in a term that some node of the majority has reached. */
  lemma CommittedByThen(cfg: Config, s: State, h: History, log: seq<Entry>, commit: nat, term: nat, t: nat, q: set<Id>)
    requires Inv(cfg, s, h) && IsQuorum(cfg.voters, q) && CommitOk(cfg, h, log, commit, term) && t in h.logs
    requires forall v :: v in q ==> v in s.nodes && s.nodes[v].term <= t
    ensures CommitOk(cfg, h, log, commit, t)
  {
    var t1: nat, k: nat :| Committed(cfg, h, t1, k) && t1 <= term && commit <= k && SharesPrefix(log, h.logs[t1], commit);
    var v := Intersect(cfg.voters, Ackers(cfg, h, t1, k), q);
    assert NodeFits(cfg, s, h, v);
    if k > 0 { assert (t1, v) in h.acked; }
  }

  /** From the start any voter can be elected, by the votes of all. */
  lemma AnyoneCanWin(cfg: Config, a: Id) returns (r: Run, t: nat)
    requires cfg.Valid() && a in cfg.voters
    ensures SoundRun(cfg, r) && Leads(Last(r), a, t)
  {
    var r0 := Start(cfg);
    var q := cfg.voters;
    forall v | v in q ensures v in Last(r0).nodes { NodeNow(cfg, r0, v); }
    if |q| == 1 {
      if cfg.preVote { r, t := WinsAloneToo(cfg, r0, q, a); } else { r, t := WinsAlone(cfg, r0, q, a); }
    } else {
      SubsetSize({a}, q);
      if cfg.preVote { r, t := BestIsElectedToo(cfg, r0, q, a); } else { r, t := BestIsElected(cfg, r0, q, a); }
    }
  }

  lemma Start(cfg: Config) returns (r: Run)
    requires cfg.Valid()
    ensures SoundRun(cfg, r) && Last(r).nodes.Keys == cfg.voters && r.actions == []
    ensures forall v :: v in cfg.voters ==> Last(r).nodes[v].role == Follower && Last(r).nodes[v].log == cfg.boot
  {
    var s := InitState(cfg);
    r := Run([s], []);
    forall v | v in cfg.voters ensures s.nodes[v].role == Follower && s.nodes[v].log == cfg.boot {
      assert StartsAt(cfg, s, v);
    }
  }

  // ---------------------------------------------------------------- and nothing less than a majority

  /** Only these nodes have ever done anything, restarts included. */
  ghost predicate OnlyBy(r: Run, q: set<Id>) {
    forall i {:trigger r.actions[i]} :: 0 <= i < |r.actions| ==> Actor(r.actions[i]) in q
  }

  lemma {:induction false} OthersAsleep(cfg: Config, r: Run, q: set<Id>, i: nat, v: Id)
    requires SoundRun(cfg, r) && OnlyBy(r, q) && i < |r.states| && v in cfg.voters && v !in q
    ensures v in r.states[i].nodes && r.states[i].nodes[v].term == cfg.BootTerm()
  {
    if i == 0 {
      StartTerm(cfg, r, v);
    } else {
      OthersAsleep(cfg, r, q, i - 1, v);
      OnlyActorWorks(cfg, r, i - 1, v);
    }
  }

  lemma StartTerm(cfg: Config, r: Run, v: Id)
    requires IsRun(cfg, r) && v in cfg.voters
    ensures v in r.states[0].nodes && r.states[0].nodes[v].term == cfg.BootTerm()
  {
    assert StartsAt(cfg, r.states[0], v);
  }

  lemma OnlyActorWorks(cfg: Config, r: Run, i: nat, v: Id)
    requires SoundRun(cfg, r) && i < |r.actions| && v in r.states[i].nodes && v != Actor(r.actions[i])
    ensures v in r.states[i + 1].nodes && r.states[i + 1].nodes[v] == r.states[i].nodes[v]
  {
    var h, _ := TwoHistories(cfg, r, i, i);
    assert IsStep(cfg, r, i);
    assert NodeFits(cfg, r.states[i], h, Actor(r.actions[i]));
  }

  /** Without a majority nobody is ever elected. */
  lemma MinorityElectsNobody(cfg: Config, r: Run, q: set<Id>, i: nat, a: Id, t: nat)
    requires SoundRun(cfg, r) && q <= cfg.voters && OnlyBy(r, q) && i < |r.states| && Leads(r.states[i], a, t)
    ensures IsQuorum(cfg.voters, q)
  {
    var h, _ := TwoHistories(cfg, r, i, i);
    LeaderRecorded(cfg, r.states[i], h, a, t);
    assert ElectionOk(cfg, h, t);
    forall x | x in h.electors[t] ensures x in q {
      assert VoteOk(cfg, h, t, x);
      assert NodeFits(cfg, r.states[i], h, x);
      if x !in q { OthersAsleep(cfg, r, q, i, x); }
    }
    SubsetSize(h.electors[t], q);
  }

  /** A group of voters can elect a leader by itself if and only if it is more than half of them. */
  lemma MajoritiesAndNoOthers(cfg: Config, q: set<Id>)
    requires cfg.Valid() && q <= cfg.voters
    ensures (exists r, a, t :: SoundRun(cfg, r) && OnlyBy(r, q) && Leads(Last(r), a, t)) <==> 2 * |q| > |cfg.voters|
  {
    if 2 * |q| > |cfg.voters| {
      var r0 := Start(cfg);
      var r, a, t := MajorityCanElect(cfg, r0, q);
      assert SoundRun(cfg, r) && OnlyBy(r, q) && Leads(Last(r), a, t);
    }
    if exists r, a, t :: SoundRun(cfg, r) && OnlyBy(r, q) && Leads(Last(r), a, t) {
      var r, a, t :| SoundRun(cfg, r) && OnlyBy(r, q) && Leads(Last(r), a, t);
      MinorityElectsNobody(cfg, r, q, |r.states| - 1, a, t);
    }
  }
}

/** Pre-vote breaks election safety: `step_candidate` counts a granted pre-vote as a vote, so
    the answers that turned a pre-candidate into a candidate, delivered once more, make it
    leader without a single vote.  Two nodes can do that in the same term. */
module PreVoteFlaw {
  import opened Types
  import opened LogModel
  import opened ProgressModel
  import opened Quorum
  import opened RaftCore
  import opened Cluster
  import opened Invariant
  import opened Safety

  // ---------------------------------------------------------------- every voter has a node

  lemma KeepsNodes(cfg: Config, s: State, a: Action)
    requires Enabled(s, a) && forall v :: v in s.nodes ==> s.nodes[v].id == v
    ensures Apply(cfg, s, a).nodes.Keys == s.nodes.Keys
    ensures forall v :: v in s.nodes ==> Apply(cfg, s, a).nodes[v].id == v
  {
    match a
    case Deliver(m, inLease) => assert Step(cfg, s.nodes[m.to], m, inLease).id == m.to;
    case LocalEvent(id, e) => assert Local(cfg, s.nodes[id], e).id == id;
    case Crash(id, commit) =>
  }

  /** Every voter has a node, in every run. */
  lemma {:induction false} NodesStay(cfg: Config, r: Run, i: nat)
    requires IsRun(cfg, r) && i < |r.states|
    ensures r.states[i].nodes.Keys == cfg.voters
    ensures forall v :: v in cfg.voters ==> r.states[i].nodes[v].id == v
  {
    if i == 0 {
      assert forall v :: v in r.states[0].nodes ==> StartsAt(cfg, r.states[0], v);
    } else {
      NodesStay(cfg, r, i - 1);
      assert IsStep(cfg, r, i - 1);
      KeepsNodes(cfg, r.states[i - 1], r.actions[i - 1]);
    }
  }

  // ---------------------------------------------------------------- asking for pre-votes

  /** A node as it was born, but for its role and votes. */
  ghost predicate CalmNode(cfg: Config, n: Node, v: Id) {
    n.id == v && n.term == cfg.BootTerm() && n.log == cfg.boot && n.prs.Keys == cfg.voters && n.msgs == {}
  }

  ghost predicate Calm(cfg: Config, s: State) {
    && s.nodes.Keys == cfg.voters
    && forall v {:trigger CalmNode(cfg, s.nodes[v], v)} :: v in s.nodes ==> CalmNode(cfg, s.nodes[v], v)
  }

  function Ask(cfg: Config, a: Id, v: Id): Message {
    PreVote(a, v, cfg.BootTerm() + 1, |cfg.boot|, Log(0, 0, cfg.boot).LastTerm())
  }

  function Grant(cfg: Config, v: Id, a: Id): Message {
    PreVoteResp(v, a, cfg.BootTerm() + 1, false)
  }

  /** Node a counts answers: it has those of `from`, and its own. */
  ghost predicate Counting(cfg: Config, n: Node, a: Id, role: Role, term: nat, from: set<Id>) {
    && n.id == a && n.role == role && n.term == term && n.prs.Keys == cfg.voters
    && n.votes.Keys == from + {a} && forall x :: x in n.votes ==> n.votes[x]
  }

  lemma QuorumOfMany(voters: set<Id>)
    requires |voters| >= 2
    ensures 2 <= QuorumSize(voters) <= |voters|
  {
  }

  lemma CountedOnce(cfg: Config, n: Node, a: Id, role: Role, term: nat, from: set<Id>)
    requires Counting(cfg, n, a, role, term, from) && a !in from
    ensures Granted(n.votes) == from + {a} && |Granted(n.votes)| == |from| + 1 == |n.votes|
  {
    assert n.votes.Keys == from + {a};
  }

  function Asks(cfg: Config, a: Id): set<Message> {
    set v | v in cfg.voters && v != a :: Ask(cfg, a, v)
  }

  lemma StartsCounting(cfg: Config, n: Node, a: Id)
    requires |cfg.voters| >= 2 && CalmNode(cfg, n, a)
    ensures var p := Poll(BecomePreCandidate(n), a, true);
            && p == n.(votes := map[a := true], lead := 0, role := PreCandidate, fatal := n.fatal || n.role == Leader)
            && Counting(cfg, p, a, PreCandidate, cfg.BootTerm(), {})
            && |Granted(p.votes)| < p.Quorum()
  {
    var p := Poll(BecomePreCandidate(n), a, true);
    CountedOnce(cfg, p, a, PreCandidate, cfg.BootTerm(), {});
    QuorumOfMany(cfg.voters);
  }

  lemma HupAsks(cfg: Config, n: Node, a: Id)
    requires cfg.preVote && |cfg.voters| >= 2 && a in cfg.voters && CalmNode(cfg, n, a) && n.role == Follower
    ensures var r := Local(cfg, n, Hup);
            && r.msgs == Asks(cfg, a) && CalmNode(cfg, r.(msgs := {}), a)
            && Counting(cfg, r, a, PreCandidate, cfg.BootTerm(), {})
  {
    StartsCounting(cfg, n, a);
    var p := Poll(BecomePreCandidate(n), a, true);
    var asks := set v | v in p.prs && v != p.id :: Message.PreVote(p.id, v, p.term + 1, p.Last(), p.LogOf().LastTerm());
    assert asks == Asks(cfg, a);
    assert Local(cfg, n, Hup) == p.(msgs := p.msgs + asks);
  }

  lemma AskAround(cfg: Config, r: Run, a: Id) returns (r': Run)
    requires cfg.Valid() && cfg.preVote && |cfg.voters| >= 2 && a in cfg.voters
    requires IsRun(cfg, r) && Calm(cfg, Last(r))
    requires a in Last(r).nodes && Last(r).nodes[a].role == Follower
    ensures IsRun(cfg, r') && Calm(cfg, Last(r')) && Last(r').net == Last(r).net + Asks(cfg, a)
    ensures a in Last(r').nodes && Counting(cfg, Last(r').nodes[a], a, PreCandidate, cfg.BootTerm(), {})
    ensures forall v :: v in Last(r).nodes && v != a ==> v in Last(r').nodes && Last(r').nodes[v] == Last(r).nodes[v]
  {
    assert CalmNode(cfg, Last(r).nodes[a], a);
    HupAsks(cfg, Last(r).nodes[a], a);
    r' := Do(cfg, r, LocalEvent(a, Hup));
  }

  lemma CalmGrants(cfg: Config, n: Node, v: Id, a: Id)
    requires CalmNode(cfg, n, v)
    ensures Step(cfg, n, Ask(cfg, a, v), false) == n.(msgs := {Grant(cfg, v, a)})
  {
  }

  /** A voter at the first term grants the pre-vote, and does not change. */
  lemma GrantOne(cfg: Config, r: Run, a: Id, v: Id) returns (r': Run)
    requires IsRun(cfg, r) && Calm(cfg, Last(r))
    requires v in cfg.voters && Ask(cfg, a, v) in Last(r).net
    ensures IsRun(cfg, r') && Last(r').nodes == Last(r).nodes
    ensures Last(r').net == Last(r).net + {Grant(cfg, v, a)}
  {
    var n := Last(r).nodes[v];
    assert CalmNode(cfg, n, v);
    CalmGrants(cfg, n, v, a);
    r' := Do(cfg, r, Deliver(Ask(cfg, a, v), false));
    assert n.(msgs := {}) == n;
  }

  lemma {:induction false} GrantAll(cfg: Config, r: Run, a: Id, vs: set<Id>) returns (r': Run)
    requires cfg.Valid() && IsRun(cfg, r) && Calm(cfg, Last(r))
    requires a in cfg.voters && Asks(cfg, a) <= Last(r).net && vs <= cfg.voters - {a}
    ensures IsRun(cfg, r') && Last(r').nodes == Last(r).nodes && Last(r).net <= Last(r').net
    ensures forall v :: v in vs ==> Grant(cfg, v, a) in Last(r').net
    decreases vs
  {
    if vs == {} {
      r' := r;
    } else {
      var v :| v in vs;
      var r1 := GrantAll(cfg, r, a, vs - {v});
      assert Ask(cfg, a, v) in Asks(cfg, a);
      r' := GrantOne(cfg, r1, a, v);
    }
  }

  // ---------------------------------------------------------------- counting the answers

  /** The term in which a node counts these answers. */
  function CountTerm(cfg: Config, role: Role): nat {
    if role == Candidate then cfg.BootTerm() + 1 else cfg.BootTerm()
  }

  /** What a majority of granted pre-votes makes of a node: a pre-candidate becomes candidate,
      and a candidate becomes leader. */
  ghost predicate Promoted(cfg: Config, n: Node, a: Id, role: Role) {
    if role == PreCandidate then Counting(cfg, n, a, Candidate, cfg.BootTerm() + 1, {})
    else n.id == a && n.role == Leader && n.term == cfg.BootTerm() + 1
  }

  lemma GrantIsPolled(cfg: Config, n: Node, a: Id, role: Role, from: set<Id>, x: Id)
    requires role == PreCandidate || role == Candidate
    requires Counting(cfg, n, a, role, CountTerm(cfg, role), from) && x !in from && x != a
    ensures Step(cfg, n, Grant(cfg, x, a), false) == OnVoteResp(cfg, n, Grant(cfg, x, a))
    ensures Counting(cfg, Poll(n, x, true), a, role, n.term, from + {x})
  {
  }

  /** What one more granted pre-vote does to a node that counts answers, of either kind. */
  lemma CountOne(cfg: Config, n: Node, a: Id, role: Role, from: set<Id>, x: Id)
    requires |cfg.voters| >= 2 && (role == PreCandidate || role == Candidate)
    requires Counting(cfg, n, a, role, CountTerm(cfg, role), from)
    requires a !in from && x !in from && x != a && |from| + 2 <= QuorumSize(cfg.voters)
    ensures var r := Step(cfg, n, Grant(cfg, x, a), false);
            if |from| + 2 < QuorumSize(cfg.voters) then Counting(cfg, r, a, role, n.term, from + {x})
            else Promoted(cfg, r, a, role)
  {
    GrantIsPolled(cfg, n, a, role, from, x);
    var p := Poll(n, x, true);
    CountedOnce(cfg, p, a, role, n.term, from + {x});
    CountIs(cfg, n, p, Grant(cfg, x, a));
    if |from| + 2 == QuorumSize(cfg.voters) && role == PreCandidate {
      CampaignStarts(cfg, p, a);
    }
  }

  /** The outcome of the count by the number of grants. */
  lemma CountIs(cfg: Config, n: Node, p: Node, m: Message)
    requires m.PreVoteResp? && !m.reject && p == Poll(n, m.from, true) && p.prs.Keys == cfg.voters && |cfg.voters| >= 2
    requires |Granted(p.votes)| == |p.votes| <= QuorumSize(cfg.voters)
    ensures var r := OnVoteResp(cfg, n, m);
            if |p.votes| < QuorumSize(cfg.voters) then r == p
            else if n.role == PreCandidate then r == CampaignElection(cfg, p)
            else r.id == p.id && r.role == Leader && r.term == p.term
  {
    QuorumOfMany(cfg.voters);
  }

  lemma CampaignStarts(cfg: Config, p: Node, a: Id)
    requires |cfg.voters| >= 2 && p.id == a && p.term == cfg.BootTerm() && p.prs.Keys == cfg.voters
    ensures Counting(cfg, CampaignElection(cfg, p), a, Candidate, cfg.BootTerm() + 1, {})
  {
    var c := Poll(BecomeCandidate(cfg, p), a, true);
    assert c.prs.Keys == cfg.voters;
    CountedOnce(cfg, c, a, Candidate, cfg.BootTerm() + 1, {});
    QuorumOfMany(cfg.voters);
  }

  ghost predicate Granters(cfg: Config, s: State, a: Id, q: set<Id>) {
    q <= cfg.voters - {a} && |q| == QuorumSize(cfg.voters) - 1 && forall x :: x in q ==> Grant(cfg, x, a) in s.net
  }

  /** Delivering one message to node a changes that node alone. */
  lemma Give(cfg: Config, r: Run, a: Id, m: Message) returns (r': Run)
    requires IsRun(cfg, r) && a in Last(r).nodes && m in Last(r).net && m.PreVoteResp? && m.to == a
    requires Last(r).nodes[a].id == a
    ensures IsRun(cfg, r') && Last(r).net <= Last(r').net
    ensures Last(r').nodes == Last(r).nodes[a := Step(cfg, Last(r).nodes[a], m, false).(msgs := {})]
  {
    r' := Do(cfg, r, Deliver(m, false));
  }

  /** A round of delivering the granted pre-votes of `q` to node a. */
  lemma {:induction false} Round(cfg: Config, r: Run, a: Id, role: Role, from: set<Id>, q: set<Id>) returns (r': Run)
    requires |cfg.voters| >= 2 && (role == PreCandidate || role == Candidate)
    requires IsRun(cfg, r) && a in Last(r).nodes && Granters(cfg, Last(r), a, q) && from < q
    requires Counting(cfg, Last(r).nodes[a], a, role, CountTerm(cfg, role), from)
    ensures IsRun(cfg, r') && Last(r).net <= Last(r').net
    ensures Last(r').nodes.Keys == Last(r).nodes.Keys
    ensures forall v :: v in Last(r).nodes && v != a ==> Last(r').nodes[v] == Last(r).nodes[v]
    ensures Promoted(cfg, Last(r').nodes[a], a, role)
    decreases q - from
  {
    var x := Missing(from, q);
    CountOne(cfg, Last(r).nodes[a], a, role, from, x);
    r' := Give(cfg, r, a, Grant(cfg, x, a));
    if |from| + 2 < QuorumSize(cfg.voters) {
      assert from + {x} != q;
      r' := Round(cfg, r', a, role, from + {x}, q);
    }
  }

  /** The same answers twice: candidate after the first round, leader after the second. */
  lemma Usurp(cfg: Config, r: Run, a: Id) returns (r': Run)
    requires cfg.Valid() && |cfg.voters| >= 2 && IsRun(cfg, r) && a in cfg.voters && a in Last(r).nodes
    requires Counting(cfg, Last(r).nodes[a], a, PreCandidate, cfg.BootTerm(), {})
    requires forall v :: v in cfg.voters - {a} ==> Grant(cfg, v, a) in Last(r).net
    ensures IsRun(cfg, r') && Last(r').nodes.Keys == Last(r).nodes.Keys && Last(r).net <= Last(r').net
    ensures forall v :: v in Last(r).nodes && v != a ==> Last(r').nodes[v] == Last(r).nodes[v]
    ensures Leads(Last(r'), a, cfg.BootTerm() + 1)
  {
    QuorumOfMany(cfg.voters);
    var q := SubsetOfSize(cfg.voters - {a}, QuorumSize(cfg.voters) - 1);
    var r1 := Round(cfg, r, a, PreCandidate, {}, q);
    r' := Round(cfg, r1, a, Candidate, {}, q);
  }

  // ---------------------------------------------------------------- the theorem

  /** At most one node ever leads a term of this run. */
  ghost predicate OneLeader(r: Run) {
    forall i: nat, j: nat, a: Id, b: Id, t: nat ::
      i <= j < |r.states| && Leads(r.states[i], a, t) && Leads(r.states[j], b, t) ==> a == b
  }

  lemma InitCalm(cfg: Config, v: Id)
    ensures CalmNode(cfg, InitNode(cfg, v), v) && InitNode(cfg, v).role == Follower
  {
  }

  lemma InitIsCalm(cfg: Config, s: State)
    requires Init(cfg, s)
    ensures Calm(cfg, s) && forall v :: v in s.nodes ==> s.nodes[v].role == Follower
  {
    forall v | v in s.nodes ensures CalmNode(cfg, s.nodes[v], v) && s.nodes[v].role == Follower {
      assert StartsAt(cfg, s, v);
      InitCalm(cfg, v);
    }
  }

  /** With pre-vote and two voters or more there is a run with two leaders in one term. */
  lemma TwoLeaders(cfg: Config) returns (r: Run, a: Id, b: Id)
    requires cfg.Valid() && cfg.preVote && |cfg.voters| >= 2
    ensures IsRun(cfg, r) && a != b
    ensures Leads(Last(r), a, cfg.BootTerm() + 1) && Leads(Last(r), b, cfg.BootTerm() + 1)
  {
    a :| a in cfg.voters;
    assert cfg.voters != {a};
    b := Missing({a}, cfg.voters);
    var s := InitState(cfg);
    InitIsCalm(cfg, s);
    r := Run([s], []);
    r := BothCampaign(cfg, r, a, b);
    r := Usurp(cfg, r, a);
    r := Usurp(cfg, r, b);
  }

  lemma BothCampaign(cfg: Config, r: Run, a: Id, b: Id) returns (r': Run)
    requires cfg.Valid() && cfg.preVote && |cfg.voters| >= 2 && a in cfg.voters && b in cfg.voters && a != b
    requires IsRun(cfg, r) && Calm(cfg, Last(r))
    requires a in Last(r).nodes && Last(r).nodes[a].role == Follower
    requires b in Last(r).nodes && Last(r).nodes[b].role == Follower
    ensures IsRun(cfg, r') && Last(r').nodes.Keys == cfg.voters
    ensures a in Last(r').nodes && Counting(cfg, Last(r').nodes[a], a, PreCandidate, cfg.BootTerm(), {})
    ensures b in Last(r').nodes && Counting(cfg, Last(r').nodes[b], b, PreCandidate, cfg.BootTerm(), {})
    ensures forall v :: v in cfg.voters - {a} ==> Grant(cfg, v, a) in Last(r').net
    ensures forall v :: v in cfg.voters - {b} ==> Grant(cfg, v, b) in Last(r').net
  {
    r' := AskAround(cfg, r, a);
    r' := AskAround(cfg, r', b);
    r' := GrantAll(cfg, r', a, cfg.voters - {a});
    r' := GrantAll(cfg, r', b, cfg.voters - {b});
  }

  /** Election safety holds in every run exactly when pre-vote is off or there is one voter. */
  lemma ElectionSafetyNeedsNoPreVote(cfg: Config)
    requires cfg.Valid()
    ensures (forall r :: IsRun(cfg, r) ==> OneLeader(r)) <==> !cfg.preVote || |cfg.voters| == 1
  {
    if !cfg.preVote {
      forall r | IsRun(cfg, r) ensures OneLeader(r) { OneLeaderWithout(cfg, r); }
    } else if |cfg.voters| == 1 {
      forall r | IsRun(cfg, r) ensures OneLeader(r) { OneLeaderAlone(cfg, r); }
    } else {
      assert |cfg.voters| != 0;
      var r, a, b := TwoLeaders(cfg);
      var n := |r.states| - 1;
      assert Leads(r.states[n], a, cfg.BootTerm() + 1) && Leads(r.states[n], b, cfg.BootTerm() + 1);
      assert !OneLeader(r);
    }
  }

  lemma OneLeaderWithout(cfg: Config, r: Run)
    requires cfg.Valid() && IsRun(cfg, r) && !cfg.preVote
    ensures OneLeader(r)
  {
    forall i: nat, j: nat, a: Id, b: Id, t: nat |
      i <= j < |r.states| && Leads(r.states[i], a, t) && Leads(r.states[j], b, t) ensures a == b {
      ElectionSafety(cfg, r, i, j, a, b, t);
    }
  }

  lemma OneLeaderAlone(cfg: Config, r: Run)
    requires IsRun(cfg, r) && |cfg.voters| == 1
    ensures OneLeader(r)
  {
    forall i: nat, j: nat, a: Id, b: Id, t: nat |
      i <= j < |r.states| && Leads(r.states[i], a, t) && Leads(r.states[j], b, t) ensures a == b {
      NodesStay(cfg, r, i);
      NodesStay(cfg, r, j);
      SubsetSize({a, b}, cfg.voters);
      assert a != b ==> |{a, b}| == 2;
    }
  }
}

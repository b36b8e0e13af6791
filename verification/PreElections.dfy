/** The same with pre-vote: the node with the best log asks first, learns of later terms from refusals,
    and campaigns once a majority has encouraged it. */
module PreElections {
  import opened Types
  import opened LogModel
  import opened Quorum
  import opened RaftCore
  import opened Cluster
  import opened Invariant
  import opened Safety
  import opened NodeDuties
  import opened Continuations
  import opened CatchUp
  import opened Elections

  // ---------------------------------------------------------------- asking

  function PreRequest(n: Node, v: Id): Message {
    Message.PreVote(n.id, v, n.term + 1, |n.log|, TermAt(n.log, |n.log|))
  }

  /** Node a has asked all the others about the term after `t`. */
  ghost predicate Asks(cfg: Config, s: State, a: Id, t: nat) {
    && a in s.nodes && s.nodes[a].role == PreCandidate && s.nodes[a].term == t && s.nodes[a].votes == map[a := true]
    && forall v :: v in cfg.voters && v != a ==> PreRequest(s.nodes[a], v) in s.net
  }

  lemma HupAsks(cfg: Config, n: Node)
    requires cfg.preVote && n.role != Leader && n.id in n.prs && n.prs.Keys == cfg.voters && |cfg.voters| >= 2
    ensures var c := Local(cfg, n, Hup);
            && c.id == n.id && c.role == PreCandidate && c.term == n.term && c.log == n.log && c.votes == map[n.id := true]
            && forall v :: v in cfg.voters && v != n.id ==> PreRequest(n, v) in c.msgs
  {
    PreCampaignRule(cfg, n);
    forall v | v in cfg.voters && v != n.id ensures PreRequest(n, v) in Local(cfg, n, Hup).msgs {
      assert PreRequest(n, v) in PreVoteRequests(n);
    }
  }

  lemma StartsAsking(cfg: Config, r: Run, q: set<Id>, a: Id) returns (r': Run)
    requires SoundRun(cfg, r) && cfg.preVote && q <= cfg.voters && a in q && |cfg.voters| >= 2
    requires a in Last(r).nodes && Last(r).nodes[a].role != Leader
    ensures Goes(cfg, r, r', q) && Worked(Last(r), Last(r'), a) && Last(r').nodes[a].log == Last(r).nodes[a].log
    ensures Asks(cfg, Last(r'), a, Last(r).nodes[a].term)
  {
    NodeNow(cfg, r, a);
    HupAsks(cfg, Last(r).nodes[a]);
    r' := Happen(cfg, r, a, Hup, q);
  }

  // ---------------------------------------------------------------- encouragement and refusal

  /** The answer of f to a pre-vote for term t, from a node with a log that beats its own. */
  function Opinion(f: Node, a: Id, t: nat): Message {
    if t > f.term || (t == f.term && (f.vote == a || (f.vote == 0 && f.lead == 0))) then PreVoteResp(f.id, a, t, false)
    else PreVoteResp(f.id, a, f.term, true)
  }

  lemma GivesOpinion(cfg: Config, n: Node, f: Node)
    requires Beats(n, f)
    ensures Step(cfg, f, PreRequest(n, f.id), false) == f.(msgs := f.msgs + {Opinion(f, n.id, n.term + 1)}, fatal := f.fatal)
  {
    var m := PreRequest(n, f.id);
    if m.term >= f.term { PreVoteRule(f, n.id, m.term, m.index, m.logTerm); }
  }

  /** Everyone of `vs` answers, and nobody changes. */
  lemma {:induction false} AllGiveOpinions(cfg: Config, r: Run, q: set<Id>, a: Id, vs: set<Id>, t: nat) returns (r': Run)
    requires SoundRun(cfg, r) && q <= cfg.voters && Present(Last(r), q) && a in q && vs <= q - {a} && Asks(cfg, Last(r), a, t)
    requires Best(Last(r), a, q)
    ensures Goes(cfg, r, r', q) && Last(r').nodes == Last(r).nodes && Last(r).net <= Last(r').net
    ensures forall v :: v in vs ==> Opinion(Last(r).nodes[v], a, t + 1) in Last(r').net
    decreases vs
  {
    if vs == {} {
      GoesNowhere(cfg, r, q);
      r' := r;
    } else {
      var v :| v in vs;
      var r1 := AllGiveOpinions(cfg, r, q, a, vs - {v}, t);
      r' := OneGivesOpinion(cfg, r1, q, a, v, t);
      GoesOn(cfg, r, r1, r', q);
    }
  }

  lemma OneGivesOpinion(cfg: Config, r: Run, q: set<Id>, a: Id, v: Id, t: nat) returns (r': Run)
    requires SoundRun(cfg, r) && q <= cfg.voters && Present(Last(r), q) && a in q && v in q && v != a && Asks(cfg, Last(r), a, t)
    requires Beats(Last(r).nodes[a], Last(r).nodes[v])
    ensures Goes(cfg, r, r', q) && Last(r').nodes == Last(r).nodes && Last(r).net <= Last(r').net
    ensures Opinion(Last(r).nodes[v], a, t + 1) in Last(r').net
  {
    var n, f := Last(r).nodes[a], Last(r).nodes[v];
    NodeNow(cfg, r, a);
    NodeNow(cfg, r, v);
    GivesOpinion(cfg, n, f);
    assert PreRequest(n, v) in Last(r).net;
    r' := Receive(cfg, r, PreRequest(n, v), q);
    assert f.(msgs := {}) == f;
    assert Last(r').nodes == Last(r).nodes;
  }

  /** A refusal tells of a later term. */
  lemma Learns(cfg: Config, r: Run, q: set<Id>, a: Id, v: Id, t: nat) returns (r': Run)
    requires SoundRun(cfg, r) && q <= cfg.voters && a in q && a in Last(r).nodes && Last(r).nodes[a].term < t
    requires PreVoteResp(v, a, t, true) in Last(r).net
    ensures Goes(cfg, r, r', q) && Worked(Last(r), Last(r'), a)
    ensures var n, n' := Last(r).nodes[a], Last(r').nodes[a]; n'.role == Follower && n'.term == t && n'.log == n.log
  {
    var m := PreVoteResp(v, a, t, true);
    assert Step(cfg, Last(r).nodes[a], m, false) == BecomeFollower(cfg, Last(r).nodes[a], t, 0);
    r' := Receive(cfg, r, m, q);
  }

  // ---------------------------------------------------------------- the pre-count

  ghost predicate HasOpinions(cfg: Config, n: Node, a: Id, t: nat, from: set<Id>) {
    && n.id == a && n.role == PreCandidate && n.term == t && n.prs.Keys == cfg.voters
    && n.votes.Keys == from + {a} && forall x :: x in n.votes ==> n.votes[x]
  }

  /** Node r, once n, campaigns in term t and asks all the others. */
  ghost predicate Campaigning(cfg: Config, n: Node, r: Node, a: Id, t: nat) {
    && r.log == n.log && r.id == a && r.role == Candidate && r.term == t && r.votes == map[a := true]
    && forall v :: v in cfg.voters && v != a ==> Request(n, v, t) in r.msgs
  }

  /** The last answer needed turns a pre-candidate into a candidate of the next term. */
  lemma Encouraged(cfg: Config, p: Node, a: Id)
    requires p.id == a && p.prs.Keys == cfg.voters && a in cfg.voters && |cfg.voters| >= 2
    ensures Campaigning(cfg, p, CampaignElection(cfg, p), a, p.term + 1)
  {
    CampaignRule(cfg, p);
    forall v | v in cfg.voters && v != a ensures Request(p, v, p.term + 1) in CampaignElection(cfg, p).msgs {
      assert Request(p, v, p.term + 1) in VoteRequests(p);
    }
  }

  /** What an encouraging answer does to the count. */
  lemma OpinionCounts(cfg: Config, n: Node, a: Id, t: nat, from: set<Id>, x: Id)
    requires HasOpinions(cfg, n, a, t, from) && a !in from && x !in from && x != a && |from| + 2 <= QuorumSize(cfg.voters)
    ensures var p, r := Poll(n, x, true), Step(cfg, n, PreVoteResp(x, a, t + 1, false), false);
            && HasOpinions(cfg, p, a, t, from + {x}) && p.log == n.log
            && r == if |from| + 2 == QuorumSize(cfg.voters) then CampaignElection(cfg, p) else p
  {
    var m := PreVoteResp(x, a, t + 1, false);
    var p := Poll(n, x, true);
    assert Step(cfg, n, m, false) == OnVoteResp(cfg, n, m);
    PollRule(n, x, true);
    var yes := from + {a} + {x};
    assert GrantedWith(n, x, true) == yes && |yes| == |from| + 2;
    assert p.votes.Keys == yes && |p.votes| == |yes|;
    AllGranted(p, yes);
  }

  lemma OneMoreOpinion(cfg: Config, n: Node, a: Id, t: nat, from: set<Id>, x: Id)
    requires HasOpinions(cfg, n, a, t, from) && a in cfg.voters && a !in from && x !in from && x != a && |cfg.voters| >= 2
    requires |from| + 2 <= QuorumSize(cfg.voters)
    ensures var r := Step(cfg, n, PreVoteResp(x, a, t + 1, false), false);
            if |from| + 2 == QuorumSize(cfg.voters) then Campaigning(cfg, n, r, a, t + 1)
            else HasOpinions(cfg, r, a, t, from + {x}) && r.log == n.log
  {
    OpinionCounts(cfg, n, a, t, from, x);
    var p := Poll(n, x, true);
    if |from| + 2 == QuorumSize(cfg.voters) {
      Encouraged(cfg, p, a);
      CampaigningSince(cfg, n, p, CampaignElection(cfg, p), a, t + 1);
    }
  }

  lemma CampaigningSince(cfg: Config, n: Node, p: Node, r: Node, a: Id, t: nat)
    requires Campaigning(cfg, p, r, a, t) && p.id == n.id && p.log == n.log
    ensures Campaigning(cfg, n, r, a, t)
  {
    forall v | v in cfg.voters && v != a ensures Request(n, v, t) in r.msgs {
      assert Request(p, v, t) in r.msgs;
    }
  }

  /** The encouragement of `p` arrives, and the node campaigns. */
  lemma {:induction false} GoesAhead(cfg: Config, r: Run, q: set<Id>, a: Id, t: nat, from: set<Id>, p: set<Id>) returns (r': Run)
    requires SoundRun(cfg, r) && q <= cfg.voters && a in q && a in Last(r).nodes && HasOpinions(cfg, Last(r).nodes[a], a, t, from)
    requires a !in p && from < p && |p| == QuorumSize(cfg.voters) - 1 && |cfg.voters| >= 2
    requires forall x :: x in p ==> PreVoteResp(x, a, t + 1, false) in Last(r).net
    ensures Goes(cfg, r, r', q) && Worked(Last(r), Last(r'), a) && Last(r').nodes[a].log == Last(r).nodes[a].log
    ensures Campaigns(cfg, Last(r'), a, t + 1)
    decreases p - from
  {
    var x := Missing(from, p);
    OneMoreOpinion(cfg, Last(r).nodes[a], a, t, from, x);
    r' := Receive(cfg, r, PreVoteResp(x, a, t + 1, false), q);
    if |from| + 2 < QuorumSize(cfg.voters) {
      var r1 := r';
      assert from + {x} != p;
      r' := GoesAhead(cfg, r1, q, a, t, from + {x}, p);
      GoesOn(cfg, r, r1, r', q);
    } else {
      SameRequests(Last(r).nodes[a], Last(r').nodes[a], cfg.voters, t + 1);
    }
  }

  lemma SameRequests(n: Node, n': Node, voters: set<Id>, t: nat)
    requires n'.id == n.id && n'.log == n.log
    ensures forall v :: v in voters ==> Request(n', v, t) == Request(n, v, t)
  {
  }

  // ---------------------------------------------------------------- up to the latest term and beyond

  /** What asking the majority leads to: a campaign in the next term, or a later term learnt. */
  lemma AsksAround(cfg: Config, r: Run, q: set<Id>, a: Id) returns (r': Run)
    requires SoundRun(cfg, r) && cfg.preVote && IsQuorum(cfg.voters, q) && |cfg.voters| >= 2 && Present(Last(r), q)
    requires Best(Last(r), a, q) && Last(r).nodes[a].role != Leader
    ensures Goes(cfg, r, r', q) && Worked(Last(r), Last(r'), a) && Last(r').nodes[a].log == Last(r).nodes[a].log
    ensures var t := Last(r).nodes[a].term;
            || Campaigns(cfg, Last(r'), a, t + 1)
            || (Last(r').nodes[a].role == Follower && Last(r').nodes[a].term > t && exists v :: v in q && Last(r').nodes[a].term == Last(r).nodes[v].term)
  {
    var t := Last(r).nodes[a].term;
    var r2 := HearsOpinions(cfg, r, q, a);
    if exists v :: v in q - {a} && Opinion(Last(r2).nodes[v], a, t + 1).reject {
      var v :| v in q - {a} && Opinion(Last(r2).nodes[v], a, t + 1).reject;
      NodeNow(cfg, r2, v);
      r' := Learns(cfg, r2, q, a, v, Last(r2).nodes[v].term);
    } else {
      r' := AllEncourage(cfg, r2, q, a, t);
    }
    GoesOn(cfg, r, r2, r', q);
  }

  lemma HearsOpinions(cfg: Config, r: Run, q: set<Id>, a: Id) returns (r': Run)
    requires SoundRun(cfg, r) && cfg.preVote && q <= cfg.voters && |cfg.voters| >= 2 && Present(Last(r), q)
    requires Best(Last(r), a, q) && Last(r).nodes[a].role != Leader
    ensures Goes(cfg, r, r', q) && Worked(Last(r), Last(r'), a) && Last(r').nodes[a].log == Last(r).nodes[a].log
    ensures Asks(cfg, Last(r'), a, Last(r).nodes[a].term)
    ensures forall v :: v in q - {a} ==> Opinion(Last(r').nodes[v], a, Last(r).nodes[a].term + 1) in Last(r').net
  {
    var t := Last(r).nodes[a].term;
    var r1 := StartsAsking(cfg, r, q, a);
    SameBest(Last(r), Last(r1), a, q);
    r' := AllGiveOpinions(cfg, r1, q, a, q - {a}, t);
    GoesOn(cfg, r, r1, r', q);
  }

  lemma SameBest(s: State, s': State, a: Id, q: set<Id>)
    requires Present(s, q) && Best(s, a, q) && s'.nodes.Keys == s.nodes.Keys
    requires forall v :: v in q ==> s'.nodes[v].log == s.nodes[v].log
    ensures Best(s', a, q)
  {
  }

  lemma AllEncourage(cfg: Config, r: Run, q: set<Id>, a: Id, t: nat) returns (r': Run)
    requires SoundRun(cfg, r) && IsQuorum(cfg.voters, q) && |cfg.voters| >= 2 && Present(Last(r), q) && a in q && Asks(cfg, Last(r), a, t)
    requires forall v :: v in q - {a} ==> Opinion(Last(r).nodes[v], a, t + 1) in Last(r).net && !Opinion(Last(r).nodes[v], a, t + 1).reject
    ensures Goes(cfg, r, r', q) && Worked(Last(r), Last(r'), a) && Last(r').nodes[a].log == Last(r).nodes[a].log
    ensures Campaigns(cfg, Last(r'), a, t + 1)
  {
    NodeNow(cfg, r, a);
    QuorumSizeIsMajority(cfg.voters, q);
    var p := SubsetOfSize(q - {a}, QuorumSize(cfg.voters) - 1);
    assert p != {};
    assert Last(r).nodes[a].votes.Keys == {} + {a};
    forall x | x in p ensures PreVoteResp(x, a, t + 1, false) in Last(r).net {
      NodeNow(cfg, r, x);
      assert x in q - {a};
    }
    r' := GoesAhead(cfg, r, q, a, t, {}, p);
  }

  /** Again and again, until it campaigns in a term beyond N. */
  lemma {:induction false} PreCampaignsBeyond(cfg: Config, r: Run, q: set<Id>, a: Id, N: nat) returns (r': Run)
    requires SoundRun(cfg, r) && cfg.preVote && IsQuorum(cfg.voters, q) && |cfg.voters| >= 2 && Present(Last(r), q)
    requires Best(Last(r), a, q) && Last(r).nodes[a].role != Leader && forall v :: v in q ==> Last(r).nodes[v].term <= N
    ensures Goes(cfg, r, r', q) && Worked(Last(r), Last(r'), a) && Last(r').nodes[a].log == Last(r).nodes[a].log
    ensures Campaigns(cfg, Last(r'), a, N + 1)
    decreases N - Last(r).nodes[a].term
  {
    var r1 := AsksAround(cfg, r, q, a);
    if Last(r1).nodes[a].term == N + 1 {
      r' := r1;
    } else {
      SameBest(Last(r), Last(r1), a, q);
      r' := PreCampaignsBeyond(cfg, r1, q, a, N);
      GoesOn(cfg, r, r1, r', q);
    }
  }

  // ---------------------------------------------------------------- the election

  /** A leader of an earlier term learns from the answer to its heartbeat that its time is over. */
  lemma HearsOfLaterTerm(cfg: Config, r: Run, q: set<Id>, a: Id, w: Id) returns (r': Run)
    requires SoundRun(cfg, r) && cfg.preVote && q <= cfg.voters && a in q && w in q && Present(Last(r), q)
    requires Last(r).nodes[a].role == Leader && Last(r).nodes[a].term < Last(r).nodes[w].term
    ensures Goes(cfg, r, r', q) && Last(r').nodes.Keys == Last(r).nodes.Keys && Last(r').nodes[a].role == Follower
    ensures forall v :: v in q ==> Last(r').nodes[v].log == Last(r).nodes[v].log
  {
    var t := Last(r).nodes[a].term;
    var n := LeaderNow(cfg, r, a, t);
    var f := Last(r).nodes[w];
    NodeNow(cfg, r, w);
    var r1 := Happen(cfg, r, a, Beat, q);
    assert BcastHeartbeat(n).(msgs := {}) == n;
    assert HeartbeatFor(n, w) in BcastHeartbeat(n).msgs;
    r' := IsToldOff(cfg, r1, q, a, w, HeartbeatFor(n, w));
    GoesOn(cfg, r, r1, r', q);
  }

  lemma IsToldOff(cfg: Config, r: Run, q: set<Id>, a: Id, w: Id, m: Message) returns (r': Run)
    requires SoundRun(cfg, r) && cfg.preVote && q <= cfg.voters && a in q && w in q && a != w && Present(Last(r), q)
    requires m in Last(r).net && m.Heartbeat? && m.from == a && m.to == w
    requires Last(r).nodes[a].term == m.term && 0 < m.term < Last(r).nodes[w].term
    ensures Goes(cfg, r, r', q) && Last(r').nodes.Keys == Last(r).nodes.Keys && Last(r').nodes[a].role == Follower
    ensures forall v :: v in q ==> Last(r').nodes[v].log == Last(r).nodes[v].log
  {
    var f := Last(r).nodes[w];
    NodeNow(cfg, r, w);
    StaleIsAnswered(cfg, f, m);
    var r2 := Receive(cfg, r, m, q);
    var x := AppResp(w, a, f.term, 0, false, 0);
    StepsDown(cfg, Last(r).nodes[a], x);
    r' := Receive(cfg, r2, x, q);
    GoesOn(cfg, r, r2, r', q);
  }

  lemma StaleIsAnswered(cfg: Config, f: Node, m: Message)
    requires cfg.preVote && m.Heartbeat? && 0 < m.term < f.term
    ensures Step(cfg, f, m, false) == f.(msgs := f.msgs + {AppResp(f.id, m.from, f.term, 0, false, 0)})
  {
  }

  lemma StepsDown(cfg: Config, n: Node, m: Message)
    requires m.AppResp? && m.term > n.term
    ensures Step(cfg, n, m, false) == BecomeFollower(cfg, n, m.term, 0)
  {
  }

  lemma WinsAloneToo(cfg: Config, r: Run, q: set<Id>, a: Id) returns (r': Run, t: nat)
    requires SoundRun(cfg, r) && cfg.preVote && q == cfg.voters && |q| == 1 && a in q
    requires a in Last(r).nodes && Last(r).nodes[a].role != Leader
    ensures Goes(cfg, r, r', q) && Led(Last(r'), a, t, q)
  {
    NodeNow(cfg, r, a);
    PreCampaignRule(cfg, Last(r).nodes[a]);
    r' := Happen(cfg, r, a, Hup, q);
    t := Last(r').nodes[a].term;
    OnlyOne(q, a);
  }

  lemma BestIsElectedToo(cfg: Config, r: Run, q: set<Id>, a: Id) returns (r': Run, t: nat)
    requires SoundRun(cfg, r) && cfg.preVote && IsQuorum(cfg.voters, q) && |cfg.voters| >= 2 && Present(Last(r), q)
    requires Best(Last(r), a, q) && Last(r).nodes[a].role != Leader
    ensures Goes(cfg, r, r', q) && Led(Last(r'), a, t, q)
  {
    var w := LatestTerm(Last(r), q);
    t := Last(r).nodes[w].term + 1;
    var r1 := PreCampaignsBeyond(cfg, r, q, a, t - 1);
    SameBest(Last(r), Last(r1), a, q);
    var r2 := AllVoteFor(cfg, r1, q, a, q - {a}, t);
    GoesOn(cfg, r, r1, r2, q);
    r' := MajorityElects(cfg, r2, q, a, t);
    GoesOn(cfg, r, r2, r', q);
  }

  /** From every state of a run in which no granted pre-vote reaches a candidate, every majority can come by a
      leader of its own, and the way there keeps to that. */
  lemma PreVoteElectsLeader(cfg: Config, r: Run, q: set<Id>) returns (r': Run, a: Id, t: nat)
    requires SoundRun(cfg, r) && cfg.preVote && IsQuorum(cfg.voters, q)
    ensures Goes(cfg, r, r', q) && Led(Last(r'), a, t, q)
  {
    forall v | v in q ensures v in Last(r).nodes { NodeNow(cfg, r, v); }
    assert q != {};
    var w := LatestTerm(Last(r), q);
    t := Last(r).nodes[w].term;
    if exists l :: l in q && Leads(Last(r), l, t) {
      a :| a in q && Leads(Last(r), a, t);
      GoesNowhere(cfg, r, q);
      r' := r;
    } else if |cfg.voters| == 1 {
      OneVoter(cfg.voters, q);
      a := w;
      assert !Leads(Last(r), w, t);
      r', t := WinsAloneToo(cfg, r, q, a);
    } else {
      a := BestLog(Last(r), q);
      var r1 := NotLeadingNow(cfg, r, q, a, w);
      r', t := BestIsElectedToo(cfg, r1, q, a);
      GoesOn(cfg, r, r1, r', q);
    }
  }

  lemma NotLeadingNow(cfg: Config, r: Run, q: set<Id>, a: Id, w: Id) returns (r': Run)
    requires SoundRun(cfg, r) && cfg.preVote && q <= cfg.voters && Present(Last(r), q) && Best(Last(r), a, q) && w in q
    requires forall v :: v in q ==> Last(r).nodes[v].term <= Last(r).nodes[w].term
    requires forall l :: l in q ==> !Leads(Last(r), l, Last(r).nodes[w].term)
    ensures Goes(cfg, r, r', q) && Present(Last(r'), q) && Best(Last(r'), a, q) && Last(r').nodes[a].role != Leader
  {
    GoesNowhere(cfg, r, q);
    r' := r;
    assert !Leads(Last(r), a, Last(r).nodes[w].term);
    if Last(r).nodes[a].role == Leader {
      r' := HearsOfLaterTerm(cfg, r, q, a, w);
      SameBest(Last(r), Last(r'), a, q);
    }
  }
}

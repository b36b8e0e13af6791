/** Any majority can elect a leader: the node with the best log of them campaigns in a term that is new to
    all of them, and their votes are enough. */
module Elections {
  import opened Types
  import opened LogModel
  import opened Quorum
  import opened RaftCore
  import opened Cluster
  import opened Invariant
  import opened Safety
  import opened NodeDuties
  import opened Continuations
  import opened CatchUp

  // ---------------------------------------------------------------- who should win

  ghost predicate Present(s: State, q: set<Id>) {
    forall v :: v in q ==> v in s.nodes
  }

  lemma {:induction false} LatestTerm(s: State, q: set<Id>) returns (w: Id)
    requires q != {} && Present(s, q)
    ensures w in q && forall v :: v in q ==> s.nodes[v].term <= s.nodes[w].term
    decreases q
  {
    var x :| x in q;
    if q == {x} {
      w := x;
    } else {
      w := LatestTerm(s, q - {x});
      if s.nodes[x].term > s.nodes[w].term { w := x; }
    }
  }

  /** The log of n is at least as up to date as that of f. */
  predicate Beats(n: Node, f: Node) {
    AtLeastAsUpToDate(|n.log|, TermAt(n.log, |n.log|), f)
  }

  ghost predicate Best(s: State, a: Id, q: set<Id>)
    requires Present(s, q)
  {
    a in q && forall v :: v in q ==> Beats(s.nodes[a], s.nodes[v])
  }

  lemma {:induction false} BestLog(s: State, q: set<Id>) returns (a: Id)
    requires q != {} && Present(s, q)
    ensures Best(s, a, q)
    decreases q
  {
    var x :| x in q;
    if q == {x} {
      a := x;
    } else {
      a := BestLog(s, q - {x});
      if !Beats(s.nodes[a], s.nodes[x]) { a := x; }
    }
  }

  // ---------------------------------------------------------------- a campaign in a new term

  function Request(n: Node, v: Id, t: nat): Message {
    Message.Vote(n.id, v, t, |n.log|, TermAt(n.log, |n.log|))
  }

  /** Node a campaigns in term t; it has its own vote, and has asked all the others. */
  ghost predicate Campaigns(cfg: Config, s: State, a: Id, t: nat) {
    && a in s.nodes && s.nodes[a].role == Candidate && s.nodes[a].term == t && s.nodes[a].votes == map[a := true]
    && forall v :: v in cfg.voters && v != a ==> Request(s.nodes[a], v, t) in s.net
  }

  lemma HupCampaigns(cfg: Config, n: Node)
    requires !cfg.preVote && n.role != Leader && n.id in n.prs && n.prs.Keys == cfg.voters && |cfg.voters| >= 2
    ensures var c := Local(cfg, n, Hup);
            && c.id == n.id && c.role == Candidate && c.term == n.term + 1 && c.log == n.log && c.votes == map[n.id := true]
            && forall v :: v in cfg.voters && v != n.id ==> Request(n, v, n.term + 1) in c.msgs
  {
    CampaignRule(cfg, n);
    forall v | v in cfg.voters && v != n.id ensures Request(n, v, n.term + 1) in Local(cfg, n, Hup).msgs {
      assert Request(n, v, n.term + 1) in VoteRequests(n);
    }
  }

  /** The election timer fires at a, until its term is beyond N. */
  lemma {:induction false} CampaignsBeyond(cfg: Config, r: Run, q: set<Id>, a: Id, N: nat) returns (r': Run)
    requires SoundRun(cfg, r) && !cfg.preVote && q <= cfg.voters && a in q && |cfg.voters| >= 2
    requires a in Last(r).nodes && Last(r).nodes[a].role != Leader && Last(r).nodes[a].term <= N
    ensures Goes(cfg, r, r', q) && Worked(Last(r), Last(r'), a) && Last(r').nodes[a].log == Last(r).nodes[a].log
    ensures Campaigns(cfg, Last(r'), a, N + 1)
    decreases N - Last(r).nodes[a].term
  {
    var n := Last(r).nodes[a];
    NodeNow(cfg, r, a);
    HupCampaigns(cfg, n);
    r' := Happen(cfg, r, a, Hup, q);
    if n.term < N {
      var r1 := r';
      r' := CampaignsBeyond(cfg, r1, q, a, N);
      GoesOn(cfg, r, r1, r', q);
    }
  }

  // ---------------------------------------------------------------- votes

  /** A vote for a, by a node of q that is behind its term. */
  lemma VotesFor(cfg: Config, r: Run, q: set<Id>, a: Id, v: Id, t: nat) returns (r': Run)
    requires SoundRun(cfg, r) && q <= cfg.voters && v in q && v != a && Campaigns(cfg, Last(r), a, t)
    requires v in Last(r).nodes && Last(r).nodes[v].term < t && Beats(Last(r).nodes[a], Last(r).nodes[v])
    ensures Goes(cfg, r, r', q) && Worked(Last(r), Last(r'), v) && VoteResp(v, a, t, false) in Last(r').net
    ensures Last(r').nodes[v].term == t && Last(r').nodes[v].log == Last(r).nodes[v].log
  {
    var n, f := Last(r).nodes[a], Last(r).nodes[v];
    var h := Now(cfg, r);
    assert NodeFits(cfg, Last(r), h, a);
    NodeNow(cfg, r, v);
    LaterVoteRule(cfg, f, a, t, |n.log|, TermAt(n.log, |n.log|), false);
    assert Request(n, v, t) in Last(r).net;
    r' := Receive(cfg, r, Request(n, v, t), q);
  }

  /** They all vote for a. */
  lemma {:induction false} AllVoteFor(cfg: Config, r: Run, q: set<Id>, a: Id, vs: set<Id>, t: nat) returns (r': Run)
    requires SoundRun(cfg, r) && q <= cfg.voters && Present(Last(r), q) && vs <= q - {a} && a in q && Campaigns(cfg, Last(r), a, t)
    requires forall v :: v in vs ==> Last(r).nodes[v].term < t && Beats(Last(r).nodes[a], Last(r).nodes[v])
    ensures Goes(cfg, r, r', q) && Last(r').nodes.Keys == Last(r).nodes.Keys && Last(r').nodes[a] == Last(r).nodes[a]
    ensures Last(r).net <= Last(r').net
    ensures forall v :: v in vs ==> Last(r').nodes[v].term == t && VoteResp(v, a, t, false) in Last(r').net
    ensures forall v :: v in Last(r).nodes && v !in vs ==> Last(r').nodes[v] == Last(r).nodes[v]
    decreases vs
  {
    if vs == {} {
      GoesNowhere(cfg, r, q);
      r' := r;
    } else {
      var v :| v in vs;
      var r1 := AllVoteFor(cfg, r, q, a, vs - {v}, t);
      r' := VotesFor(cfg, r1, q, a, v, t);
      GoesOn(cfg, r, r1, r', q);
    }
  }

  // ---------------------------------------------------------------- the count

  /** Candidate a has its own vote and those of `from`. */
  ghost predicate HasVotes(cfg: Config, n: Node, a: Id, t: nat, from: set<Id>) {
    && n.id == a && n.role == Candidate && n.term == t && n.prs.Keys == cfg.voters
    && n.votes.Keys == from + {a} && forall x :: x in n.votes ==> n.votes[x]
  }

  lemma OneMoreVote(cfg: Config, n: Node, a: Id, t: nat, from: set<Id>, x: Id)
    requires cfg.Valid() && HasVotes(cfg, n, a, t, from) && a in cfg.voters && a !in from && x !in from && x != a && t > 0
    requires |from| + 2 <= QuorumSize(cfg.voters)
    ensures var r := Step(cfg, n, VoteResp(x, a, t, false), false);
            if |from| + 2 == QuorumSize(cfg.voters) then r.role == Leader && r.term == t
            else HasVotes(cfg, r, a, t, from + {x})
  {
    var m := VoteResp(x, a, t, false);
    assert Step(cfg, n, m, false) == OnVoteResp(cfg, n, m);
    VoteCountRule(cfg, n, m);
    var yes := GrantedWith(n, x, true);
    assert yes == from + {a} + {x};
    assert n.votes.Keys + {x} - yes == {};
    AllGranted(OnVoteResp(cfg, n, m), yes);
  }

  lemma AllGranted(n: Node, yes: set<Id>)
    ensures Granted(n.votes) == yes && n.votes.Keys == yes ==> forall x :: x in n.votes ==> n.votes[x]
  {
    if Granted(n.votes) == yes && n.votes.Keys == yes {
      forall x | x in n.votes ensures n.votes[x] { assert x in Granted(n.votes); }
    }
  }

  /** The votes of `p` reach the candidate one after the other, and it wins. */
  lemma {:induction false} WinsWith(cfg: Config, r: Run, q: set<Id>, a: Id, t: nat, from: set<Id>, p: set<Id>) returns (r': Run)
    requires SoundRun(cfg, r) && q <= cfg.voters && a in q && a in Last(r).nodes && HasVotes(cfg, Last(r).nodes[a], a, t, from)
    requires a !in p && from < p && |p| == QuorumSize(cfg.voters) - 1 && t > 0
    requires forall x :: x in p ==> VoteResp(x, a, t, false) in Last(r).net
    ensures Goes(cfg, r, r', q) && Worked(Last(r), Last(r'), a) && Leads(Last(r'), a, t)
    decreases p - from
  {
    var x := Missing(from, p);
    OneMoreVote(cfg, Last(r).nodes[a], a, t, from, x);
    r' := Receive(cfg, r, VoteResp(x, a, t, false), q);
    if |from| + 2 < QuorumSize(cfg.voters) {
      var r1 := r';
      assert from + {x} != p;
      r' := WinsWith(cfg, r1, q, a, t, from + {x}, p);
      GoesOn(cfg, r, r1, r', q);
    }
  }

  // ---------------------------------------------------------------- the election

  /** A leader of an earlier term learns from the campaign of w that its time is over. */
  lemma StandsDown(cfg: Config, r: Run, q: set<Id>, a: Id, w: Id) returns (r': Run)
    requires SoundRun(cfg, r) && !cfg.preVote && q <= cfg.voters && a in q && w in q && Present(Last(r), q)
    requires Last(r).nodes[w].role != Leader && Last(r).nodes[a].term < Last(r).nodes[w].term
    ensures Goes(cfg, r, r', q) && Present(Last(r'), q) && Last(r').nodes[a].role == Follower
    ensures forall v :: v in q ==> Last(r').nodes[v].log == Last(r).nodes[v].log
  {
    TwoVoters(cfg.voters, a, w);
    var T := Last(r).nodes[w].term;
    var r1 := CampaignsBeyond(cfg, r, q, w, T);
    r' := HearsCampaign(cfg, r1, q, a, w, T + 1);
    GoesOn(cfg, r, r1, r', q);
  }

  lemma HearsCampaign(cfg: Config, r: Run, q: set<Id>, a: Id, w: Id, t: nat) returns (r': Run)
    requires SoundRun(cfg, r) && q <= cfg.voters && a in q && w in q && a != w && a in Last(r).nodes
    requires Campaigns(cfg, Last(r), w, t) && Last(r).nodes[a].term < t
    ensures Goes(cfg, r, r', q) && Worked(Last(r), Last(r'), a)
    ensures Last(r').nodes[a].role == Follower && Last(r').nodes[a].log == Last(r).nodes[a].log
  {
    var n, f := Last(r).nodes[w], Last(r).nodes[a];
    NodeNow(cfg, r, w);
    NodeNow(cfg, r, a);
    assert Request(n, a, t) in Last(r).net;
    LaterVoteRule(cfg, f, w, t, |n.log|, TermAt(n.log, |n.log|), false);
    r' := Receive(cfg, r, Request(n, a, t), q);
  }

  lemma TwoVoters(voters: set<Id>, a: Id, w: Id)
    requires a in voters && w in voters && a != w
    ensures |voters| >= 2
  {
    SubsetSize({a, w}, voters);
  }

  lemma OnlyOne(q: set<Id>, a: Id)
    requires |q| == 1 && a in q
    ensures q == {a}
  {
    if q != {a} {
      var w :| w in q && w != a;
      TwoVoters(q, a, w);
    }
  }

  /** A single voter wins at once. */
  lemma WinsAlone(cfg: Config, r: Run, q: set<Id>, a: Id) returns (r': Run, t: nat)
    requires SoundRun(cfg, r) && !cfg.preVote && q == cfg.voters && |q| == 1 && a in q
    requires a in Last(r).nodes && Last(r).nodes[a].role != Leader
    ensures Goes(cfg, r, r', q) && Led(Last(r'), a, t, q)
  {
    NodeNow(cfg, r, a);
    CampaignRule(cfg, Last(r).nodes[a]);
    r' := Happen(cfg, r, a, Hup, q);
    t := Last(r').nodes[a].term;
    OnlyOne(q, a);
  }

  /** The node with the best log of a majority is elected by it. */
  lemma BestIsElected(cfg: Config, r: Run, q: set<Id>, a: Id) returns (r': Run, t: nat)
    requires SoundRun(cfg, r) && !cfg.preVote && IsQuorum(cfg.voters, q) && |cfg.voters| >= 2 && Present(Last(r), q)
    requires Best(Last(r), a, q) && Last(r).nodes[a].role != Leader
    ensures Goes(cfg, r, r', q) && Led(Last(r'), a, t, q)
  {
    var w := LatestTerm(Last(r), q);
    t := Last(r).nodes[w].term + 1;
    var r1 := CampaignsBeyond(cfg, r, q, a, t - 1);
    var r2 := AllVoteFor(cfg, r1, q, a, q - {a}, t);
    GoesOn(cfg, r, r1, r2, q);
    r' := MajorityElects(cfg, r2, q, a, t);
    GoesOn(cfg, r, r2, r', q);
  }

  lemma MajorityElects(cfg: Config, r: Run, q: set<Id>, a: Id, t: nat) returns (r': Run)
    requires SoundRun(cfg, r) && IsQuorum(cfg.voters, q) && |cfg.voters| >= 2 && Present(Last(r), q) && a in q && t > 0
    requires Campaigns(cfg, Last(r), a, t)
    requires forall v :: v in q - {a} ==> VoteResp(v, a, t, false) in Last(r).net && Last(r).nodes[v].term <= t
    ensures Goes(cfg, r, r', q) && Led(Last(r'), a, t, q)
  {
    NodeNow(cfg, r, a);
    QuorumSizeIsMajority(cfg.voters, q);
    var p := SubsetOfSize(q - {a}, QuorumSize(cfg.voters) - 1);
    assert Last(r).nodes[a].votes.Keys == {} + {a};
    assert p != {};
    r' := WinsWith(cfg, r, q, a, t, {}, p);
  }

  /** From every state of a run without pre-vote, every majority can come by a leader of its own. */
  lemma MajorityElectsLeader(cfg: Config, r: Run, q: set<Id>) returns (r': Run, a: Id, t: nat)
    requires SoundRun(cfg, r) && !cfg.preVote && IsQuorum(cfg.voters, q)
    ensures Goes(cfg, r, r', q) && Led(Last(r'), a, t, q)
  {
    forall v | v in q ensures v in Last(r).nodes { NodeNow(cfg, r, v); }
    assert q != {};
    var w := LatestTerm(Last(r), q);
    t := Last(r).nodes[w].term;
    if exists l :: l in q && Leads(Last(r), l, t) {
      a :| a in q && Leads(Last(r), a, t);
      GoesNowhere(cfg, r, q);
      r' := r;
    } else if |cfg.voters| == 1 {
      OneVoter(cfg.voters, q);
      a := w;
      r', t := WinsAlone(cfg, r, q, a);
    } else {
      a := BestLog(Last(r), q);
      var r1 := NotLeading(cfg, r, q, a, w);
      r', t := BestIsElected(cfg, r1, q, a);
      GoesOn(cfg, r, r1, r', q);
    }
  }

  lemma OneVoter(voters: set<Id>, q: set<Id>)
    requires |voters| == 1 && IsQuorum(voters, q)
    ensures q == voters && |q| == 1
  {
    SubsetSize(q, voters);
    if q != voters {
      var x :| x in voters && x !in q;
      SubsetSize(q + {x}, voters);
    }
  }

  /** The node with the best log is no leader, or stands down. */
  lemma NotLeading(cfg: Config, r: Run, q: set<Id>, a: Id, w: Id) returns (r': Run)
    requires SoundRun(cfg, r) && !cfg.preVote && q <= cfg.voters && Present(Last(r), q) && Best(Last(r), a, q) && w in q
    requires forall v :: v in q ==> Last(r).nodes[v].term <= Last(r).nodes[w].term
    requires forall l :: l in q ==> !Leads(Last(r), l, Last(r).nodes[w].term)
    ensures Goes(cfg, r, r', q) && Present(Last(r'), q) && Best(Last(r'), a, q) && Last(r').nodes[a].role != Leader
  {
    GoesNowhere(cfg, r, q);
    r' := r;
    assert !Leads(Last(r), a, Last(r).nodes[w].term) && !Leads(Last(r), w, Last(r).nodes[w].term);
    if Last(r).nodes[a].role == Leader {
      r' := StandsDown(cfg, r, q, a, w);
    }
  }
}

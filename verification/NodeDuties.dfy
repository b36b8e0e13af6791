/** What a node must do, beside what it must not: when a commit index moves, when a vote is
    given, what an entry carries, whom a broadcast reaches.  Safety alone would allow a node that
    does none of this. */
module NodeDuties {
  import opened Types
  import opened LogModel
  import opened ProgressModel
  import opened EntrySize
  import opened Quorum
  import opened RaftCore
  import opened FlowControl

  // ---------------------------------------------------------------- the commit index

  /** The entry at this index is there, and of the present term. */
  predicate OfPresentTerm(n: Node, i: nat) {
    0 < i <= |n.log| && n.log[i - 1].term == n.term
  }

  /** The commit index moves if and only if the largest index that a majority has reached lies above it
      and its entry is of the present term; it moves exactly there, and nothing else changes. */
  lemma CommitRule(n: Node, i: nat)
    requires n.prs.Keys != {} && n.term > 0 && IsQuorumIndex(Matches(n), i)
    ensures MaybeCommit(n) == if i > n.commit && OfPresentTerm(n, i) then (n.(commit := i), true) else (n, false)
  {
    assert Matches(n).Keys == n.prs.Keys;
    QuorumIndexUnique(Matches(n), i, QuorumIndex(Matches(n)));
  }

  /** No index of the present term that a majority has reached is left above the commit index. */
  ghost predicate CommitsAll(n: Node) {
    forall i: nat :: MajorityReached(Matches(n), i) && OfPresentTerm(n, i) ==> i <= n.commit
  }

  /** The terms of a log that ends in the present term, never going down and never beyond it: from an
      entry of the present term on all are. */
  ghost predicate EndsInPresent(n: Node) {
    forall i, j :: 0 <= i <= j < |n.log| ==> n.log[i].term <= n.log[j].term <= n.term
  }

  /** After `maybe_commit` that is so. */
  lemma CommitLeavesNothing(n: Node)
    requires n.prs.Keys != {} && n.term > 0 && EndsInPresent(n)
    requires forall v :: v in n.prs ==> n.prs[v].matched <= |n.log|
    ensures CommitsAll(MaybeCommit(n).0)
  {
    var r := MaybeCommit(n).0;
    assert Matches(n).Keys == n.prs.Keys;
    var top := QuorumIndex(Matches(n));
    CommitRule(n, top);
    assert Matches(r) == Matches(n);
    ReachedIsMatched(n, top);
    forall i: nat | MajorityReached(Matches(r), i) && OfPresentTerm(r, i) ensures i <= r.commit {
      assert i <= top;
      assert n.log[i - 1].term <= n.log[top - 1].term;
    }
  }

  lemma ReachedIsMatched(n: Node, i: nat)
    requires MajorityReached(Matches(n), i)
    ensures exists v :: v in n.prs && n.prs[v].matched >= i
  {
    var reached := Reached(Matches(n), i);
    assert reached != {};
    var v :| v in reached;
    assert v in n.prs && n.prs[v].matched >= i;
  }

  // ---------------------------------------------------------------- votes

  /** The candidate's log ends in a later term, or in the same term and is at least as long. */
  predicate AtLeastAsUpToDate(index: nat, logTerm: nat, n: Node) {
    logTerm > TermAt(n.log, |n.log|) || (logTerm == TermAt(n.log, |n.log|) && index >= |n.log|)
  }

  /** A vote of the present term is given, and recorded, if and only if it has not gone to anyone else,
      no leader is known unless it was given to the asker already, and the asker's log is at least as
      up to date.  Otherwise it is refused and nothing changes. */
  lemma VoteRule(n: Node, from: Id, index: nat, logTerm: nat)
    ensures var r := HandleVote(n, Vote(from, n.id, n.term, index, logTerm));
            var yes, no := VoteResp(n.id, from, n.term, false), VoteResp(n.id, from, n.term, true);
            var gives := (n.vote == from || (n.vote == 0 && n.lead == 0)) && AtLeastAsUpToDate(index, logTerm, n);
            && r.msgs == n.msgs + {if gives then yes else no}
            && r == n.(vote := if gives then from else n.vote, msgs := r.msgs, fatal := n.fatal || n.term == 0)
  {
  }

  /** A pre-vote is given on the same terms, or for a later term whatever the vote and the leader; it is
      never recorded. */
  lemma PreVoteRule(n: Node, from: Id, term: nat, index: nat, logTerm: nat)
    requires term >= n.term
    ensures var r := HandleVote(n, PreVote(from, n.id, term, index, logTerm));
            var yes, no := PreVoteResp(n.id, from, term, false), PreVoteResp(n.id, from, n.term, true);
            var gives := (term > n.term || n.vote == from || (n.vote == 0 && n.lead == 0)) && AtLeastAsUpToDate(index, logTerm, n);
            && r.msgs == n.msgs + {if gives then yes else no}
            && r == n.(msgs := r.msgs, fatal := r.fatal)
  {
  }

  /** A request of a later term, unless the lease of a known leader is still running, is judged after the
      voter has entered that term, so that neither an old vote nor an old leader stands against it. */
  lemma LaterVoteRule(cfg: Config, n: Node, from: Id, term: nat, index: nat, logTerm: nat, inLease: bool)
    requires term > n.term
    ensures var r := Step(cfg, n, Vote(from, n.id, term, index, logTerm), inLease);
            if cfg.checkQuorum && n.lead != 0 && inLease then r == n
            else
              && r.term == term && r.role == Follower && r.lead == 0 && r.log == n.log && r.commit == n.commit
              && r.vote == (if AtLeastAsUpToDate(index, logTerm, n) then from else 0)
              && r.msgs == n.msgs + {VoteResp(n.id, from, term, !AtLeastAsUpToDate(index, logTerm, n))}
  {
    var f := BecomeFollower(cfg, n, term, 0);
    assert Step(cfg, n, Vote(from, n.id, term, index, logTerm), false) == HandleVote(f, Vote(from, n.id, term, index, logTerm));
    VoteRule(f, from, index, logTerm);
  }

  /** The requests of a candidate: one to every other voter, for its new term, with the end of its log. */
  function VoteRequests(n: Node): set<Message> {
    set v | v in n.prs && v != n.id :: Message.Vote(n.id, v, n.term + 1, |n.log|, TermAt(n.log, |n.log|))
  }

  /** A campaign enters the next term with the node's own vote, and asks every other voter; a single voter
      has won with that. */
  lemma CampaignRule(cfg: Config, n: Node)
    requires n.id in n.prs
    ensures var c := CampaignElection(cfg, n);
            && c.term == n.term + 1 && c.vote == n.id && n.log <= c.log
            && (|n.prs.Keys| >= 2 ==>
                  && c.role == Candidate && c.lead == 0 && c.log == n.log && c.commit == n.commit
                  && c.votes == map[n.id := true] && c.prs.Keys == n.prs.Keys
                  && c.msgs == n.msgs + VoteRequests(n))
            && (|n.prs.Keys| == 1 ==> c.role == Leader && c.lead == n.id)
  {
    var c := BecomeCandidate(cfg, n);
    var p := Poll(c, c.id, true);
    assert Granted(p.votes) == {n.id};
    assert p.prs.Keys == n.prs.Keys;
    var asked := set v | v in p.prs && v != p.id :: Message.Vote(p.id, v, p.term, p.Last(), p.LogOf().LastTerm());
    assert asked == VoteRequests(n);
    if |n.prs.Keys| == 1 { LeaderRule(cfg, p); }
  }

  function PreVoteRequests(n: Node): set<Message> {
    set v | v in n.prs && v != n.id :: Message.PreVote(n.id, v, n.term + 1, |n.log|, TermAt(n.log, |n.log|))
  }

  /** A pre-campaign asks every other voter about the next term, and changes neither term nor vote; a single
      voter goes on to win at once. */
  lemma PreCampaignRule(cfg: Config, n: Node)
    requires n.id in n.prs
    ensures var c := CampaignPreElection(cfg, n);
            && (|n.prs.Keys| >= 2 ==>
                  c == n.(votes := map[n.id := true], lead := 0, role := PreCandidate, fatal := c.fatal, msgs := n.msgs + PreVoteRequests(n)))
            && (|n.prs.Keys| == 1 ==> c.role == Leader && c.term == n.term + 1)
  {
    var c := BecomePreCandidate(n);
    var p := Poll(c, c.id, true);
    assert Granted(p.votes) == {n.id};
    var asked := set v | v in p.prs && v != p.id :: Message.PreVote(p.id, v, p.term + 1, p.Last(), p.LogOf().LastTerm());
    assert asked == PreVoteRequests(n);
    if |n.prs.Keys| == 1 { CampaignRule(cfg, p); }
  }

  /** A new leader keeps its log, adds one empty entry of its term, and begins to probe every other voter at
      that entry. */
  lemma LeaderRule(cfg: Config, n: Node)
    requires n.id in n.prs
    ensures var l := BecomeLeader(cfg, n);
            && l.role == Leader && l.lead == n.id && l.term == n.term && l.vote == n.vote
            && l.log == n.log + [Entry(n.term, |n.log| + 1, EntryNormal, [])]
            && l.prs.Keys == n.prs.Keys && l.msgs == n.msgs
            && (forall v :: v in n.prs && v != n.id ==> Unprobed(l.prs[v], |n.log|))
            && l.prs[n.id].matched == |l.log|
  {
    var r := Reset(cfg, n, n.term).(lead := n.id, role := Leader, fatal := n.fatal || n.role == Follower);
    var self := r.(prs := r.prs[n.id := r.prs[n.id].BecomeReplicate()]);
    AppendRule(self, [Payload(EntryNormal, [])]);
  }

  /** Nothing is known of this follower yet; probing begins behind `last`. */
  predicate Unprobed(p: Progress, last: nat) {
    p.state == Probe && p.matched == 0 && p.next == last + 1 && !p.paused && !p.recentActive && p.ins.q == []
  }

  /** Who has granted a vote, once this answer is counted: a second answer of the same voter is not. */
  function GrantedWith(n: Node, from: Id, granted: bool): set<Id> {
    set v | v in n.votes.Keys + {from} && (if v in n.votes then n.votes[v] else granted)
  }

  /** The answer that brings the granted votes up to the quorum size makes a candidate leader, and one
      that brings the refusals there makes it give up; otherwise it waits. */
  lemma VoteCountRule(cfg: Config, n: Node, m: Message)
    requires n.role == Candidate && n.id in n.prs && m.VoteResp?
    ensures var r, yes := OnVoteResp(cfg, n, m), GrantedWith(n, m.from, !m.reject);
            var no := n.votes.Keys + {m.from} - yes;
            && r.term == n.term
            && (r.role == Leader <==> |yes| == QuorumSize(n.prs.Keys))
            && (r.role == Follower <==> |yes| != QuorumSize(n.prs.Keys) && |no| == QuorumSize(n.prs.Keys))
            && (r.role == Leader ==>
                  && r.log == n.log + [Entry(n.term, |n.log| + 1, EntryNormal, [])]
                  && forall v :: v in n.prs && v != n.id ==> exists m :: m in r.msgs && m.App? && m.to == v && m.term == n.term && m.index == |n.log|)
            && (r.role == Candidate || r.role == Leader || r.role == Follower)
            && (r.role == Candidate ==> r == n.(votes := r.votes) && r.votes.Keys == n.votes.Keys + {m.from} && Granted(r.votes) == yes)
  {
    var p := Poll(n, m.from, !m.reject);
    PollRule(n, m.from, !m.reject);
    if |Granted(p.votes)| == QuorumSize(n.prs.Keys) {
      WonRule(cfg, p);
      var l, r := BecomeLeader(cfg, p), OnVoteResp(cfg, n, m);
      LeaderRule(cfg, p);
      forall v | v in n.prs && v != n.id ensures exists m :: m in r.msgs && m.App? && m.to == v && m.term == n.term && m.index == |n.log| {
        assert SentAppend(l, r.msgs, v, |n.log|);
        var a :| a in r.msgs && IsAppendAt(l, a, v, |n.log|);
      }
    }
  }

  lemma PollRule(n: Node, from: Id, granted: bool)
    ensures var p, yes := Poll(n, from, granted), GrantedWith(n, from, granted);
            && p == n.(votes := p.votes) && p.votes.Keys == n.votes.Keys + {from} && Granted(p.votes) == yes
            && |p.votes| - |yes| == |n.votes.Keys + {from} - yes|
  {
    var p, yes := Poll(n, from, granted), GrantedWith(n, from, granted);
    forall v ensures v in Granted(p.votes) <==> v in yes {}
    assert p.votes.Keys == n.votes.Keys + {from};
    Parts(p.votes.Keys, yes);
  }

  lemma Parts(all: set<Id>, some: set<Id>)
    requires some <= all
    ensures |all - some| == |all| - |some|
  {
    assert all == some + (all - some);
  }

  /** The winner announces itself: its first entry goes to every other voter at once. */
  lemma WonRule(cfg: Config, p: Node)
    requires p.id in p.prs
    ensures var l := BecomeLeader(cfg, p);
            var r := BcastAppend(cfg, l);
            && r.role == Leader && r.term == p.term && r.log == p.log + [Entry(p.term, |p.log| + 1, EntryNormal, [])]
            && forall v :: v in p.prs && v != p.id ==> SentAppend(l, r.msgs, v, |p.log|)
  {
    LeaderRule(cfg, p);
    var l := BecomeLeader(cfg, p);
    forall v | v in p.prs && v != p.id ensures SentAppend(l, BcastAppend(cfg, l).msgs, v, |p.log|) {
      assert Unprobed(l.prs[v], |p.log|);
      BroadcastRule(cfg, l, v);
    }
  }

  // ---------------------------------------------------------------- what an entry carries

  /** The entries of these payloads, in their order, of this term, from this index on. */
  ghost predicate Carries(es: seq<Entry>, payloads: seq<Payload>, term: nat, first: nat) {
    && |es| == |payloads|
    && forall i {:trigger es[i]} :: 0 <= i < |es| ==>
         es[i].term == term && es[i].index == first + i && es[i].typ == payloads[i].typ && es[i].data == payloads[i].data
  }

  /** An append adds exactly the entries of the payloads at the end of the log. */
  lemma AppendRule(n: Node, payloads: seq<Payload>)
    ensures var r := AppendEntry(n, payloads);
            && |r.log| == |n.log| + |payloads| && r.log[..|n.log|] == n.log
            && Carries(r.log[|n.log|..], payloads, n.term, |n.log| + 1)
            && r.term == n.term && r.vote == n.vote && r.role == n.role && r.lead == n.lead && r.msgs == n.msgs
            && r.prs.Keys == n.prs.Keys
            && (n.id in n.prs ==> r.prs[n.id].matched == Max(n.prs[n.id].matched, |r.log|))
            && (|n.log| < n.commit ==> r.fatal)
            && forall v :: v in n.prs && v != n.id ==> r.prs[v] == n.prs[v]
  {
    var r := AppendEntry(n, payloads);
    var es := r.log[|n.log|..];
    forall i | 0 <= i < |es| ensures es[i] == Entry(n.term, |n.log| + 1 + i, payloads[i].typ, payloads[i].data) {
      assert es[i] == r.log[|n.log| + i];
    }
  }

  /** A proposal at a leader, of a local client or forwarded, is at the end of its log afterwards. */
  lemma ProposalRule(cfg: Config, n: Node, payloads: seq<Payload>)
    requires n.role == Leader
    ensures var r := Local(cfg, n, Client(payloads));
            && |r.log| == |n.log| + |payloads| && r.log[..|n.log|] == n.log
            && Carries(r.log[|n.log|..], payloads, n.term, |n.log| + 1)
            && r.role == Leader && r.term == n.term && (payloads == [] ==> r.fatal)
            && (forall v :: v in n.prs && v != n.id && !n.prs[v].IsPaused() && n.prs[v].next > 0 ==>
                  SentAppend(r, r.msgs, v, n.prs[v].next - 1))
            && forall m: Message :: m.Prop? && m.payloads == payloads && m.term == n.term ==> Step(cfg, n, m, false) == r
  {
    var n0 := n.(fatal := n.fatal || payloads == []);
    AppendRule(n0, payloads);
    var a, r := AppendEntry(n0, payloads), Local(cfg, n, Client(payloads));
    assert r == BcastAppend(cfg, a);
    forall v | v in n.prs && v != n.id && !n.prs[v].IsPaused() && n.prs[v].next > 0
      ensures SentAppend(r, r.msgs, v, n.prs[v].next - 1) {
      BroadcastRule(cfg, a, v);
      SentBySame(a, r, r.msgs, v, n.prs[v].next - 1);
    }
  }

  /** A follower hands a proposal to the leader it knows, as it is, if it may; a candidate drops it. */
  lemma ForwardRule(cfg: Config, n: Node, payloads: seq<Payload>)
    requires n.role != Leader
    ensures var r := Local(cfg, n, Client(payloads));
            if n.role == Follower && n.lead != 0 && cfg.forwardProposals then
              r == n.(msgs := n.msgs + {Prop(n.id, n.lead, n.term, payloads)})
            else r == n
  {
  }

  /** A restarted node has its term, its vote and its log, follows nobody, and knows nothing of the others. */
  lemma RestartRule(cfg: Config, n: Node, commit: nat)
    ensures var r := Restart(cfg, n, commit);
            && r.id == n.id && r.term == n.term && r.vote == n.vote && r.log == n.log && r.commit == commit
            && r.role == Follower && r.lead == 0 && r.votes == map[] && r.msgs == {} && r.prs.Keys == cfg.voters
            && (r.fatal <==> commit > |n.log|)
            && forall v :: v in cfg.voters && v != n.id ==> Unprobed(r.prs[v], |n.log|)
  {
  }

  // ---------------------------------------------------------------- whom the leader reaches

  /** An append for v is among the messages: from the leader, of its term, with its commit index, right behind
      `index`, carrying something if the log goes on there. */
  ghost predicate SentAppend(n: Node, msgs: set<Message>, v: Id, index: nat) {
    exists m {:trigger m in msgs} :: m in msgs && IsAppendAt(n, m, v, index)
  }

  predicate IsAppendAt(n: Node, m: Message, v: Id, index: nat) {
    && m.App? && m.to == v && m.from == n.id && m.term == n.term && m.commit == n.commit
    && m.index == index && m.logTerm == TermAt(n.log, index)
    && (if index < |n.log| then m.entries != [] && m.entries <= n.log[index..] else m.entries == [])
  }

  /** A broadcast sends to every other follower that is not held back, from the index that is next for it
      on, and to nobody else. */
  lemma BroadcastRule(cfg: Config, n: Node, v: Id)
    requires v in n.prs
    ensures var r := BcastAppend(cfg, n);
            && r.log == n.log && r.commit == n.commit && r.prs.Keys == n.prs.Keys
            && (v != n.id && !n.prs[v].IsPaused() && n.prs[v].next > 0 ==> SentAppend(n, r.msgs, v, n.prs[v].next - 1))
            && (v != n.id ==> r.prs[v] == SendAppend(cfg, n, v).prs[v])
            && (v == n.id || n.prs[v].IsPaused() ==>
                  r.prs[v] == n.prs[v] && forall m :: m in r.msgs && m !in n.msgs ==> m.to != v)
            && n.msgs <= r.msgs
  {
    var r := BcastAppend(cfg, n);
    if v != n.id && !n.prs[v].IsPaused() && n.prs[v].next > 0 {
      var m := AppendFor(cfg, n, n.prs[v], v, true).msg;
      assert m in r.msgs;
      if m.index < |n.log| { PrefixLimited(cfg.maxMsgSize, n.log[m.index..]); }
      assert IsAppendAt(n, m, v, m.index);
    }
  }

  lemma PrefixLimited(maxSize: nat, es: seq<Entry>)
    requires es != []
    ensures LimitSize(maxSize, es) != [] && LimitSize(maxSize, es) <= es
  {
  }

  /** A heartbeat goes to every other follower and to nobody else, and tells it to commit as far as both
      its match index and the leader's commit index go. */
  lemma HeartbeatRule(n: Node, v: Id, m: Message)
    requires n.msgs == {}
    ensures m in BcastHeartbeat(n).msgs && m.to == v <==>
              v in n.prs && v != n.id && m == Heartbeat(n.id, v, n.term, if n.prs[v].matched < n.commit then n.prs[v].matched else n.commit)
    ensures BcastHeartbeat(n) == n.(msgs := BcastHeartbeat(n).msgs)
  {
  }

  /** A heartbeat moves the follower's commit index up to what it says, if that lies in the log; beyond it
      the follower aborts.  It is always answered. */
  lemma HeartbeatCommitRule(n: Node, m: Message)
    requires m.Heartbeat?
    ensures var r := HandleHeartbeat(n, m);
            && r.msgs == n.msgs + {HeartbeatResp(n.id, m.from, n.term)}
            && r.log == n.log && r.term == n.term && r.role == n.role && r.lead == n.lead && r.vote == n.vote
            && (m.commit <= |n.log| ==> r.commit == Max(n.commit, m.commit) && r.fatal == n.fatal)
            && (m.commit > |n.log| && m.commit > n.commit ==> r.commit == n.commit && r.fatal)
  {
  }

  /** An answered heartbeat wakes a probe up: unless the follower has everything, it is sent the next
      append at once.  So does a window with room. */
  lemma HeartbeatRespRule(cfg: Config, n: Node, v: Id)
    requires v in n.prs && PrOk(n.prs[v], |n.log|, cfg.maxInflight) && n.prs[v].matched < |n.log|
    requires n.prs[v].state == Probe || |n.prs[v].ins.q| < n.prs[v].ins.size
    ensures var r := OnHeartbeatResp(cfg, n, v);
            && r.prs[v].recentActive && r.log == n.log && r.commit == n.commit
            && SentAppend(n, r.msgs, v, n.prs[v].next - 1)
  {
    SendReaches(cfg, SetProgress(n, v, n.prs[v].OnHeartbeatResp()), v);
  }

  /** An append that nothing holds back goes out. */
  lemma SendReaches(cfg: Config, n: Node, v: Id)
    requires v in n.prs && !n.prs[v].IsPaused() && n.prs[v].next > 0
    ensures SentAppend(n, SendAppend(cfg, n, v).msgs, v, n.prs[v].next - 1)
  {
    var m := AppendFor(cfg, n, n.prs[v], v, true).msg;
    assert m in SendAppend(cfg, n, v).msgs;
    if m.index < |n.log| { PrefixLimited(cfg.maxMsgSize, n.log[m.index..]); }
  }

  /** A rejected append that counts is followed at once by another one, lower down. */
  lemma RejectedRule(cfg: Config, n: Node, m: Message)
    requires m.AppResp? && m.reject && m.from in n.prs && PrOk(n.prs[m.from], |n.log|, cfg.maxInflight)
    requires if n.prs[m.from].state == Replicate then m.index > n.prs[m.from].matched else m.index == n.prs[m.from].next - 1
    ensures var r := OnAppResp(cfg, n, m);
            && r.log == n.log && r.commit == n.commit && r.prs[m.from].recentActive && r.prs[m.from].state == Probe
            && exists index: nat :: SentAppend(n, r.msgs, m.from, index)
                                    && index <= m.index && index <= Max(m.rejectHint, n.prs[m.from].matched)
  {
    var d := n.prs[m.from].(recentActive := true).MaybeDecreaseTo(m.index, m.rejectHint).0;
    var p := if d.state == Replicate then d.BecomeProbe() else d;
    var s := SetProgress(n, m.from, p);
    SendReaches(cfg, s, m.from);
    SentBySame(s, n, OnAppResp(cfg, n, m).msgs, m.from, p.next - 1);
  }

  lemma SentBySame(s: Node, n: Node, msgs: set<Message>, v: Id, index: nat)
    requires SentAppend(s, msgs, v, index) && s.id == n.id && s.term == n.term && s.commit == n.commit && s.log == n.log
    ensures SentAppend(n, msgs, v, index)
  {
    var m :| m in msgs && IsAppendAt(s, m, v, index);
    assert IsAppendAt(n, m, v, index);
  }

  /** An accepted append that brings news moves the match index, then the commit index as far as the commit
      rule allows, and is followed by everything else that can be sent. */
  lemma AcceptedRule(cfg: Config, n: Node, m: Message)
    requires m.AppResp? && !m.reject && m.from in n.prs && m.index > n.prs[m.from].matched
    ensures var p := n.prs[m.from].(recentActive := true).MaybeUpdate(m.index).0.AfterUpdate(m.index);
            var c := MaybeCommit(SetProgress(n, m.from, p));
            var r := OnAppResp(cfg, n, m);
            && r.log == n.log && r.commit == c.0.commit && n.msgs <= r.msgs && m.from in r.prs
            && (r.prs[m.from].IsPaused() || r.prs[m.from].next > |n.log| || r.prs[m.from].next == 0)
            && (c.1 ==> forall v :: v in n.prs && v != n.id && v != m.from && !n.prs[v].IsPaused() && n.prs[v].next > 0 ==>
                          SentAppend(c.0, r.msgs, v, n.prs[v].next - 1))
  {
    var p := n.prs[m.from].(recentActive := true).MaybeUpdate(m.index).0.AfterUpdate(m.index);
    var c := MaybeCommit(SetProgress(n, m.from, p));
    var s := if c.1 then BcastAppend(cfg, c.0) else if n.prs[m.from].IsPaused() then SendAppend(cfg, c.0, m.from) else c.0;
    assert OnAppResp(cfg, n, m) == SendWhile(cfg, s, m.from);
    SendWhileExhausts(cfg, s, m.from);
    SendWhileKeeps(cfg, s, m.from);
    if c.1 {
      forall v | v in n.prs && v != n.id && v != m.from && !n.prs[v].IsPaused() && n.prs[v].next > 0
        ensures SentAppend(c.0, OnAppResp(cfg, n, m).msgs, v, n.prs[v].next - 1) {
        BroadcastRule(cfg, c.0, v);
        SentBefore(c.0, s.msgs, OnAppResp(cfg, n, m).msgs, v, n.prs[v].next - 1);
      }
    }
  }

  lemma SentBefore(n: Node, before: set<Message>, msgs: set<Message>, v: Id, index: nat)
    requires SentAppend(n, before, v, index) && before <= msgs
    ensures SentAppend(n, msgs, v, index)
  {
    var m :| m in before && IsAppendAt(n, m, v, index);
    assert m in msgs;
  }

  lemma {:induction false} SendWhileKeeps(cfg: Config, n: Node, to: Id)
    ensures SendWhile(cfg, n, to).commit == n.commit
    decreases if to in n.prs then Room(n.prs[to]) else 0
  {
    var r := MaybeSendAppend(cfg, n, to, false);
    if r.1 { SendWhileKeeps(cfg, r.0, to); }
  }

  /** The sending loop stops only when there is nothing more to send, or the follower is held back. */
  lemma {:induction false} SendWhileExhausts(cfg: Config, n: Node, to: Id)
    requires to in n.prs
    ensures var r := SendWhile(cfg, n, to);
            && to in r.prs && r.log == n.log && n.msgs <= r.msgs
            && (r.prs[to].IsPaused() || r.prs[to].next > |r.log| || r.prs[to].next == 0)
    decreases Room(n.prs[to])
  {
    var r := MaybeSendAppend(cfg, n, to, false);
    if r.1 {
      SendWhileExhausts(cfg, r.0, to);
    } else if 0 < n.prs[to].next <= |n.log| {
      PrefixLimited(cfg.maxMsgSize, n.log[n.prs[to].next - 1..]);
    }
  }

  // ---------------------------------------------------------------- the follower's log

  /** The first k entries are in the log, and the next one, if there is one, is not. */
  ghost predicate HasFirst(log: seq<Entry>, es: seq<Entry>, from: nat, k: nat) {
    && k <= |es| && (forall i :: 0 <= i < k ==> TermAt(log, from + 1 + i) == es[i].term)
    && (k < |es| ==> TermAt(log, from + 1 + k) != es[k].term)
  }

  /** An append behind the commit index whose previous entry is in the log is accepted: what the log has of it
      stays with all that follows it; from the first entry that differs on, the log is cut and continued.
      The commit index moves to the leader's, as far as the append goes. */
  lemma AppendAcceptRule(n: Node, m: Message, k: nat)
    requires m.App? && Consecutive(m.entries, m.index + 1) && m.index >= n.commit && TermAt(n.log, m.index) == m.logTerm
    requires HasFirst(n.log, m.entries, m.index, k) && m.index + k <= |n.log| && n.commit <= |n.log|
    requires k < |m.entries| ==> n.commit <= m.index + k
    ensures var r := HandleAppendEntries(n, m);
            && r.log == (if k == |m.entries| then n.log else n.log[..m.index + k] + m.entries[k..])
            && r.msgs == n.msgs + {AppResp(n.id, m.from, n.term, m.index + |m.entries|, false, 0)}
            && r.commit == Max(n.commit, Min(m.commit, m.index + |m.entries|)) && r.fatal == n.fatal
            && r.term == n.term && r.vote == n.vote && r.role == n.role && r.lead == n.lead
  {
    ConflictInRange(n.LogOf(), m.entries, m.index + 1);
    ConflictIs(n.LogOf(), m.entries, m.index + 1, k);
  }

  lemma ConflictIs(log: Log, es: seq<Entry>, first: nat, k: nat)
    requires Consecutive(es, first) && first > 0 && k <= |es|
    requires forall i :: 0 <= i < k ==> log.Term(first + i) == es[i].term
    requires k < |es| ==> log.Term(first + k) != es[k].term
    ensures log.FindConflict(es) == if k == |es| then 0 else first + k
  {
    ConflictInRange(log, es, first);
    var ci := log.FindConflict(es);
    forall i | 0 <= i < k ensures EntryMatches(log, es, i) {}
    if k < |es| { assert !EntryMatches(log, es, k); }
  }

  /** One whose previous entry is not in the log is rejected, with the end of the log as a hint; one below the
      commit index is answered with the commit index.  Neither changes anything. */
  lemma AppendRefuseRule(n: Node, m: Message)
    requires m.App? && Consecutive(m.entries, m.index + 1)
    ensures m.index < n.commit ==>
              HandleAppendEntries(n, m) == n.(msgs := n.msgs + {AppResp(n.id, m.from, n.term, n.commit, false, 0)})
    ensures m.index >= n.commit && TermAt(n.log, m.index) != m.logTerm ==>
              HandleAppendEntries(n, m) == n.(msgs := n.msgs + {AppResp(n.id, m.from, n.term, m.index, true, |n.log|)})
  {
  }

  // ---------------------------------------------------------------- terms

  /** A message of an earlier term changes nothing.  A leader of that term, and a node that asks for a pre-vote
      in it, are told of the present one; nobody else is answered. */
  lemma EarlierTermRule(cfg: Config, n: Node, m: Message, inLease: bool)
    requires 0 < m.term < n.term && (m.App? ==> Consecutive(m.entries, m.index + 1))
    ensures var told := if (m.App? || m.Heartbeat?) && (cfg.checkQuorum || cfg.preVote) then {AppResp(n.id, m.from, n.term, 0, false, 0)}
                        else if m.PreVote? then {PreVoteResp(n.id, m.from, n.term, true)} else {};
            Step(cfg, n, m, inLease) == n.(msgs := n.msgs + told)
  {
  }

  /** Any message of a later term, but for pre-votes and requests under a lease, takes the node into that term,
      where it has no vote; from a leader of that term it learns who leads. */
  lemma LaterTermRule(cfg: Config, n: Node, m: Message, inLease: bool)
    requires m.term > n.term && (m.App? ==> Consecutive(m.entries, m.index + 1))
    requires !m.PreVote? && (m.PreVoteResp? ==> m.reject) && (m.Vote? ==> !(cfg.checkQuorum && n.lead != 0 && inLease))
    ensures var r := Step(cfg, n, m, inLease);
            && r.term == m.term && r.role == Follower && r.lead == (if m.App? || m.Heartbeat? then m.from else 0)
            && (!m.Vote? ==> r.vote == 0) && (!m.App? ==> r.log == n.log)
  {
  }

  /** In the present term an append or a heartbeat makes whoever does not lead a follower of its sender. */
  lemma SameTermRule(cfg: Config, n: Node, m: Message, inLease: bool)
    requires m.term == n.term && n.role != Leader && (m.App? || m.Heartbeat?) && (m.App? ==> Consecutive(m.entries, m.index + 1))
    ensures var r := Step(cfg, n, m, inLease);
            && r.role == Follower && r.lead == m.from && r.term == n.term && r.vote == n.vote
            && r.id == n.id && (m.Heartbeat? ==> r.log == n.log)
  {
    var f := if n.role == Follower then n.(lead := m.from) else BecomeFollower(cfg, n, m.term, m.from);
    if m.App? {
      assert Step(cfg, n, m, inLease) == HandleAppendEntries(f, m);
      AcceptKeepsRole(f, m);
    } else {
      assert Step(cfg, n, m, inLease) == HandleHeartbeat(f, m);
    }
  }

  lemma AcceptKeepsRole(n: Node, m: Message)
    requires m.App? && Consecutive(m.entries, m.index + 1)
    ensures var r := HandleAppendEntries(n, m); r.role == n.role && r.lead == n.lead && r.term == n.term && r.vote == n.vote
  {
  }

  /** The target of a transfer campaigns at once, whether or not pre-vote is on; only a follower does. */
  lemma TransferRule(cfg: Config, n: Node)
    requires n.id in n.prs
    ensures Local(cfg, n, TimeoutNow) == if n.role == Follower then CampaignElection(cfg, n) else n
    ensures n.role == Follower ==> Local(cfg, n, TimeoutNow).term == n.term + 1
  {
    CampaignRule(cfg, n);
  }

  // ---------------------------------------------------------------- losing the leadership

  /** A leader steps down at the quorum check if and only if it has not heard from enough followers to make
      a majority together with itself. */
  lemma QuorumCheckRule(cfg: Config, n: Node)
    requires n.role == Leader
    ensures var r := Local(cfg, n, CheckQuorum);
            var heard := set v | v in n.prs && (v == n.id || n.prs[v].recentActive);
            && (2 * |heard| > |n.prs.Keys| ==> r == n)
            && (2 * |heard| <= |n.prs.Keys| ==> r.role == Follower && r.lead == 0 && r.term == n.term && r.vote == n.vote && r.log == n.log)
  {
    assert Active(n) == set v | v in n.prs && (v == n.id || n.prs[v].recentActive);
  }
}

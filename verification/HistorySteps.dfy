/** The ways in which the history grows, each shown to keep what is known of it. */
module HistorySteps {
  import opened Types
  import opened LogModel
  import opened Quorum
  import opened RaftCore
  import opened Cluster
  import opened Invariant
  import opened Growth

  // ---------------------------------------------------------------- what any growth keeps

  lemma CampaignGrows(cfg: Config, h: History, h': History, t: nat, c: Id)
    requires Grows(h, h') && (t, c) in h.campaign && CampaignOk(cfg, h, t, c)
    ensures (t, c) in h'.campaign && CampaignOk(cfg, h', t, c)
  {
    LogOkGrows(h, h', h.campaign[(t, c)]);
  }

  lemma VoteGrows(cfg: Config, h: History, h': History, t: nat, v: Id)
    requires Grows(h, h') && (t, v) in h.votes && VoteOk(cfg, h, t, v)
    requires VoteLog(h', t, v) == VoteLog(h, t, v)
    ensures (t, v) in h'.votes && VoteOk(cfg, h', t, v)
  {
    LogOkGrows(h, h', VoteLog(h, t, v));
  }

  lemma VotesGrow(cfg: Config, h: History, h': History)
    requires Grows(h, h') && VotesOk(cfg, h)
    requires h'.campaign == h.campaign && h'.votes == h.votes && h'.voteLog == h.voteLog
    ensures VotesOk(cfg, h')
  {
    forall t: nat, c: Id | (t, c) in h'.campaign ensures CampaignOk(cfg, h', t, c) {
      CampaignGrows(cfg, h, h', t, c);
    }
    forall t: nat, v: Id | (t, v) in h'.votes ensures VoteOk(cfg, h', t, v) {
      VoteGrows(cfg, h, h', t, v);
    }
  }

  lemma VoterKeeps(cfg: Config, h: History, h': History, u: nat, v: Id, t: nat, i: nat)
    requires Grows(h, h') && VotersKeep(cfg, h) && AcksOk(cfg, h)
    requires (u, v) in h.votes && u <= TermOf(h, v) && VoteLog(h', u, v) == VoteLog(h, u, v)
    requires t < u && Choosable(cfg, h', t, i) && i <= Acked(h', t, v)
    ensures SharesPrefix(VoteLog(h', u, v), h'.logs[t], i)
  {
    if i > 0 {
      assert i <= Acked(h, t, v);
      assert (t, v) in h.acked;
      ChoosableBefore(cfg, h, h', t, i);
      assert VoterKept(cfg, h, u, v, t, i);
      SharesGrows(h, h', t, VoteLog(h, u, v), i);
    }
  }

  lemma LeaderKeeps(cfg: Config, h: History, h': History, t: nat, u: nat, i: nat)
    requires Grows(h, h') && LeadersComplete(cfg, h)
    requires u in h.logs && t in h.logs && i <= |h.logs[t]|
    requires t < u && Choosable(cfg, h', t, i)
    ensures SharesPrefix(h'.logs[u], h'.logs[t], i)
  {
    ChoosableBefore(cfg, h, h', t, i);
    assert LeaderHas(cfg, h, t, u, i);
    SharesGrows(h, h', t, h.logs[u], i);
    assert h'.logs[u][..i] == h.logs[u][..i];
  }

  lemma KeepGrows(cfg: Config, h: History, h': History)
    requires Grows(h, h') && VotersKeep(cfg, h) && LeadersComplete(cfg, h) && AcksOk(cfg, h) && VotesOk(cfg, h)
    requires h'.logs == h.logs && h'.votes == h.votes && h'.voteLog == h.voteLog
    ensures VotersKeep(cfg, h') && LeadersComplete(cfg, h')
  {
    forall u: nat, v: Id, t: nat, i: nat ensures VoterKept(cfg, h', u, v, t, i) {
      if (u, v) in h'.votes && t < u && Choosable(cfg, h', t, i) && i <= Acked(h', t, v) {
        assert VoteOk(cfg, h, u, v);
        VoterKeeps(cfg, h, h', u, v, t, i);
      }
    }
    forall t: nat, u: nat, i: nat ensures LeaderHas(cfg, h', t, u, i) {
      if u in h'.logs && t < u && Choosable(cfg, h', t, i) {
        LeaderKeeps(cfg, h, h', t, u, i);
      }
    }
  }

  lemma ElectionsGrow(cfg: Config, h: History, h': History)
    requires Grows(h, h') && ElectionsOk(cfg, h)
    requires h'.logs.Keys == h.logs.Keys && h'.leader == h.leader && h'.electors == h.electors
    ensures ElectionsOk(cfg, h')
  {
    forall t | t in h'.logs && t != cfg.BootTerm() ensures ElectionOk(cfg, h', t) {
      assert ElectionOk(cfg, h, t);
    }
  }

  // ---------------------------------------------------------------- a node enters a later term

  function SetTerm(h: History, v: Id, term: nat): History {
    h.(term := h.term[v := term])
  }

  lemma SetTermOk(cfg: Config, h: History, v: Id, term: nat)
    requires HistOk(cfg, h) && v in cfg.voters && TermOf(h, v) <= term
    ensures Grows(h, SetTerm(h, v, term)) && HistOk(cfg, SetTerm(h, v, term))
  {
    var h' := SetTerm(h, v, term);
    assert v in h.term;
    VotesGrow(cfg, h, h');
    KeepGrows(cfg, h, h');
    ElectionsGrow(cfg, h, h');
  }

  // ---------------------------------------------------------------- a campaign starts

  function StartCampaign(h: History, c: Id, log: seq<Entry>): History {
    h.(campaign := h.campaign[(TermOf(h, c), c) := log])
  }

  lemma StartCampaignOk(cfg: Config, h: History, c: Id, log: seq<Entry>)
    requires HistOk(cfg, h) && c in cfg.voters && cfg.BootTerm() < TermOf(h, c)
    requires (TermOf(h, c), c) !in h.campaign
    requires LogOk(h.logs, log) && TermsBelow(log, TermOf(h, c))
    ensures Grows(h, StartCampaign(h, c, log)) && HistOk(cfg, StartCampaign(h, c, log))
  {
    var h' := StartCampaign(h, c, log);
    StartCampaignGrows(h, c, log);
    forall t: nat, d: Id | (t, d) in h'.campaign ensures CampaignOk(cfg, h', t, d) {
      if (t, d) in h.campaign { CampaignGrows(cfg, h, h', t, d); }
    }
    forall t: nat, v: Id | (t, v) in h'.votes ensures VoteOk(cfg, h', t, v) {
      VoteGrows(cfg, h, h', t, v);
    }
    KeepGrows(cfg, h, h');
    ElectionsGrow(cfg, h, h');
  }

  lemma StartCampaignGrows(h: History, c: Id, log: seq<Entry>)
    requires (TermOf(h, c), c) !in h.campaign
    ensures Grows(h, StartCampaign(h, c, log))
  {
  }

  // ---------------------------------------------------------------- a vote is cast

  function CastVote(h: History, v: Id, c: Id, log: seq<Entry>): History {
    var k := (TermOf(h, v), v);
    h.(votes := h.votes[k := c], voteLog := h.voteLog[k := log])
  }

  lemma CastVoteOk(cfg: Config, h: History, v: Id, c: Id, log: seq<Entry>)
    requires HistOk(cfg, h) && v in cfg.voters && cfg.BootTerm() < TermOf(h, v)
    requires (TermOf(h, v), v) !in h.votes && (TermOf(h, v), c) in h.campaign
    requires LogOk(h.logs, log) && TermsBelow(log, TermOf(h, v))
    requires UpToDate(h.campaign[(TermOf(h, v), c)], log)
    requires Keeps(cfg, h, v, TermOf(h, v), log)
    ensures Grows(h, CastVote(h, v, c, log)) && HistOk(cfg, CastVote(h, v, c, log))
  {
    var h' := CastVote(h, v, c, log);
    var t0 := TermOf(h, v);
    CastVoteGrows(h, v, c, log);
    CastVoteVotes(cfg, h, v, c, log);
    ElectionsGrow(cfg, h, h');
    CastVoteKeeps(cfg, h, v, c, log);
  }

  lemma CastVoteGrows(h: History, v: Id, c: Id, log: seq<Entry>)
    requires (TermOf(h, v), v) !in h.votes
    ensures Grows(h, CastVote(h, v, c, log))
  {
  }

  lemma CastVoteVotes(cfg: Config, h: History, v: Id, c: Id, log: seq<Entry>)
    requires VotesOk(cfg, h) && v in cfg.voters && cfg.BootTerm() < TermOf(h, v)
    requires (TermOf(h, v), v) !in h.votes && (TermOf(h, v), c) in h.campaign
    requires LogOk(h.logs, log) && TermsBelow(log, TermOf(h, v))
    requires UpToDate(h.campaign[(TermOf(h, v), c)], log)
    ensures VotesOk(cfg, CastVote(h, v, c, log))
  {
    var h' := CastVote(h, v, c, log);
    var t0 := TermOf(h, v);
    CastVoteGrows(h, v, c, log);
    forall t: nat, d: Id | (t, d) in h'.campaign ensures CampaignOk(cfg, h', t, d) {
      CampaignGrows(cfg, h, h', t, d);
    }
    forall t: nat, w: Id | (t, w) in h'.votes ensures VoteOk(cfg, h', t, w) {
      if (t, w) != (t0, v) { VoteGrows(cfg, h, h', t, w); }
    }
  }

  lemma CastVoteKeeps(cfg: Config, h: History, v: Id, c: Id, log: seq<Entry>)
    requires HistOk(cfg, h) && v in cfg.voters && (TermOf(h, v), v) !in h.votes
    requires Keeps(cfg, h, v, TermOf(h, v), log)
    ensures VotersKeep(cfg, CastVote(h, v, c, log)) && LeadersComplete(cfg, CastVote(h, v, c, log))
  {
    var h' := CastVote(h, v, c, log);
    var t0 := TermOf(h, v);
    CastVoteGrows(h, v, c, log);
    forall u: nat, w: Id, t: nat, i: nat ensures VoterKept(cfg, h', u, w, t, i) {
      if (u, w) in h'.votes && t < u && Choosable(cfg, h', t, i) && i <= Acked(h', t, w) {
        if (u, w) != (t0, v) {
          assert VoteOk(cfg, h, u, w);
          VoterKeeps(cfg, h, h', u, w, t, i);
        } else {
          ChoosableBefore(cfg, h, h', t, i);
          assert KeepsPoint(cfg, h, v, t0, log, t, i);
        }
      }
    }
    forall t: nat, u: nat, i: nat ensures LeaderHas(cfg, h', t, u, i) {
      if u in h'.logs && t < u && Choosable(cfg, h', t, i) {
        LeaderKeeps(cfg, h, h', t, u, i);
      }
    }
  }

  // ---------------------------------------------------------------- an index is acknowledged

  function Ack(h: History, t: nat, v: Id, i: nat): History {
    h.(acked := h.acked[(t, v) := Max(Acked(h, t, v), i)])
  }

  lemma AckOk(cfg: Config, h: History, t: nat, v: Id, i: nat)
    requires HistOk(cfg, h) && v in cfg.voters && t == TermOf(h, v)
    requires t in h.logs && i <= |h.logs[t]|
    ensures Grows(h, Ack(h, t, v, i)) && HistOk(cfg, Ack(h, t, v, i))
  {
    var h' := Ack(h, t, v, i);
    assert forall u: nat, w: Id :: Acked(h', u, w) == if u == t && w == v then Max(Acked(h, t, v), i) else Acked(h, u, w);
    assert AcksGrow(h, h');
    assert Acked(h, t, v) <= |h.logs[t]|;
    VotesGrow(cfg, h, h');
    KeepGrows(cfg, h, h');
    ElectionsGrow(cfg, h, h');
  }

  // ---------------------------------------------------------------- the leader appends

  function LeaderAppend(h: History, t: nat, es: seq<Entry>): History
    requires t in h.logs
  {
    h.(logs := h.logs[t := h.logs[t] + es])
  }

  lemma LeaderAppendOk(cfg: Config, h: History, t: nat, es: seq<Entry>)
    requires HistOk(cfg, h) && t in h.logs && t > cfg.BootTerm()
    requires Consecutive(es, |h.logs[t]| + 1)
    requires forall i :: 0 <= i < |es| ==> es[i].term == t
    ensures Grows(h, LeaderAppend(h, t, es)) && HistOk(cfg, LeaderAppend(h, t, es))
  {
    LeaderAppendRecords(cfg, h, t, es);
    LeaderAppendLogs(cfg, h, t, es);
    LeaderAppendKeeps(cfg, h, t, es);
  }

  lemma LeaderAppendKeeps(cfg: Config, h: History, t: nat, es: seq<Entry>)
    requires HistOk(cfg, h) && t in h.logs && t > cfg.BootTerm()
    ensures AcksOk(cfg, LeaderAppend(h, t, es))
    ensures VotersKeep(cfg, LeaderAppend(h, t, es)) && LeadersComplete(cfg, LeaderAppend(h, t, es))
  {
    LeaderAppendRecords(cfg, h, t, es);
    AcksStay(cfg, h, LeaderAppend(h, t, es));
    LogsChanged(cfg, h, LeaderAppend(h, t, es), t);
  }

  lemma LeaderAppendRecords(cfg: Config, h: History, t: nat, es: seq<Entry>)
    requires VotesOk(cfg, h) && ElectionsOk(cfg, h) && t in h.logs
    ensures Grows(h, LeaderAppend(h, t, es))
    ensures VotesOk(cfg, LeaderAppend(h, t, es)) && ElectionsOk(cfg, LeaderAppend(h, t, es))
  {
    LeaderAppendGrows(h, t, es);
    VotesGrow(cfg, h, LeaderAppend(h, t, es));
    ElectionsGrow(cfg, h, LeaderAppend(h, t, es));
  }

  /** Keeping what is choosable when only the leader log of term t has grown. */
  lemma LogsChanged(cfg: Config, h: History, h': History, t: nat)
    requires HistOk(cfg, h) && Grows(h, h') && VotesOk(cfg, h') && ElectionsOk(cfg, h')
    requires h'.votes == h.votes && h'.voteLog == h.voteLog && h'.acked == h.acked && h'.term == h.term
    requires t > cfg.BootTerm() && t in h.logs
    requires h'.logs.Keys == h.logs.Keys && forall u :: u in h.logs && u != t ==> h'.logs[u] == h.logs[u]
    ensures VotersKeep(cfg, h') && LeadersComplete(cfg, h')
  {
    forall u: nat, w: Id, s: nat, i: nat ensures VoterKept(cfg, h', u, w, s, i) {
      if (u, w) in h'.votes && s < u && Choosable(cfg, h', s, i) && i <= Acked(h', s, w) {
        assert VoteOk(cfg, h, u, w);
        VoterKeeps(cfg, h, h', u, w, s, i);
      }
    }
    forall s: nat, u: nat, i: nat ensures LeaderHas(cfg, h', s, u, i) {
      if u in h'.logs && s < u && Choosable(cfg, h', s, i) {
        if i > |h.logs[s]| {
          AckersBounded(cfg, h, s, i);
          assert LeaderLogOk(cfg, h.logs, s);
          NotChoosableAbove(cfg, h', s, u, i);
        } else {
          LeaderKeeps(cfg, h, h', s, u, i);
        }
      }
    }
  }

  lemma AckersBounded(cfg: Config, h: History, t: nat, i: nat)
    requires AcksOk(cfg, h) && t in h.logs && i > |h.logs[t]|
    ensures forall v :: v in cfg.voters ==> Acked(h, t, v) < i
  {
  }

  /** Once a later leader is elected, nothing that no voter of that term has acknowledged
      is choosable. */
  lemma NotChoosableAbove(cfg: Config, h: History, t: nat, u: nat, i: nat)
    requires VotesOk(cfg, h) && ElectionsOk(cfg, h)
    requires u in h.logs && t < u && u != cfg.BootTerm()
    requires forall v :: v in cfg.voters && TermOf(h, v) >= u ==> Acked(h, t, v) < i
    ensures !Choosable(cfg, h, t, i)
  {
    assert ElectionOk(cfg, h, u);
    if IsQuorum(cfg.voters, Willing(cfg, h, t, i)) {
      var x := Intersect(cfg.voters, Willing(cfg, h, t, i), h.electors[u]);
      VoterInTerm(cfg, h, u, x);
    }
  }

  lemma VoterInTerm(cfg: Config, h: History, u: nat, x: Id)
    requires VotesOk(cfg, h) && (u, x) in h.votes
    ensures TermOf(h, x) >= u && x in cfg.voters
  {
    assert VoteOk(cfg, h, u, x);
  }

  lemma LeaderAppendGrows(h: History, t: nat, es: seq<Entry>)
    requires t in h.logs
    ensures Grows(h, LeaderAppend(h, t, es))
  {
  }

  lemma LeaderAppendLogs(cfg: Config, h: History, t: nat, es: seq<Entry>)
    requires LogsOk(cfg, h.logs) && t in h.logs && t > cfg.BootTerm()
    requires Consecutive(es, |h.logs[t]| + 1)
    requires forall i :: 0 <= i < |es| ==> es[i].term == t
    ensures LogsOk(cfg, LeaderAppend(h, t, es).logs)
  {
    var h' := LeaderAppend(h, t, es);
    LeaderAppendGrows(h, t, es);
    forall u | u in h'.logs ensures LeaderLogOk(cfg, h'.logs, u) {
      assert LeaderLogOk(cfg, h.logs, u);
      LogOkGrows(h, h', h.logs[u]);
      if u == t {
        ExtendedLogOk(h'.logs, t, h.logs[t], es);
      }
    }
  }

  /** A log extended by entries of term t is fine when it equals the leader log of term t. */
  lemma ExtendedLogOk(logs: map<nat, seq<Entry>>, t: nat, log: seq<Entry>, es: seq<Entry>)
    requires LogOk(logs, log) && t in logs && t > 0 && logs[t] == log + es
    requires TermsBelow(log, t + 1) || LastTermOf(log) == t
    requires Consecutive(es, |log| + 1)
    requires forall i :: 0 <= i < |es| ==> es[i].term == t
    ensures LogOk(logs, log + es)
  {
    var l := log + es;
    assert forall i :: 0 <= i < |log| ==> log[i].term <= t;
    forall i | 0 <= i < |l| ensures PointOk(logs, l, i) {
      if i < |log| {
        assert PointOk(logs, log, i);
        assert l[..i + 1] == log[..i + 1];
      }
    }
  }

  // ---------------------------------------------------------------- a leader is elected

  function Elect(h: History, t: nat, c: Id, electors: set<Id>, log: seq<Entry>): History {
    h.(logs := h.logs[t := log], leader := h.leader[t := c], electors := h.electors[t := electors])
  }

  /** A candidate whose log is at least as up to date as a voter's holds everything the
      voter's log holds that is choosable. */
  lemma UpToDateHolds(cfg: Config, h: History, a: seq<Entry>, b: seq<Entry>, t: nat, i: nat)
    requires LogsOk(cfg, h.logs) && LeadersComplete(cfg, h)
    requires LogOk(h.logs, a) && LogOk(h.logs, b) && UpToDate(a, b)
    requires Choosable(cfg, h, t, i) && SharesPrefix(b, h.logs[t], i)
    ensures SharesPrefix(a, h.logs[t], i)
  {
    if i > 0 {
      assert b[i - 1] == b[..i][i - 1] == h.logs[t][..i][i - 1];
      assert b[i - 1].term == t;
      assert PointOk(h.logs, b, i - 1);
      assert b[i - 1].term <= b[|b| - 1].term;
      assert LastTermOf(b) >= t > 0;
      var w := LastTermOf(a);
      assert a != [];
      assert PointOk(h.logs, a, |a| - 1);
      if w == LastTermOf(b) {
        assert PointOk(h.logs, b, |b| - 1);
        assert a[..i] == h.logs[w][..|a|][..i] == h.logs[w][..i] == h.logs[w][..|b|][..i] == b[..i];
      } else {
        assert LeaderHas(cfg, h, t, w, i);
        assert LeaderLogOk(cfg, h.logs, w);
        LongerThan(h.logs, a, t, i, w);
        assert a[..i] == h.logs[w][..|a|][..i] == h.logs[w][..i];
      }
    }
  }

  lemma LongerThan(logs: map<nat, seq<Entry>>, a: seq<Entry>, t: nat, i: nat, w: nat)
    requires w in logs && t in logs && t < w && LogOk(logs, logs[w])
    requires a != [] && LastTermOf(a) == w && SharesPrefix(logs[w], a, |a|)
    requires 0 < i <= |logs[t]| && logs[t][i - 1].term == t && SharesPrefix(logs[w], logs[t], i)
    ensures i < |a|
  {
    var l := logs[w];
    assert l[i - 1] == l[..i][i - 1] == logs[t][..i][i - 1];
    assert l[|a| - 1] == l[..|a|][|a| - 1] == a[..|a|][|a| - 1];
    assert l[i - 1].term < l[|a| - 1].term;
  }

  lemma ElectOk(cfg: Config, h: History, t: nat, c: Id, electors: set<Id>, log: seq<Entry>, e: Entry)
    requires HistOk(cfg, h) && c in cfg.voters && t == TermOf(h, c) > cfg.BootTerm()
    requires t !in h.logs && t !in h.leader && IsQuorum(cfg.voters, electors)
    requires forall x :: x in electors ==> (t, x) in h.votes && h.votes[(t, x)] == c
    requires (t, c) in h.campaign && h.campaign[(t, c)] == log
    requires e.term == t && e.index == |log| + 1
    ensures Grows(h, Elect(h, t, c, electors, log + [e]))
         && HistOk(cfg, Elect(h, t, c, electors, log + [e]))
  {
    var h' := Elect(h, t, c, electors, log + [e]);
    assert CampaignOk(cfg, h, t, c);
    ElectGrows(h, t, c, electors, log + [e]);
    ElectLogs(cfg, h, h', t, log, e);
    VotesGrow(cfg, h, h');
    ElectElections(cfg, h, t, c, electors, log + [e]);
    ElectKeeps(cfg, h, h', t, c, electors, log, e);
  }

  lemma ElectGrows(h: History, t: nat, c: Id, electors: set<Id>, log: seq<Entry>)
    requires t !in h.logs && t !in h.leader
    ensures Grows(h, Elect(h, t, c, electors, log))
  {
  }

  lemma ElectElections(cfg: Config, h: History, t: nat, c: Id, electors: set<Id>, log: seq<Entry>)
    requires ElectionsOk(cfg, h) && c in cfg.voters && t == TermOf(h, c) && IsQuorum(cfg.voters, electors)
    requires forall x :: x in electors ==> (t, x) in h.votes && h.votes[(t, x)] == c
    ensures ElectionsOk(cfg, Elect(h, t, c, electors, log))
  {
    var h' := Elect(h, t, c, electors, log);
    forall u | u in h'.logs && u != cfg.BootTerm() ensures ElectionOk(cfg, h', u) {
      if u != t { assert ElectionOk(cfg, h, u); }
    }
  }

  lemma ElectLogs(cfg: Config, h: History, h': History, t: nat, log: seq<Entry>, e: Entry)
    requires LogsOk(cfg, h.logs) && t > cfg.BootTerm() && t !in h.logs
    requires h'.logs == h.logs[t := log + [e]]
    requires LogOk(h.logs, log) && TermsBelow(log, t) && e.term == t && e.index == |log| + 1
    ensures LogsGrow(h.logs, h'.logs) && LogsOk(cfg, h'.logs)
  {
    forall u | u in h'.logs ensures LeaderLogOk(cfg, h'.logs, u) {
      if u != t {
        assert LeaderLogOk(cfg, h.logs, u);
        LogOkGrows(h, h', h.logs[u]);
      } else {
        LogOkGrows(h, h', log);
        ExtendedLogOk(h'.logs, t, log, [e]);
      }
    }
  }

  lemma ElectKeeps(cfg: Config, h: History, h': History, t: nat, c: Id, electors: set<Id>, log: seq<Entry>, e: Entry)
    requires HistOk(cfg, h) && Grows(h, h') && VotesOk(cfg, h') && ElectionsOk(cfg, h')
    requires h' == Elect(h, t, c, electors, log + [e])
    requires t > cfg.BootTerm() && t !in h.logs && IsQuorum(cfg.voters, electors)
    requires forall x :: x in electors ==> (t, x) in h.votes && h.votes[(t, x)] == c
    requires (t, c) in h.campaign && h.campaign[(t, c)] == log
    requires TermsBelow(log, t)
    ensures VotersKeep(cfg, h') && LeadersComplete(cfg, h') && AcksOk(cfg, h')
  {
    forall u: nat, w: Id, s: nat, i: nat ensures VoterKept(cfg, h', u, w, s, i) {
      if (u, w) in h'.votes && s < u && Choosable(cfg, h', s, i) && i <= Acked(h', s, w) {
        assert VoteOk(cfg, h, u, w);
        VoterKeeps(cfg, h, h', u, w, s, i);
      }
    }
    forall s: nat, u: nat, i: nat ensures LeaderHas(cfg, h', s, u, i) {
      if u in h'.logs && s < u && Choosable(cfg, h', s, i) {
        ElectLeaderKeeps(cfg, h, h', t, c, electors, log, e, s, u, i);
      }
    }
    AcksStay(cfg, h, h');
  }

  lemma AcksStay(cfg: Config, h: History, h': History)
    requires AcksOk(cfg, h) && LogsGrow(h.logs, h'.logs) && h'.acked == h.acked && h'.term == h.term
    ensures AcksOk(cfg, h')
  {
  }

  lemma ElectLeaderKeeps(cfg: Config, h: History, h': History, t: nat, c: Id, electors: set<Id>, log: seq<Entry>, e: Entry,
                         s: nat, u: nat, i: nat)
    requires HistOk(cfg, h) && Grows(h, h') && VotesOk(cfg, h') && ElectionsOk(cfg, h')
    requires h' == Elect(h, t, c, electors, log + [e])
    requires t > cfg.BootTerm() && t !in h.logs && IsQuorum(cfg.voters, electors)
    requires forall x :: x in electors ==> (t, x) in h.votes && h.votes[(t, x)] == c
    requires (t, c) in h.campaign && h.campaign[(t, c)] == log
    requires u in h'.logs && s < u && Choosable(cfg, h', s, i)
    ensures SharesPrefix(h'.logs[u], h'.logs[s], i)
  {
    if i > 0 {
      if s == t {
        NobodyAcked(cfg, h, h', t);
        assert LeaderLogOk(cfg, h.logs, u);
        NotChoosableAbove(cfg, h', t, u, i);
      } else if u == t {
        ChoosableBefore(cfg, h, h', s, i);
        NewLeaderComplete(cfg, h, t, c, electors, log, s, i);
        assert (log + [e])[..i] == log[..i];
      } else {
        LeaderKeeps(cfg, h, h', s, u, i);
      }
    }
  }

  lemma NobodyAcked(cfg: Config, h: History, h': History, t: nat)
    requires AcksOk(cfg, h) && t !in h.logs && h'.acked == h.acked
    ensures forall v :: Acked(h', t, v) == 0
  {
  }

  /** The heart of leader completeness: a voter that elected the new leader and had
      acknowledged (t, i) passes it on. */
  lemma NewLeaderComplete(cfg: Config, h: History, u: nat, c: Id, electors: set<Id>, log: seq<Entry>, t: nat, i: nat)
    requires HistOk(cfg, h) && t < u && IsQuorum(cfg.voters, electors)
    requires forall x :: x in electors ==> (u, x) in h.votes && h.votes[(u, x)] == c
    requires (u, c) in h.campaign && h.campaign[(u, c)] == log
    requires Choosable(cfg, h, t, i)
    ensures SharesPrefix(log, h.logs[t], i)
  {
    var x := Intersect(cfg.voters, Willing(cfg, h, t, i), electors);
    VoterInTerm(cfg, h, u, x);
    assert VoterKept(cfg, h, u, x, t, i);
    assert VoteOk(cfg, h, u, x);
    assert CampaignOk(cfg, h, u, c);
    UpToDateHolds(cfg, h, log, VoteLog(h, u, x), t, i);
  }
}

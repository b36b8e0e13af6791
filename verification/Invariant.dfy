/** The history of a run and the inductive invariant that connects nodes and messages to it. */
module Invariant {
  import opened Types
  import opened LogModel
  import opened ProgressModel
  import opened Quorum
  import opened RaftCore
  import opened Cluster

  /** What has happened so far.
      - `logs[t]`: the log of the leader of term t, at its longest;
      - `leader[t]`, `electors[t]`: who won term t, and with whose votes;
      - `votes[(t, v)]`, `voteLog[(t, v)]`: whom v voted for in term t, and v's log at that moment;
      - `campaign[(t, c)]`: c's log when it started its campaign for term t;
      - `acked[(t, v)]`: how far v's log agreed with `logs[t]` when v last said so in term t;
      - `term[v]`: the current term of v. */
  datatype History = History(
    logs: map<nat, seq<Entry>>, leader: map<nat, Id>, electors: map<nat, set<Id>>,
    votes: map<(nat, Id), Id>, voteLog: map<(nat, Id), seq<Entry>>,
    campaign: map<(nat, Id), seq<Entry>>, acked: map<(nat, Id), nat>, term: map<Id, nat>)

  function Acked(h: History, t: nat, v: Id): nat {
    if (t, v) in h.acked then h.acked[(t, v)] else 0
  }

  function TermOf(h: History, v: Id): nat {
    if v in h.term then h.term[v] else 0
  }

  function VoteLog(h: History, t: nat, v: Id): seq<Entry> {
    if (t, v) in h.voteLog then h.voteLog[(t, v)] else []
  }

  /** `p` is the beginning of `s` up to index i of `p`. */
  ghost predicate SharesPrefix(s: seq<Entry>, p: seq<Entry>, i: nat) {
    i <= |s| && i <= |p| && s[..i] == p[..i]
  }

  ghost predicate TermsAscend(log: seq<Entry>) {
    forall i, j :: 0 <= i <= j < |log| ==> log[i].term <= log[j].term
  }

  /** Every prefix of the log that ends with an entry of term t is a prefix of the log of
      the leader of term t. */
  ghost predicate LogOk(logs: map<nat, seq<Entry>>, log: seq<Entry>) {
    && Consecutive(log, 1)
    && TermsAscend(log)
    && forall i {:trigger PointOk(logs, log, i)} :: 0 <= i < |log| ==> PointOk(logs, log, i)
  }

  ghost predicate PointOk(logs: map<nat, seq<Entry>>, log: seq<Entry>, i: nat)
    requires i < |log|
  {
    && log[i].term > 0 && log[i].term in logs
    && SharesPrefix(logs[log[i].term], log, i + 1)
  }

  function LastTermOf(log: seq<Entry>): nat {
    if log == [] then 0 else log[|log| - 1].term
  }

  ghost predicate TermsBelow(log: seq<Entry>, t: nat) {
    forall i :: 0 <= i < |log| ==> log[i].term < t
  }

  /** The comparison behind a vote: `a` is at least as up to date as `b`. */
  ghost predicate UpToDate(a: seq<Entry>, b: seq<Entry>) {
    LastTermOf(a) > LastTermOf(b) || (LastTermOf(a) == LastTermOf(b) && |a| >= |b|)
  }

  // ---------------------------------------------------------------- commitment

  /** Index i of the leader log of term t ends with an entry of term t. */
  ghost predicate OwnPoint(logs: map<nat, seq<Entry>>, t: nat, i: nat) {
    t in logs && i <= |logs[t]| && (i > 0 ==> logs[t][i - 1].term == t)
  }

  function Ackers(cfg: Config, h: History, t: nat, i: nat): set<Id> {
    set v | v in cfg.voters && Acked(h, t, v) >= i
  }

  /** A majority holds the log of the leader of term t up to index i, an entry of that
      very term: the condition under which the leader moves its commit index. */
  ghost predicate Committed(cfg: Config, h: History, t: nat, i: nat) {
    OwnPoint(h.logs, t, i) && IsQuorum(cfg.voters, Ackers(cfg, h, t, i))
  }

  /** The voters that have acknowledged index i in term t, or still can. */
  function Willing(cfg: Config, h: History, t: nat, i: nat): set<Id> {
    set v | v in cfg.voters && (Acked(h, t, v) >= i || TermOf(h, v) <= t)
  }

  /** Index i of term t is committed or may still become so. */
  ghost predicate Choosable(cfg: Config, h: History, t: nat, i: nat) {
    OwnPoint(h.logs, t, i) && IsQuorum(cfg.voters, Willing(cfg, h, t, i))
  }

  /** The prefix of `log` up to `commit` is committed, in a term up to `term`. */
  ghost predicate CommitOk(cfg: Config, h: History, log: seq<Entry>, commit: nat, term: nat) {
    exists t: nat, k: nat :: Committed(cfg, h, t, k) && t <= term && commit <= k && SharesPrefix(log, h.logs[t], commit)
  }

  // ---------------------------------------------------------------- the history

  ghost predicate LogsOk(cfg: Config, logs: map<nat, seq<Entry>>) {
    && cfg.BootTerm() in logs && logs[cfg.BootTerm()] == cfg.boot
    && forall t {:trigger LeaderLogOk(cfg, logs, t)} :: t in logs ==> LeaderLogOk(cfg, logs, t)
  }

  ghost predicate LeaderLogOk(cfg: Config, logs: map<nat, seq<Entry>>, t: nat)
    requires t in logs
  {
    cfg.BootTerm() <= t && LogOk(logs, logs[t]) && LastTermOf(logs[t]) == t
  }

  ghost predicate CampaignOk(cfg: Config, h: History, t: nat, c: Id)
    requires (t, c) in h.campaign
  {
    && c in cfg.voters && cfg.BootTerm() < t <= TermOf(h, c)
    && LogOk(h.logs, h.campaign[(t, c)]) && TermsBelow(h.campaign[(t, c)], t)
  }

  ghost predicate VoteOk(cfg: Config, h: History, t: nat, v: Id)
    requires (t, v) in h.votes
  {
    && v in cfg.voters && cfg.BootTerm() < t <= TermOf(h, v)
    && (t, h.votes[(t, v)]) in h.campaign
    && LogOk(h.logs, VoteLog(h, t, v)) && TermsBelow(VoteLog(h, t, v), t)
    && UpToDate(h.campaign[(t, h.votes[(t, v)])], VoteLog(h, t, v))
  }

  ghost predicate VotesOk(cfg: Config, h: History) {
    && (forall t: nat, c: Id {:trigger CampaignOk(cfg, h, t, c)} :: (t, c) in h.campaign ==> CampaignOk(cfg, h, t, c))
    && (forall t: nat, v: Id {:trigger VoteOk(cfg, h, t, v)} :: (t, v) in h.votes ==> VoteOk(cfg, h, t, v))
  }

  ghost predicate ElectionsOk(cfg: Config, h: History) {
    && (forall t :: t in h.leader ==> t in h.logs)
    && forall t {:trigger ElectionOk(cfg, h, t)} :: t in h.logs && t != cfg.BootTerm() ==> ElectionOk(cfg, h, t)
  }

  ghost predicate ElectionOk(cfg: Config, h: History, t: nat) {
    && t in h.leader && h.leader[t] in cfg.voters && t <= TermOf(h, h.leader[t])
    && t in h.electors && IsQuorum(cfg.voters, h.electors[t])
    && forall x :: x in h.electors[t] ==> (t, x) in h.votes && h.votes[(t, x)] == h.leader[t]
  }

  ghost predicate AcksOk(cfg: Config, h: History) {
    && h.term.Keys == cfg.voters
    && (forall v :: v in h.term ==> cfg.BootTerm() <= h.term[v])
    && forall t: nat, v: Id :: (t, v) in h.acked ==>
         v in cfg.voters && t in h.logs && h.acked[(t, v)] <= |h.logs[t]| && t <= TermOf(h, v)
  }

  /** A voter's log, when it voted for a later term, held whatever it had acknowledged and
      is still choosable. */
  ghost predicate VotersKeep(cfg: Config, h: History) {
    forall u: nat, v: Id, t: nat, i: nat {:trigger VoterKept(cfg, h, u, v, t, i)} :: VoterKept(cfg, h, u, v, t, i)
  }

  ghost predicate VoterKept(cfg: Config, h: History, u: nat, v: Id, t: nat, i: nat) {
    (u, v) in h.votes && t < u && Choosable(cfg, h, t, i) && i <= Acked(h, t, v) ==>
    SharesPrefix(VoteLog(h, u, v), h.logs[t], i)
  }

  /** Leader completeness: the log of a later leader contains everything choosable. */
  ghost predicate LeadersComplete(cfg: Config, h: History) {
    forall t: nat, u: nat, i: nat {:trigger LeaderHas(cfg, h, t, u, i)} :: LeaderHas(cfg, h, t, u, i)
  }

  ghost predicate LeaderHas(cfg: Config, h: History, t: nat, u: nat, i: nat) {
    u in h.logs && t < u && Choosable(cfg, h, t, i) ==> SharesPrefix(h.logs[u], h.logs[t], i)
  }

  ghost predicate HistOk(cfg: Config, h: History) {
    && LogsOk(cfg, h.logs) && VotesOk(cfg, h) && ElectionsOk(cfg, h) && AcksOk(cfg, h)
    && VotersKeep(cfg, h) && LeadersComplete(cfg, h)
  }

  // ---------------------------------------------------------------- nodes

  ghost predicate NodeBase(cfg: Config, h: History, n: Node) {
    && n.id in cfg.voters && n.id in h.term && h.term[n.id] == n.term
    && n.prs.Keys == cfg.voters
    && !n.fatal
    && (n.lead != 0 ==> n.term in h.logs && n.term in h.leader && n.term > cfg.BootTerm() && h.leader[n.term] == n.lead)
    && (n.role != Leader ==> n.lead != n.id)
    && (if n.vote == 0 then (n.term, n.id) !in h.votes
        else (n.term, n.id) in h.votes && h.votes[(n.term, n.id)] == n.vote)
  }

  /** The log holds what its owner has acknowledged: in the current term exactly, from an
      earlier term as far as it is choosable. */
  ghost predicate Keeps(cfg: Config, h: History, id: Id, term: nat, log: seq<Entry>) {
    && (term in h.logs ==> SharesPrefix(log, h.logs[term], Acked(h, term, id)))
    && forall t: nat, i: nat {:trigger KeepsPoint(cfg, h, id, term, log, t, i)} :: KeepsPoint(cfg, h, id, term, log, t, i)
  }

  ghost predicate KeepsPoint(cfg: Config, h: History, id: Id, term: nat, log: seq<Entry>, t: nat, i: nat) {
    t < term && Choosable(cfg, h, t, i) && i <= Acked(h, t, id) ==> SharesPrefix(log, h.logs[t], i)
  }

  ghost predicate NodeLog(cfg: Config, h: History, id: Id, term: nat, log: seq<Entry>, commit: nat) {
    && LogOk(h.logs, log) && TermsBelow(log, term + 1)
    && CommitOk(cfg, h, log, commit, term)
    && Keeps(cfg, h, id, term, log)
  }

  ghost predicate CandidateOk(cfg: Config, h: History, n: Node) {
    && n.votes.Keys <= cfg.voters && n.lead == 0 && n.vote == n.id
    && (n.term, n.id) in h.campaign && h.campaign[(n.term, n.id)] == n.log
    && TermsBelow(n.log, n.term)
    && (n.term in h.leader ==> h.leader[n.term] != n.id)
    && VotesReceived(h, n.votes, n.term, n.id)
  }

  ghost predicate VotesReceived(h: History, votes: map<Id, bool>, term: nat, id: Id) {
    forall x :: x in votes && votes[x] ==> (term, x) in h.votes && h.votes[(term, x)] == id
  }

  ghost predicate LeaderOk(cfg: Config, h: History, n: Node) {
    && n.vote == n.id && n.lead == n.id
    && n.term in h.logs && h.logs[n.term] == n.log
    && ProgressOk(cfg, h, n.prs, n.term, |n.log|)
    && n.id in n.prs && n.prs[n.id].ins.q == []
  }

  ghost predicate ProgressOk(cfg: Config, h: History, prs: map<Id, Progress>, term: nat, last: nat) {
    forall v :: v in prs ==> PrOk(prs[v], last, cfg.maxInflight) && prs[v].matched <= Acked(h, term, v)
  }

  ghost predicate NodeRole(cfg: Config, h: History, n: Node) {
    match n.role
    case Follower => true
    case PreCandidate => n.votes.Keys <= cfg.voters && n.lead == 0
    case Candidate => CandidateOk(cfg, h, n)
    case Leader => LeaderOk(cfg, h, n)
  }

  ghost predicate NodeOk(cfg: Config, h: History, n: Node) {
    NodeBase(cfg, h, n) && NodeLog(cfg, h, n.id, n.term, n.log, n.commit) && NodeRole(cfg, h, n)
  }

  // ---------------------------------------------------------------- messages

  ghost predicate LedBy(cfg: Config, h: History, t: nat, id: Id) {
    t in h.logs && t in h.leader && t > cfg.BootTerm() && h.leader[t] == id
  }

  ghost predicate MsgOk(cfg: Config, h: History, m: Message) {
    && m.from in cfg.voters && m.to in cfg.voters && m.from != m.to
    && m.term > 0
    && match m
       case Vote(from, to, term, index, logTerm) =>
         && (term, from) in h.campaign
         && index == |h.campaign[(term, from)]| && logTerm == LastTermOf(h.campaign[(term, from)])
       case VoteResp(from, to, term, reject) =>
         !reject ==> (term, from) in h.votes && h.votes[(term, from)] == to
       case PreVote(_, _, _, _, _) => cfg.preVote
       case PreVoteResp(_, _, _, _) => cfg.preVote
       case App(from, to, term, index, logTerm, entries, commit) =>
         && LedBy(cfg, h, term, from)
         && index + |entries| <= |h.logs[term]|
         && entries == h.logs[term][index..index + |entries|]
         && logTerm == TermAt(h.logs[term], index)
         && CommitOk(cfg, h, h.logs[term], commit, term)
       case AppResp(from, to, term, index, reject, hint) =>
         !reject ==> index <= Acked(h, term, from)
       case Heartbeat(from, to, term, commit) =>
         && LedBy(cfg, h, term, from)
         && commit <= Acked(h, term, to)
         && CommitOk(cfg, h, h.logs[term], commit, term)
       case HeartbeatResp(_, _, _) => true
       case Prop(from, to, term, payloads) =>
         payloads != [] && LedBy(cfg, h, term, to)
  }

  ghost predicate NodeFits(cfg: Config, s: State, h: History, v: Id)
    requires v in s.nodes
  {
    s.nodes[v].id == v && s.nodes[v].msgs == {} && NodeOk(cfg, h, s.nodes[v])
  }

  ghost predicate Inv(cfg: Config, s: State, h: History) {
    && cfg.Valid()
    && s.nodes.Keys == cfg.voters
    && (forall v {:trigger NodeFits(cfg, s, h, v)} :: v in s.nodes ==> NodeFits(cfg, s, h, v))
    && (forall m {:trigger MsgOk(cfg, h, m)} :: m in s.net ==> MsgOk(cfg, h, m))
    && HistOk(cfg, h)
  }
}

/** One node of the protocol as a value, and what each event does to it.  Every function
    follows the method of the same name of the source, branch by branch; the class
    `Raft` refines them.  A LOG_FATAL branch sets the flag `fatal`, and messages pile
    up in `msgs` until the caller sends them. */
module RaftCore {
  import opened Types
  import opened LogModel
  import opened ProgressModel
  import opened EntrySize
  import opened Quorum

  datatype Role = Follower | Candidate | Leader | PreCandidate

  /** The fixed parameters of a cluster.  `boot` is the log every node starts with (the
      configuration entries of the bootstrap), all of term 1. */
  datatype Config = Config(voters: set<Id>, boot: seq<Entry>, checkQuorum: bool, preVote: bool,
                           forwardProposals: bool, maxMsgSize: nat, maxInflight: nat) {
    ghost predicate Valid() {
      && 0 !in voters && voters != {}
      && maxInflight > 0
      && Consecutive(boot, 1)
      && forall i :: 0 <= i < |boot| ==> boot[i].term == 1
    }

    function BootTerm(): nat { if boot == [] then 0 else 1 }
  }

  datatype Node = Node(id: Id, term: nat, vote: Id, log: seq<Entry>, commit: nat,
                       role: Role, lead: Id, votes: map<Id, bool>, prs: map<Id, Progress>,
                       msgs: set<Message>, fatal: bool) {
    function Last(): nat { |log| }

    function LogOf(): Log { Log(0, 0, log) }

    function Send(m: Message): Node {
      this.(msgs := msgs + {m})
    }

    /** `send` refuses a vote message without a term. */
    function SendVote(m: Message): Node {
      this.(msgs := msgs + {m}, fatal := fatal || m.term == 0)
    }

    function Quorum(): nat { QuorumSize(prs.Keys) }
  }

  // ---------------------------------------------------------------- roles

  function ResetProgress(cfg: Config, n: Node): map<Id, Progress> {
    map v | v in n.prs :: FreshProgress(n.Last() + 1, if v == n.id then n.Last() else 0, cfg.maxInflight)
  }

  function Reset(cfg: Config, n: Node, term: nat): (r: Node)
    ensures r.id == n.id
  {
    n.(term := term, vote := if n.term != term then 0 else n.vote, lead := 0, votes := map[],
       prs := ResetProgress(cfg, n))
  }

  function BecomeFollower(cfg: Config, n: Node, term: nat, lead: Id): (r: Node)
    ensures r.id == n.id
  {
    Reset(cfg, n, term).(lead := lead, role := Follower)
  }

  function BecomeCandidate(cfg: Config, n: Node): (r: Node)
    ensures r.id == n.id
  {
    Reset(cfg, n, n.term + 1).(vote := n.id, role := Candidate, fatal := n.fatal || n.role == Leader)
  }

  function BecomePreCandidate(n: Node): (r: Node)
    ensures r.id == n.id
  {
    n.(votes := map[], lead := 0, role := PreCandidate, fatal := n.fatal || n.role == Leader)
  }

  ghost function BecomeLeader(cfg: Config, n: Node): (r: Node)
    ensures r.id == n.id
  {
    var r := Reset(cfg, n, n.term).(lead := n.id, role := Leader, fatal := n.fatal || n.role == Follower);
    var self := r.(prs := if n.id in r.prs then r.prs[n.id := r.prs[n.id].BecomeReplicate()] else r.prs);
    AppendEntry(self, [Payload(EntryNormal, [])])
  }

  // ---------------------------------------------------------------- the leader's log

  function NewEntries(n: Node, payloads: seq<Payload>): (es: seq<Entry>)
    ensures |es| == |payloads| && Consecutive(es, n.Last() + 1)
  {
    seq(|payloads|, i requires 0 <= i < |payloads| =>
      Entry(n.term, n.Last() + i + 1, payloads[i].typ, payloads[i].data))
  }

  /** `append_entry`; the quota on uncommitted data, which may drop the proposal, is a
      matter of the caller not taking the step. */
  ghost function AppendEntry(n: Node, payloads: seq<Payload>): (r: Node)
    ensures r.id == n.id
  {
    var log := n.log + NewEntries(n, payloads);
    var a := n.(log := log, fatal := n.fatal || n.Last() < n.commit);
    var p := if n.id in n.prs then a.(prs := a.prs[n.id := a.prs[n.id].MaybeUpdate(|log|).0]) else a;
    MaybeCommit(p).0
  }

  function Matches(n: Node): map<Id, nat> {
    map v | v in n.prs :: n.prs[v].matched
  }

  /** Moves the commit index to the quorum index when that entry is of the current term. */
  ghost function MaybeCommit(n: Node): (r: (Node, bool))
    ensures r.0.id == n.id
  {
    if n.prs.Keys == {} then (n, false)
    else
      var mci := QuorumIndex(Matches(n));
      if mci > n.commit && n.LogOf().Term(mci) == n.term then
        var c := CommitTo(n.LogOf(), n.commit, mci);
        (n.(commit := c.0, fatal := n.fatal || c.1), true)
      else (n, false)
  }

  // ---------------------------------------------------------------- replication messages

  /** The outcome of `maybe_send_append` for one follower. */
  datatype Append = Append(pr: Progress, sent: bool, msg: Message)

  /** `maybe_send_append` on a log without compaction, where the lookups always succeed
      and the snapshot branch is not taken. */
  function AppendFor(cfg: Config, n: Node, pr: Progress, to: Id, sendIfEmpty: bool): (r: Append)
    ensures r.sent ==> !pr.IsPaused() && r.msg.App? && r.msg.from == n.id && r.msg.to == to && r.msg.term == n.term
    ensures !r.sent ==> r.pr == pr
  {
    var prev := if pr.next == 0 then 0 else pr.next - 1;
    var es := if pr.next > n.Last() || pr.next == 0 then [] else LimitSize(cfg.maxMsgSize, n.log[pr.next - 1..]);
    var msg := App(n.id, to, n.term, prev, n.LogOf().Term(prev), es, n.commit);
    if pr.IsPaused() || (es == [] && !sendIfEmpty) then Append(pr, false, msg)
    else if es == [] then Append(pr, true, msg)
    else if pr.state == Replicate then
      var last := es[|es| - 1].index;
      Append(pr.(next := last + 1, ins := pr.ins.Add(last)), true, msg)
    else Append(pr.(paused := true), true, msg)
  }

  /** `next_` is an unsigned integer from which one is subtracted. */
  predicate Underflow(n: Node, to: Id) {
    to in n.prs && n.prs[to].next == 0
  }

  function MaybeSendAppend(cfg: Config, n: Node, to: Id, sendIfEmpty: bool): (r: (Node, bool))
    ensures r.0.id == n.id
  {
    if to !in n.prs then (n, false)
    else
      var r := AppendFor(cfg, n, n.prs[to], to, sendIfEmpty);
      (n.(prs := n.prs[to := r.pr], msgs := if r.sent then n.msgs + {r.msg} else n.msgs,
          fatal := n.fatal || Underflow(n, to)),
       r.sent)
  }

  function SendAppend(cfg: Config, n: Node, to: Id): (r: Node)
    ensures r.id == n.id
  {
    MaybeSendAppend(cfg, n, to, true).0
  }

  function BcastAppend(cfg: Config, n: Node): (r: Node)
    ensures r.id == n.id
  {
    n.(prs := map v | v in n.prs :: if v == n.id then n.prs[v] else AppendFor(cfg, n, n.prs[v], v, true).pr,
       msgs := n.msgs + set v | v in n.prs && v != n.id && AppendFor(cfg, n, n.prs[v], v, true).sent
                          :: AppendFor(cfg, n, n.prs[v], v, true).msg,
       fatal := n.fatal || exists v :: v in n.prs && v != n.id && Underflow(n, v))
  }

  /** How often `maybe_send_append` can still succeed with entries before the follower is paused. */
  function Room(pr: Progress): nat {
    match pr.state
    case Probe => if pr.paused then 0 else 1
    case Replicate => if |pr.ins.q| <= pr.ins.size then pr.ins.size - |pr.ins.q| else 0
    case Snapshot => 0
  }

  /** The loop that sends until `maybe_send_append` answers false. */
  function SendWhile(cfg: Config, n: Node, to: Id): (r: Node)
    ensures r.id == n.id
    decreases if to in n.prs then Room(n.prs[to]) else 0
  {
    var r := MaybeSendAppend(cfg, n, to, false);
    if r.1 then SendWhile(cfg, r.0, to) else r.0
  }

  function HeartbeatFor(n: Node, v: Id): Message
    requires v in n.prs
  {
    Heartbeat(n.id, v, n.term, Min(n.prs[v].matched, n.commit))
  }

  function BcastHeartbeat(n: Node): (r: Node)
    ensures r.id == n.id
  {
    n.(msgs := n.msgs + set v | v in n.prs && v != n.id :: HeartbeatFor(n, v))
  }

  // ---------------------------------------------------------------- elections

  function Granted(votes: map<Id, bool>): set<Id> {
    set v | v in votes && votes[v]
  }

  /** `poll`: a node's first answer counts. */
  function Poll(n: Node, from: Id, granted: bool): (r: Node)
    ensures r.id == n.id
  {
    n.(votes := if from in n.votes then n.votes else n.votes[from := granted])
  }

  ghost function CampaignElection(cfg: Config, n: Node): (r: Node)
    ensures r.id == n.id
  {
    var c := BecomeCandidate(cfg, n);
    var p := Poll(c, c.id, true);
    if p.Quorum() == |Granted(p.votes)| then BecomeLeader(cfg, p)
    else p.(msgs := p.msgs + set v | v in p.prs && v != p.id :: Message.Vote(p.id, v, p.term, p.Last(), p.LogOf().LastTerm()))
  }

  ghost function CampaignPreElection(cfg: Config, n: Node): (r: Node)
    ensures r.id == n.id
  {
    var c := BecomePreCandidate(n);
    var p := Poll(c, c.id, true);
    if p.Quorum() == |Granted(p.votes)| then CampaignElection(cfg, p)
    else p.(msgs := p.msgs + set v | v in p.prs && v != p.id :: Message.PreVote(p.id, v, p.term + 1, p.Last(), p.LogOf().LastTerm()))
  }

  predicate CanVote(n: Node, m: Message) {
    || n.vote == m.from
    || (n.vote == 0 && n.lead == 0)
    || (m.PreVote? && m.term > n.term)
  }

  /** The answer to a vote or pre-vote request. */
  function HandleVote(n: Node, m: Message): (r: Node)
    requires m.Vote? || m.PreVote?
    ensures r.id == n.id
  {
    if CanVote(n, m) && n.LogOf().IsUpToDate(m.index, m.logTerm) then
      if m.Vote? then n.SendVote(VoteResp(n.id, m.from, m.term, false)).(vote := m.from)
      else n.SendVote(PreVoteResp(n.id, m.from, m.term, false))
    else
      if m.Vote? then n.SendVote(VoteResp(n.id, m.from, n.term, true))
      else n.SendVote(PreVoteResp(n.id, m.from, n.term, true))
  }

  // ---------------------------------------------------------------- followers

  function HandleAppendEntries(n: Node, m: Message): (r: Node)
    requires m.App? && Consecutive(m.entries, m.index + 1)
    ensures r.id == n.id
  {
    if m.index < n.commit then n.Send(AppResp(n.id, m.from, n.term, n.commit, false, 0))
    else
      var r := MaybeAppend(n.LogOf(), n.commit, m.index, m.logTerm, m.commit, m.entries);
      var a := n.(log := r.log.ents, commit := r.committed, fatal := n.fatal || r.fatal);
      if r.ok then a.Send(AppResp(n.id, m.from, n.term, r.lastNew, false, 0))
      else a.Send(AppResp(n.id, m.from, n.term, m.index, true, n.Last()))
  }

  function HandleHeartbeat(n: Node, m: Message): (r: Node)
    requires m.Heartbeat?
    ensures r.id == n.id
  {
    var c := CommitTo(n.LogOf(), n.commit, m.commit);
    n.(commit := c.0, fatal := n.fatal || c.1).Send(HeartbeatResp(n.id, m.from, n.term))
  }

  function StepFollower(cfg: Config, n: Node, m: Message): (r: Node)
    requires m.App? ==> Consecutive(m.entries, m.index + 1)
    ensures r.id == n.id
  {
    match m
    case App(_, _, _, _, _, _, _) => HandleAppendEntries(n.(lead := m.from), m)
    case Heartbeat(_, _, _, _) => HandleHeartbeat(n.(lead := m.from), m)
    case Prop(_, _, _, _) =>
      if n.lead == 0 || !cfg.forwardProposals then n
      else n.Send(Prop(n.id, n.lead, n.term, m.payloads)).(fatal := n.fatal || m.term != 0)
    case _ => n
  }

  // ---------------------------------------------------------------- candidates

  ghost function OnVoteResp(cfg: Config, n: Node, m: Message): (r: Node)
    requires m.VoteResp? || m.PreVoteResp?
    ensures r.id == n.id
  {
    var p := Poll(n, m.from, !m.reject);
    var granted := |Granted(p.votes)|;
    if p.Quorum() == granted then
      if p.role == PreCandidate then CampaignElection(cfg, p)
      else BcastAppend(cfg, BecomeLeader(cfg, p))
    else if p.Quorum() == |p.votes| - granted then BecomeFollower(cfg, p, p.term, 0)
    else p
  }

  ghost function StepCandidate(cfg: Config, n: Node, m: Message): (r: Node)
    requires m.App? ==> Consecutive(m.entries, m.index + 1)
    ensures r.id == n.id
  {
    match m
    case App(_, _, _, _, _, _, _) => HandleAppendEntries(BecomeFollower(cfg, n, m.term, m.from), m)
    case Heartbeat(_, _, _, _) => HandleHeartbeat(BecomeFollower(cfg, n, m.term, m.from), m)
    case VoteResp(_, _, _, _) => OnVoteResp(cfg, n, m)
    case PreVoteResp(_, _, _, _) => OnVoteResp(cfg, n, m)
    case _ => n
  }

  // ---------------------------------------------------------------- the leader

  function SetProgress(n: Node, v: Id, p: Progress): (r: Node)
    ensures r.id == n.id
  {
    n.(prs := n.prs[v := p])
  }

  ghost function OnAppResp(cfg: Config, n: Node, m: Message): (r: Node)
    requires m.AppResp? && m.from in n.prs
    ensures r.id == n.id
  {
    var pr := n.prs[m.from].(recentActive := true);
    if m.reject then
      var d := pr.MaybeDecreaseTo(m.index, m.rejectHint);
      if d.1 then
        var p := if d.0.state == Replicate then d.0.BecomeProbe() else d.0;
        SendAppend(cfg, SetProgress(n, m.from, p), m.from)
      else SetProgress(n, m.from, pr)
    else
      var u := pr.MaybeUpdate(m.index);
      if u.1 then
        var c := MaybeCommit(SetProgress(n, m.from, u.0.AfterUpdate(m.index)));
        var s := if c.1 then BcastAppend(cfg, c.0)
                 else if pr.IsPaused() then SendAppend(cfg, c.0, m.from)
                 else c.0;
        SendWhile(cfg, s, m.from)
      else SetProgress(n, m.from, u.0)
  }

  function OnHeartbeatResp(cfg: Config, n: Node, from: Id): (r: Node)
    requires from in n.prs
    ensures r.id == n.id
  {
    var p := n.prs[from].OnHeartbeatResp();
    var s := SetProgress(n, from, p);
    if p.matched < n.Last() then SendAppend(cfg, s, from) else s
  }

  ghost function Propose(cfg: Config, n: Node, payloads: seq<Payload>): (r: Node)
    ensures r.id == n.id
  {
    BcastAppend(cfg, AppendEntry(n.(fatal := n.fatal || payloads == []), payloads))
  }

  ghost function StepLeader(cfg: Config, n: Node, m: Message): (r: Node)
    ensures r.id == n.id
  {
    match m
    case Prop(_, _, _, _) => Propose(cfg, n, m.payloads)
    case AppResp(_, _, _, _, _, _) => if m.from in n.prs then OnAppResp(cfg, n, m) else n
    case HeartbeatResp(_, _, _) => if m.from in n.prs then OnHeartbeatResp(cfg, n, m.from) else n
    case _ => n
  }

  // ---------------------------------------------------------------- one message

  ghost function Dispatch(cfg: Config, n: Node, m: Message): (r: Node)
    requires m.App? ==> Consecutive(m.entries, m.index + 1)
    ensures r.id == n.id
  {
    if m.Vote? || m.PreVote? then HandleVote(n, m)
    else
      match n.role
      case Leader => StepLeader(cfg, n, m)
      case Candidate => StepCandidate(cfg, n, m)
      case PreCandidate => StepCandidate(cfg, n, m)
      case Follower => StepFollower(cfg, n, m)
  }

  /** `Raft::step`.  `inLease` says whether less than an election timeout has passed since
      the node heard from its leader; the transfer marker that would override the lease is
      never attached to a message. */
  ghost function Step(cfg: Config, n: Node, m: Message, inLease: bool): (r: Node)
    requires m.App? ==> Consecutive(m.entries, m.index + 1)
    ensures r.id == n.id
  {
    if m.term == 0 then Dispatch(cfg, n, m)
    else if m.term > n.term then
      if (m.Vote? || m.PreVote?) && cfg.checkQuorum && n.lead != 0 && inLease then n
      else if m.PreVote? || (m.PreVoteResp? && !m.reject) then Dispatch(cfg, n, m)
      else if m.App? || m.Heartbeat? then Dispatch(cfg, BecomeFollower(cfg, n, m.term, m.from), m)
      else Dispatch(cfg, BecomeFollower(cfg, n, m.term, 0), m)
    else if m.term < n.term then
      if (cfg.checkQuorum || cfg.preVote) && (m.Heartbeat? || m.App?) then
        n.Send(AppResp(n.id, m.from, n.term, 0, false, 0))
      else if m.PreVote? then n.SendVote(PreVoteResp(n.id, m.from, n.term, true))
      else n
    else Dispatch(cfg, n, m)
  }

  // ---------------------------------------------------------------- local events

  /** What happens at a node without a message from a peer. */
  datatype Event =
    | Hup                                 // the election timer fired
    | TimeoutNow                          // asked to take over the leadership
    | Beat                                // the heartbeat timer fired
    | CheckQuorum                         // the leader looks for a live majority
    | Unreachable(peer: Id)               // the transport lost a peer
    | Client(payloads: seq<Payload>)      // a proposal of a local client

  function Active(n: Node): set<Id> {
    set v | v in n.prs && (v == n.id || n.prs[v].recentActive)
  }

  ghost function Local(cfg: Config, n: Node, e: Event): (r: Node)
    ensures r.id == n.id
  {
    match e
    case Hup =>
      if n.role == Leader || n.id !in n.prs then n
      else if cfg.preVote then CampaignPreElection(cfg, n)
      else CampaignElection(cfg, n)
    case TimeoutNow =>
      if n.role == Follower && n.id in n.prs then CampaignElection(cfg, n) else n
    case Beat =>
      if n.role == Leader then BcastHeartbeat(n) else n
    case CheckQuorum =>
      if n.role == Leader && |Active(n)| < n.Quorum() then BecomeFollower(cfg, n, n.term, 0) else n
    case Unreachable(v) =>
      if n.role == Leader && v in n.prs && n.prs[v].state == Replicate then
        SetProgress(n, v, n.prs[v].BecomeProbe())
      else n
    case Client(payloads) =>
      match n.role
      case Leader => Propose(cfg, n, payloads)
      case Follower =>
        if n.lead == 0 || !cfg.forwardProposals then n
        else n.Send(Prop(n.id, n.lead, n.term, payloads))
      case _ => n
  }

  /** The constructor: everything but the log and the hard state starts afresh. */
  function Boot(cfg: Config, id: Id, term: nat, vote: Id, log: seq<Entry>, commit: nat): Node {
    Node(id, term, vote, log, commit, Follower, 0, map[],
         map v | v in cfg.voters :: FreshProgress(|log| + 1, if v == id then |log| else 0, cfg.maxInflight),
         {}, commit > |log|)
  }

  /** A restart keeps term, vote and log; the commit index may be an older one, because a
      hard state that differs in it alone is not synced. */
  function Restart(cfg: Config, n: Node, commit: nat): Node {
    Boot(cfg, n.id, n.term, n.vote, n.log, commit)
  }

  function InitNode(cfg: Config, id: Id): Node {
    Boot(cfg, id, cfg.BootTerm(), 0, cfg.boot, |cfg.boot|)
  }
}

/** Whole runs of one server: steps of the raft object on its log, in any order, with calls of the
    Ready loop in between.  The server with its two stores, its pages and its compaction does what
    an ideal one does that keeps one log, never compacts it, and applies it all at once. */
module ServerRun {
  import opened Types
  import opened LogModel
  import opened RaftCore
  import opened LogStores
  import opened RaftLogs
  import opened ReadyLoop

  /** `base` and `machine` are the state machine: a snapshot, and what was applied since. */
  datatype Ideal = Ideal(log: Log, committed: nat, base: nat, machine: seq<Entry>, fatal: bool)

  datatype ServerEvent =
    /** Entries from a leader. */
    | Received(index: nat, logTerm: nat, commit: nat, entries: seq<Entry>)
    /** Entries of the leader itself. */
    | Appended(own: seq<Entry>)
    /** A heartbeat. */
    | Committed(to: nat)
    /** A majority holds the log up to an index. */
    | Counted(majority: nat, term: nat)
    /** A snapshot from a leader. */
    | Offered(snapshot: Snap)
    /** The raft object moves on in term, vote and role, and has messages and answered reads to hand out. */
    | Moved(newTerm: nat, vote: Id, lead: Id, role: Role, msgs: seq<Message>, answers: seq<ReadState>)
    /** A call of the Ready loop; `data` is what a snapshot would hold. */
    | Pulled(data: seq<Byte>)

  predicate WellFormed(e: ServerEvent) {
    && (e.Received? ==> Consecutive(e.entries, e.index + 1))
    && (e.Appended? ==> e.own != [] ==> e.own[0].index > 0 && Consecutive(e.own, e.own[0].index))
  }

  // ---------------------------------------------------------------- the ideal server

  function IdealAppend(i: Ideal, es: seq<Entry>): Ideal
    requires i.log.base <= i.committed
  {
    if es == [] then i
    else if i.committed < es[0].index <= i.log.LastIndex() + 1 then i.(log := i.log.CutAppend(es))
    else i.(fatal := true)
  }

  function IdealCommit(i: Ideal, to: nat): Ideal {
    var (c, fatal) := LogModel.CommitTo(i.log, i.committed, to);
    i.(committed := c, fatal := fatal)
  }

  function IdealReceive(i: Ideal, index: nat, logTerm: nat, commit: nat, es: seq<Entry>): Ideal
    requires i.log.base <= i.committed && Consecutive(es, index + 1)
  {
    if index < i.committed then i
    else
      var o := LogModel.MaybeAppend(i.log, i.committed, index, logTerm, commit, es);
      i.(log := o.log, committed := o.committed, fatal := o.fatal)
  }

  function IdealOffer(i: Ideal, s: Snap): Ideal {
    if s.index <= i.committed then i
    else if i.log.MatchTerm(s.index, s.term) then IdealCommit(i, s.index)
    else i.(log := Log(s.index, s.term, []), committed := s.index)
  }

  /** Everything committed is applied. */
  function IdealPull(i: Ideal): Ideal
    requires i.log.base <= i.committed <= i.log.LastIndex()
  {
    i.(base := i.log.base, machine := i.log.Range(i.log.base + 1, i.committed + 1))
  }

  function IdealStep(i: Ideal, e: ServerEvent): Ideal
    requires WellFormed(e) && i.log.base <= i.committed <= i.log.LastIndex()
  {
    match e
    case Received(index, logTerm, commit, es) => IdealReceive(i, index, logTerm, commit, es)
    case Appended(es) => IdealAppend(i, es)
    case Committed(to) => IdealCommit(i, to)
    case Counted(majority, term) =>
      if majority > i.committed && i.log.Term(majority) == term then IdealCommit(i, majority) else i
    case Offered(s) => IdealOffer(i, s)
    case Moved(_, _, _, _, _, _) => i
    case Pulled(_) => IdealPull(i)
  }

  // ---------------------------------------------------------------- what the ideal server promises

  /** The committed part lies in the log, and what was applied is the beginning of the log, or of an
      earlier log that a snapshot has replaced. */
  ghost predicate Applies(i: Ideal) {
    && i.log.Valid() && i.log.base <= i.committed <= i.log.LastIndex()
    && i.base + |i.machine| <= i.committed
    && (if i.log.base == i.base then i.machine == i.log.ents[..|i.machine|] else i.base + |i.machine| < i.log.base)
  }

  /** Nothing applied is taken back: it is continued, or replaced by a later snapshot. */
  ghost predicate Onward(i: Ideal, j: Ideal) {
    if j.base == i.base then i.machine <= j.machine else i.base + |i.machine| < j.base
  }

  lemma IdealAppends(i: Ideal, es: seq<Entry>)
    requires Applies(i) && es != [] && Consecutive(es, es[0].index)
    requires i.committed < es[0].index <= i.log.LastIndex() + 1
    ensures Applies(i.(log := i.log.CutAppend(es)))
  {
    var n := |i.machine|;
    assert i.log.base == i.base ==> i.log.CutAppend(es).ents[..n] == i.log.ents[..n];
  }

  lemma IdealCommits(i: Ideal, to: nat)
    requires Applies(i)
    ensures Applies(IdealCommit(i, to))
  {
  }

  /** `maybe_append` with a conflict is a cut there, and then a commit. */
  lemma ReceiveCuts(i: Ideal, index: nat, logTerm: nat, commit: nat, es: seq<Entry>, ci: nat)
    requires i.log.base <= i.committed <= index && Consecutive(es, index + 1) && i.log.MatchTerm(index, logTerm)
    requires 0 < ci == i.log.FindConflict(es) <= i.log.LastIndex() + 1
    requires index < ci <= index + |es| && es[ci - index - 1].index == ci
    ensures IdealReceive(i, index, logTerm, commit, es)
         == IdealCommit(i.(log := i.log.CutAppend(es[ci - index - 1..])), Min(commit, index + |es|))
  {
    var log1 := i.log.CutAppend(es[ci - index - 1..]);
    var (c, fatal) := LogModel.CommitTo(log1, i.committed, Min(commit, index + |es|));
    CutIsMatched(i.log, i.committed, index, commit, es, ci, log1, c, fatal);
    MatchedIs(i.log, i.committed, index, logTerm, commit, es, log1, c, fatal);
    ReceiveIs(i, index, logTerm, commit, es, Outcome(log1, c, index + |es|, true, fatal));
  }

  lemma ReceiveIs(i: Ideal, index: nat, logTerm: nat, commit: nat, es: seq<Entry>, o: Outcome)
    requires i.log.base <= i.committed <= index && Consecutive(es, index + 1)
    requires o == LogModel.MaybeAppend(i.log, i.committed, index, logTerm, commit, es)
    ensures IdealReceive(i, index, logTerm, commit, es) == i.(log := o.log, committed := o.committed, fatal := o.fatal)
  {
  }

  lemma CutIsMatched(log: Log, committed: nat, index: nat, commit: nat, es: seq<Entry>, ci: nat,
                     log1: Log, c: nat, fatal: bool)
    requires log.base <= committed < ci == log.FindConflict(es) <= log.LastIndex() + 1
    requires index < ci <= index + |es| && es[ci - index - 1].index == ci
    requires log1 == log.CutAppend(es[ci - index - 1..])
    requires (c, fatal) == LogModel.CommitTo(log1, committed, Min(commit, index + |es|))
    ensures Matched(log, committed, index, commit, es, log1, c, fatal)
  {
  }

  /** Without a conflict it commits only, and it aborts on a gap. */
  lemma ReceiveCommits(i: Ideal, index: nat, logTerm: nat, commit: nat, es: seq<Entry>)
    requires i.log.base <= i.committed <= index && Consecutive(es, index + 1) && i.log.MatchTerm(index, logTerm)
    ensures var ci, j := i.log.FindConflict(es), IdealReceive(i, index, logTerm, commit, es);
            if ci == 0 then j == IdealCommit(i, Min(commit, index + |es|))
            else ci > i.log.LastIndex() + 1 ==> j == i.(fatal := true)
  {
  }

  lemma IdealReceives(i: Ideal, index: nat, logTerm: nat, commit: nat, es: seq<Entry>)
    requires Applies(i) && Consecutive(es, index + 1)
    ensures Applies(IdealReceive(i, index, logTerm, commit, es))
  {
    if index >= i.committed && i.log.MatchTerm(index, logTerm) {
      var ci, to := i.log.FindConflict(es), Min(commit, index + |es|);
      if 0 < ci <= i.log.LastIndex() + 1 {
        ConflictPlace(i.log, index, es);
        ReceiveCuts(i, index, logTerm, commit, es, ci);
        var news := es[ci - index - 1..];
        IdealAppends(i, news);
        IdealCommits(i.(log := i.log.CutAppend(news)), to);
      } else {
        ReceiveCommits(i, index, logTerm, commit, es);
        IdealCommits(i, to);
      }
    }
  }

  lemma IdealPulls(i: Ideal)
    requires Applies(i)
    ensures Applies(IdealPull(i)) && Onward(i, IdealPull(i))
  {
    assert IdealPull(i).machine == i.log.ents[..i.committed - i.log.base];
  }

  /** Each step keeps the ideal server in order and takes back nothing that was applied. */
  lemma IdealStepOk(i: Ideal, e: ServerEvent)
    requires WellFormed(e) && Applies(i)
    ensures Applies(IdealStep(i, e)) && Onward(i, IdealStep(i, e))
  {
    match e
    case Received(index, logTerm, commit, es) => IdealReceives(i, index, logTerm, commit, es);
    case Appended(es) =>
      if es != [] && i.committed < es[0].index <= i.log.LastIndex() + 1 { IdealAppends(i, es); }
    case Pulled(_) => IdealPulls(i);
    case _ =>
  }

  predicate AllWellFormed(events: seq<ServerEvent>) {
    forall k {:trigger events[k]} :: 0 <= k < |events| ==> WellFormed(events[k])
  }

  /** An abort ends the run. */
  ghost function IdealRun(i: Ideal, events: seq<ServerEvent>): (j: Ideal)
    requires Applies(i) && AllWellFormed(events)
    ensures Applies(j) && Onward(i, j)
  {
    if events == [] then i
    else
      var m := IdealRun(i, events[..|events| - 1]);
      if m.fatal then m
      else
        IdealStepOk(m, events[|events| - 1]);
        IdealStep(m, events[|events| - 1])
  }

  lemma IdealRunSnoc(i: Ideal, events: seq<ServerEvent>, e: ServerEvent)
    requires Applies(i) && AllWellFormed(events) && WellFormed(e)
    ensures AllWellFormed(events + [e])
    ensures var m := IdealRun(i, events);
            IdealRun(i, events + [e]) == if m.fatal then m else IdealStep(m, e)
  {
    assert (events + [e])[..|events|] == events;
  }

  // ---------------------------------------------------------------- compaction does not matter

  lemma TermDropped(l: Log, at: nat, i: nat)
    requires l.base <= at <= l.LastIndex() && at <= i
    ensures Dropped(l, at).Term(i) == l.Term(i)
  {
  }

  lemma {:induction false} ConflictDropped(l: Log, at: nat, es: seq<Entry>, first: nat)
    requires l.base <= at <= l.LastIndex() && at <= first && Consecutive(es, first)
    ensures Dropped(l, at).FindConflict(es) == l.FindConflict(es)
  {
    if es != [] {
      TermDropped(l, at, first);
      assert Consecutive(es[1..], first + 1);
      ConflictDropped(l, at, es[1..], first + 1);
    }
  }

  lemma CutDropped(l: Log, at: nat, es: seq<Entry>)
    requires l.base <= at <= l.LastIndex() && es != [] && at < es[0].index <= l.LastIndex() + 1
    ensures Dropped(l.CutAppend(es), at) == Dropped(l, at).CutAppend(es)
  {
    var n, k := es[0].index - l.base - 1, at - l.base;
    assert l.ents[k..][..n - k] == l.ents[..n][k..];
    assert (l.ents[..n] + es)[k..] == l.ents[..n][k..] + es;
  }

  /** Entries from a leader have the same effect on a compacted log. */
  lemma MaybeAppendDropped(l: Log, at: nat, committed: nat, index: nat, logTerm: nat, commit: nat, es: seq<Entry>)
    requires l.base <= at <= committed <= index && at <= l.LastIndex() && Consecutive(es, index + 1)
    ensures var o := LogModel.MaybeAppend(l, committed, index, logTerm, commit, es);
            && o.log.base == l.base && at <= o.log.LastIndex()
            && LogModel.MaybeAppend(Dropped(l, at), committed, index, logTerm, commit, es)
               == o.(log := Dropped(o.log, at))
  {
    TermDropped(l, at, index);
    ConflictDropped(l, at, es, index + 1);
    ConflictInRange(l, es, index + 1);
    var ci := l.FindConflict(es);
    if committed < ci <= l.LastIndex() + 1 { CutDropped(l, at, es[ci - index - 1..]); }
  }

  // ---------------------------------------------------------------- the server

  /** The server stands where the ideal one does; only its log may have been compacted, and a
      snapshot that has arrived may not have reached the state machine. */
  ghost predicate Refines(s: Server, i: Ideal)
    reads s, s.log, s.log.storage, s.log.unstable
  {
    && s.Valid() && Applies(i) && Compacted(s.log, i)
    && s.machineBase == i.base && s.machine == i.machine
    && (if s.log.unstable.snapshot.Some? then i.log.base == s.log.contents.base else i.log.base == i.base)
  }

  ghost predicate Compacted(log: RaftLog, i: Ideal)
    reads log`contents, log`committed
  {
    && log.committed == i.committed
    && i.log.base <= log.contents.base <= i.log.LastIndex() && log.contents == Dropped(i.log, log.contents.base)
  }

  method Receive(s: Server, index: nat, logTerm: nat, commit: nat, es: seq<Entry>, ghost i: Ideal) returns (fatal: bool)
    requires Refines(s, i) && !i.fatal && Consecutive(es, index + 1)
    modifies s.log, s.log.unstable
    ensures var j := IdealReceive(i, index, logTerm, commit, es); fatal == j.fatal && (!fatal ==> Refines(s, j))
  {
    if index < s.log.committed { return false; }
    MaybeAppendDropped(i.log, s.log.contents.base, i.committed, index, logTerm, commit, es);
    IdealReceives(i, index, logTerm, commit, es);
    var _, _, f := s.log.MaybeAppend(index, logTerm, commit, es);
    fatal := f;
  }

  method Append(s: Server, es: seq<Entry>, ghost i: Ideal) returns (fatal: bool)
    requires Refines(s, i) && !i.fatal && (es != [] ==> es[0].index > 0 && Consecutive(es, es[0].index))
    modifies s.log, s.log.unstable
    ensures var j := IdealAppend(i, es); fatal == j.fatal && (!fatal ==> Refines(s, j))
  {
    if es != [] && i.committed < es[0].index <= i.log.LastIndex() + 1 {
      CutDropped(i.log, s.log.contents.base, es);
      IdealAppends(i, es);
    }
    var _, f := s.log.Append(es);
    fatal := f;
  }

  method Commit(s: Server, to: nat, ghost i: Ideal) returns (fatal: bool)
    requires Refines(s, i) && !i.fatal
    modifies s.log`committed
    ensures var j := IdealCommit(i, to); fatal == j.fatal && (!fatal ==> Refines(s, j))
  {
    fatal := s.log.CommitTo(to);
  }

  method Count(s: Server, majority: nat, term: nat, ghost i: Ideal) returns (fatal: bool)
    requires Refines(s, i) && !i.fatal
    modifies s.log`committed
    ensures var j := IdealStep(i, Counted(majority, term)); fatal == j.fatal && (!fatal ==> Refines(s, j))
  {
    if majority > s.log.committed { TermDropped(i.log, s.log.contents.base, majority); }
    var _, f := s.log.MaybeCommit(majority, term);
    fatal := f;
  }

  /** `Raft::restore`: an old snapshot is ignored, and one that the log already holds only commits. */
  method Offer(s: Server, snapshot: Snap, ghost i: Ideal) returns (fatal: bool)
    requires Refines(s, i) && !i.fatal
    modifies s.log, s.log.unstable
    ensures var j := IdealOffer(i, snapshot); fatal == j.fatal && (!fatal ==> Refines(s, j))
  {
    if snapshot.index <= s.log.committed { return false; }
    TermDropped(i.log, s.log.contents.base, snapshot.index);
    var known := s.log.MatchTerm(snapshot.index, snapshot.term);
    if known {
      fatal := Commit(s, snapshot.index, i);
      return;
    }
    s.log.Restore(snapshot);
    assert Dropped(Log(snapshot.index, snapshot.term, []), snapshot.index) == Log(snapshot.index, snapshot.term, []);
    return false;
  }

  /** The term does not go back, and the vote of a term does not change. */
  predicate Forward(term: nat, vote: Id, newTerm: nat, newVote: Id) {
    newTerm > term || (newTerm == term && (vote == 0 || newVote == vote))
  }

  method Move(s: Server, newTerm: nat, vote: Id, lead: Id, role: Role, msgs: seq<Message>,
              answers: seq<ReadState>, ghost i: Ideal)
    requires Refines(s, i) && Forward(s.term, s.vote, newTerm, vote)
    modifies s`term, s`vote, s`lead, s`role, s`msgs, s`readStates
    ensures Refines(s, i) && s.term == newTerm && s.vote == vote
  {
    s.term, s.vote, s.lead, s.role := newTerm, vote, lead, role;
    s.msgs, s.readStates := s.msgs + msgs, s.readStates + answers;
  }

  /** What the pages of a compacted log add up to. */
  lemma PagesAddUp(l: Log, at: nat, from: nat, before: seq<Entry>, to: nat, after: seq<Entry>)
    requires l.base <= at <= from <= to <= l.LastIndex() && before == l.ents[..from - l.base]
    requires Delivered(Dropped(l, at), from, before, to, after)
    ensures after == l.Range(l.base + 1, to + 1)
  {
    DeliveredIsRange(Dropped(l, at), from, before, to, after);
    assert l.ents[at - l.base..][from - at..to - at] == l.ents[from - l.base..to - l.base];
  }

  lemma DroppedTwice(l: Log, at: nat, now: Log)
    requires l.base <= at <= l.LastIndex() && Remains(Dropped(l, at), now)
    ensures l.base <= now.base <= l.LastIndex() && now == Dropped(l, now.base)
  {
    RemainsIsDropped(Dropped(l, at), now);
    TermDropped(l, at, now.base);
    assert l.ents[at - l.base..][now.base - at..] == l.ents[now.base - l.base..];
  }

  /** Where the next page begins. */
  lemma StartIs(s: Server, i: Ideal)
    requires Refines(s, i)
    ensures i.log.base <= s.log.contents.base <= s.Start() <= i.committed <= i.log.LastIndex()
    ensures s.Kept() == i.log.ents[..s.Start() - i.log.base]
  {
    s.StartFacts();
  }

  method Pull(s: Server, data: seq<Byte>, ghost i: Ideal)
    requires Refines(s, i)
    modifies s, s.log, s.log.storage, s.log.unstable
    ensures Refines(s, IdealPull(i)) && s.term == old(s.term) && s.vote == old(s.vote)
  {
    ghost var at, from, before := s.log.contents.base, s.Start(), s.Kept();
    StartIs(s, i);
    s.PullReadyEvents(data);
    PagesAddUp(i.log, at, from, before, i.committed, s.machine);
    DroppedTwice(i.log, at, s.log.contents);
    IdealPulls(i);
    assert Compacted(s.log, IdealPull(i));
  }

  /** The terms and votes of a run, from these on. */
  predicate InOrder(events: seq<ServerEvent>, term: nat, vote: Id) {
    if events == [] then true
    else if events[0].Moved? then
      Forward(term, vote, events[0].newTerm, events[0].vote) && InOrder(events[1..], events[0].newTerm, events[0].vote)
    else InOrder(events[1..], term, vote)
  }

  method Do(s: Server, e: ServerEvent, ghost i: Ideal) returns (fatal: bool)
    requires Refines(s, i) && !i.fatal && WellFormed(e) && (e.Moved? ==> Forward(s.term, s.vote, e.newTerm, e.vote))
    modifies s, s.log, s.log.storage, s.log.unstable
    ensures var j := IdealStep(i, e); fatal == j.fatal && (!fatal ==> Refines(s, j))
    ensures if e.Moved? then s.term == e.newTerm && s.vote == e.vote else s.term == old(s.term) && s.vote == old(s.vote)
  {
    fatal := false;
    match e
    case Received(index, logTerm, commit, es) => fatal := Receive(s, index, logTerm, commit, es, i);
    case Appended(es) => fatal := Append(s, es, i);
    case Committed(to) => fatal := Commit(s, to, i);
    case Counted(majority, term) => fatal := Count(s, majority, term, i);
    case Offered(snapshot) => fatal := Offer(s, snapshot, i);
    case Moved(newTerm, vote, lead, role, msgs, answers) => Move(s, newTerm, vote, lead, role, msgs, answers, i);
    case Pulled(data) => Pull(s, data, i);
  }

  /** Runs refine: whatever happens, and however often the Ready loop is called in between, the server
      stays where the ideal one is, and aborts only if that one does.  So after each call of the
      loop the state machine holds all committed entries, each once and in order. */
  method Run(s: Server, events: seq<ServerEvent>, ghost i: Ideal) returns (fatal: bool)
    requires Refines(s, i) && !i.fatal && AllWellFormed(events) && InOrder(events, s.term, s.vote)
    modifies s, s.log, s.log.storage, s.log.unstable
    ensures var j := IdealRun(i, events);
            && fatal == j.fatal
            && (!fatal ==> Refines(s, j))
            && (!fatal && events != [] && events[|events| - 1].Pulled? ==> CaughtUp(j))
  {
    fatal := false;
    var k := 0;
    ghost var j := i;
    while k < |events| && !fatal
      invariant k <= |events| && AllWellFormed(events[..k]) && j == IdealRun(i, events[..k]) && fatal == j.fatal
      invariant !fatal ==> Refines(s, j) && InOrder(events[k..], s.term, s.vote)
    {
      IdealRunSnoc(i, events[..k], events[k]);
      FrontSnoc(events, k);
      fatal := Do(s, events[k], j);
      j := IdealStep(j, events[k]);
      k := k + 1;
    }
    FrontSnoc(events, k);
    assert events == events[..k] + events[k..];
    if fatal { AbortStays(i, events[..k], events[k..]); } else { AllPulled(i, events); }
  }

  lemma AllPulled(i: Ideal, events: seq<ServerEvent>)
    requires Applies(i) && AllWellFormed(events) && !IdealRun(i, events).fatal
    ensures events != [] && events[|events| - 1].Pulled? ==> CaughtUp(IdealRun(i, events))
  {
    if events != [] && events[|events| - 1].Pulled? {
      var m := IdealRun(i, events[..|events| - 1]);
      assert IdealRun(i, events) == IdealPull(m);
      PullCatchesUp(m);
    }
  }

  /** Everything committed has been applied, and nothing else. */
  ghost predicate CaughtUp(j: Ideal)
    requires Applies(j)
  {
    j.base == j.log.base && j.machine == j.log.Range(j.log.base + 1, j.committed + 1)
  }

  lemma PullCatchesUp(m: Ideal)
    requires Applies(m)
    ensures Applies(IdealPull(m)) && CaughtUp(IdealPull(m))
  {
    IdealPulls(m);
  }

  lemma FrontSnoc<T>(s: seq<T>, k: nat)
    requires k <= |s|
    ensures k < |s| ==> s[..k] + [s[k]] == s[..k + 1] && s[k..][0] == s[k] && s[k..][1..] == s[k + 1..]
    ensures k == |s| ==> s[..k] == s
  {
  }

  /** An aborted run does nothing more. */
  lemma {:induction false} AbortStays(i: Ideal, events: seq<ServerEvent>, more: seq<ServerEvent>)
    requires Applies(i) && AllWellFormed(events) && AllWellFormed(more) && IdealRun(i, events).fatal
    ensures AllWellFormed(events + more) && IdealRun(i, events + more) == IdealRun(i, events)
  {
    if more == [] {
      assert events + more == events;
    } else {
      var front, last := more[..|more| - 1], more[|more| - 1];
      AbortStays(i, events, front);
      IdealRunSnoc(i, events + front, last);
      assert events + front + [last] == events + more;
    }
  }

  /** A run that goes on takes nothing back. */
  lemma {:induction false} RunOnward(i: Ideal, events: seq<ServerEvent>, more: seq<ServerEvent>)
    requires Applies(i) && AllWellFormed(events) && AllWellFormed(more)
    ensures AllWellFormed(events + more) && Onward(IdealRun(i, events), IdealRun(i, events + more))
  {
    if more == [] {
      assert events + more == events;
    } else {
      var front, last := more[..|more| - 1], more[|more| - 1];
      RunOnward(i, events, front);
      IdealRunSnoc(i, events + front, last);
      assert events + front + [last] == events + more;
      if !IdealRun(i, events + front).fatal { IdealStepOk(IdealRun(i, events + front), last); }
    }
  }

  /** A server that starts from nothing, or from a snapshot in its store. */
  method Start(storage: MemoryStorage, maxNextEntsSize: nat, snapCount: nat, catchUp: nat, term: nat, vote: Id)
    returns (s: Server, ghost i: Ideal)
    requires storage.Valid() && storage.AsLog().base == storage.snapshot.index && catchUp <= snapCount
    ensures Refines(s, i) && s.term == term && s.vote == vote
    ensures i == Ideal(storage.AsLog(), storage.AsLog().base, storage.AsLog().base, [], false)
  {
    var log := new RaftLog(storage, maxNextEntsSize);
    s := new Server(log, snapCount, catchUp, term, vote);
    i := Ideal(log.contents, log.committed, s.machineBase, [], false);
    assert Dropped(log.contents, log.contents.base) == log.contents;
  }
}

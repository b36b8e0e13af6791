/** The Ready/advance loop of one server: what the raft object has produced is persisted, sent
    and applied, in pages of limited size, until nothing is left to do. */
module ReadyLoop {
  import opened Types
  import opened LogModel
  import opened EntrySize
  import opened RaftCore
  import opened LogStores
  import opened RaftLogs

  datatype SoftState = SoftState(lead: Id, role: Role)

  datatype ReadState = ReadState(index: nat, ctx: seq<Byte>)

  datatype Ready = Ready(soft: Option<SoftState>, hard: HardState, entries: seq<Entry>, snapshot: Option<Snap>,
                         committed: seq<Entry>, messages: seq<Message>, readStates: seq<ReadState>) {
    /** The source asks whether there are no read states where it means whether there are any. */
    predicate ContainsUpdates() {
      || soft.Some? || !hard.IsEmpty() || snapshot.Some? || entries != [] || committed != [] || messages != []
      || readStates == []
    }

    /** How far this step lets the application get; 0 if it applies nothing. */
    function AppliedCursor(): nat {
      if committed != [] then committed[|committed| - 1].index
      else match snapshot case Some(s) => s.index case None => 0
    }
  }

  // ---------------------------------------------------------------- pages of the log

  /** `page` is the part of the log that follows index `from`. */
  ghost predicate Follows(l: Log, from: nat, page: seq<Entry>) {
    && l.base <= from && from + |page| <= l.LastIndex()
    && forall k {:trigger FollowsAt(l, from, page, k)} :: 0 <= k < |page| ==> FollowsAt(l, from, page, k)
  }

  ghost predicate FollowsAt(l: Log, from: nat, page: seq<Entry>, k: nat)
    requires k < |page| && l.base <= from && from + |page| <= l.LastIndex()
  {
    page[k] == l.ents[from + k - l.base] && page[k].index == from + k + 1
  }

  /** The state machine has gone from `before`, at index `from`, to `after`, at index `to`, by the
      entries of the log in between: each once, in order. */
  ghost predicate Delivered(l: Log, from: nat, before: seq<Entry>, to: nat, after: seq<Entry>) {
    && l.base <= from <= to <= l.LastIndex() && |after| == |before| + (to - from)
    && forall k {:trigger DeliveredAt(l, from, before, after, k)} :: 0 <= k < |after| ==> DeliveredAt(l, from, before, after, k)
  }

  ghost predicate DeliveredAt(l: Log, from: nat, before: seq<Entry>, after: seq<Entry>, k: nat)
    requires k < |after| && l.base <= from && |before| <= |after| && from + |after| - |before| <= l.LastIndex()
  {
    after[k] == if k < |before| then before[k] else l.ents[from + (k - |before|) - l.base]
  }

  /** What is left of a log after its beginning was compacted away. */
  ghost predicate Remains(l: Log, now: Log) {
    && l.base <= now.base <= l.LastIndex() == now.LastIndex() && now.baseTerm == l.Term(now.base)
    && forall i {:trigger RemainsAt(l, now, i)} :: now.base < i <= l.LastIndex() ==> RemainsAt(l, now, i)
  }

  ghost predicate RemainsAt(l: Log, now: Log, i: nat)
    requires l.base <= now.base < i <= l.LastIndex() == now.LastIndex()
  {
    now.ents[i - now.base - 1] == l.ents[i - l.base - 1]
  }

  /** In other words: the range of the log in between has been appended. */
  lemma DeliveredIsRange(l: Log, from: nat, before: seq<Entry>, to: nat, after: seq<Entry>)
    requires l.base <= from <= to <= l.LastIndex()
    ensures Delivered(l, from, before, to, after) <==> after == before + l.Range(from + 1, to + 1)
  {
    var sum := before + l.Range(from + 1, to + 1);
    if Delivered(l, from, before, to, after) {
      forall k | 0 <= k < |after| ensures after[k] == sum[k] {
        assert DeliveredAt(l, from, before, after, k);
      }
    }
  }

  /** In other words: a prefix has been dropped. */
  lemma RemainsIsDropped(l: Log, now: Log)
    requires l.base <= now.base <= l.LastIndex()
    ensures Remains(l, now) <==> now == Dropped(l, now.base)
  {
    if Remains(l, now) {
      forall k | 0 <= k < |now.ents| ensures now.ents[k] == Dropped(l, now.base).ents[k] {
        assert RemainsAt(l, now, now.base + 1 + k);
      }
    }
  }

  lemma NothingYet(l: Log, from: nat, before: seq<Entry>)
    requires l.base <= from <= l.LastIndex()
    ensures Delivered(l, from, before, from, before) && Remains(l, l)
  {
  }

  lemma RemainsOn(l: Log, now: Log, later: Log)
    requires Remains(l, now) && Remains(now, later)
    ensures Remains(l, later)
  {
    if later.base > now.base { assert RemainsAt(l, now, later.base); }
    forall i | later.base < i <= l.LastIndex() ensures RemainsAt(l, later, i) {
      assert RemainsAt(l, now, i) && RemainsAt(now, later, i);
    }
  }

  lemma DeliveredOn(l: Log, now: Log, from: nat, before: seq<Entry>, mid: nat, m: seq<Entry>, to: nat, after: seq<Entry>)
    requires Delivered(l, from, before, mid, m) && Remains(l, now) && Delivered(now, mid, m, to, after)
    ensures Delivered(l, from, before, to, after)
  {
    forall k | 0 <= k < |after| ensures DeliveredAt(l, from, before, after, k) {
      assert DeliveredAt(now, mid, m, after, k);
      if k < |m| { assert DeliveredAt(l, from, before, m, k); } else { assert RemainsAt(l, now, mid + k - |m| + 1); }
    }
  }

  lemma OneMoreDelivered(l: Log, from: nat, before: seq<Entry>, to: nat, after: seq<Entry>, page: seq<Entry>, k: nat)
    requires Delivered(l, from, before, to, after) && Follows(l, from, page) && k < |page| && to == from + k
    ensures page[k].index == to + 1 && Delivered(l, from, before, to + 1, after + [page[k]])
  {
    var after' := after + [page[k]];
    assert FollowsAt(l, from, page, k);
    forall i | 0 <= i < |after'| ensures DeliveredAt(l, from, before, after', i) {
      if i < |after| { assert DeliveredAt(l, from, before, after, i); }
    }
  }

  lemma FollowsInOrder(l: Log, from: nat, page: seq<Entry>)
    requires Follows(l, from, page)
    ensures Consecutive(page, from + 1)
  {
    forall k | 0 <= k < |page| ensures page[k].index == from + 1 + k {
      assert FollowsAt(l, from, page, k);
    }
  }

  /** The first entries of a range, as many as fit. */
  lemma PageOfRange(l: Log, maxSize: nat, from: nat, to: nat)
    requires l.Valid() && l.base <= from < to <= l.LastIndex()
    ensures var page := LimitSize(maxSize, l.Range(from + 1, to + 1));
            page != [] && from + |page| <= to && Follows(l, from, page)
  {
    var page := LimitSize(maxSize, l.Range(from + 1, to + 1));
    forall k | 0 <= k < |page| ensures FollowsAt(l, from, page, k) {
      assert page[k] == l.Range(from + 1, to + 1)[k];
    }
  }

  // ---------------------------------------------------------------- the store

  /** The store once a snapshot, if there is one, and the entries have been written to it. */
  function AfterPersist(st: Log, snap: Option<Snap>, es: seq<Entry>): Log
    requires es != [] && snap.None? ==> st.base < es[0].index <= st.LastIndex() + 1
    requires es != [] && snap.Some? ==> es[0].index == snap.value.index + 1
  {
    match snap
    case None => st.CutAppend(es)
    case Some(s) => Log(s.index, s.term, []).CutAppend(es)
  }

  /** With the whole tail written, the store alone is the log. */
  lemma PersistedIsWhole(l: Log, st: Log, snap: Option<Snap>, offset: nat, es: seq<Entry>)
    requires Joins(l, st, snap, offset, es) && Consecutive(es, offset)
    requires es == [] ==> offset == EmptyTailOffset(st, snap)
    requires snap.Some? ==> offset == snap.value.index + 1
    ensures AfterPersist(st, snap, es) == l
  {
    var st' := AfterPersist(st, snap, es);
    var none: seq<Entry> := [];
    if snap.Some? {
      PersistSnapshot(l, st, snap.value, es);
    } else if es != [] {
      PersistPrefix(l, st, offset, es, es);
      assert es[|es|..] == none;
      LastOfBatch(st, es);
    }
    assert Joins(l, st', None, st'.LastIndex() + 1, none);
    StoreIsWhole(st');
    JoinIsUnique(l, st', st', None, st'.LastIndex() + 1, none);
  }

  class Server {
    const log: RaftLog
    /** A snapshot is taken every `snapCount` applied entries and leaves `catchUp` entries in the log. */
    const snapCount: nat
    const catchUp: nat

    // what the raft object holds besides its log
    var term: nat
    var vote: Id
    var lead: Id
    var role: Role
    var msgs: seq<Message>
    var readStates: seq<ReadState>
    var prevSoft: SoftState
    var prevHard: HardState

    // the server
    var appliedIndex: nat
    var snapshotIndex: nat
    var sent: seq<Message>

    /** The state machine: a snapshot up to `machineBase`, and the entries applied since. */
    var machineBase: nat
    var machine: seq<Entry>

    /** A server that starts from a snapshot already in the store, or from nothing. */
    constructor (log: RaftLog, snapCount: nat, catchUp: nat, term: nat, vote: Id)
      requires log.Valid() && catchUp <= snapCount && log.unstable.snapshot == None
      requires log.applied == log.contents.base == log.storage.AsLog().base == log.storage.snapshot.index
      ensures Valid() && this.log == log && appliedIndex == log.applied && machine == []
      ensures this.term == term && this.vote == vote
    {
      this.log, this.snapCount, this.catchUp := log, snapCount, catchUp;
      this.term, this.vote, lead, role := term, vote, 0, Follower;
      msgs, readStates, sent := [], [], [];
      prevSoft, prevHard := SoftState(0, Follower), HardState(0, 0, 0);
      appliedIndex, snapshotIndex, machineBase, machine := log.applied, log.applied, log.applied, [];
    }

    function Soft(): SoftState
      reads this`lead, this`role
    {
      SoftState(lead, role)
    }

    function Hard(): HardState
      reads this`term, this`vote, log`committed
    {
      HardState(term, vote, log.committed)
    }

    ghost predicate Valid()
      reads this`term, this`vote, this`prevHard, this`appliedIndex, this`snapshotIndex, this`machineBase, this`machine
      reads log, log.storage, log.unstable
    {
      log.Valid() && Counters()
    }

    /** The hard state never becomes empty again. */
    predicate HardTracked()
      reads this`term, this`vote, this`prevHard, log`committed
    {
      Hard().IsEmpty() ==> prevHard.IsEmpty()
    }

    /** `rd` reports the soft and the hard state if they are new, and all read states. */
    predicate StatesTaken(rd: Ready)
      reads this`term, this`vote, this`lead, this`role, this`prevSoft, this`prevHard, this`readStates, log`committed
    {
      && rd.soft == (if Soft() == prevSoft then None else Some(Soft()))
      && rd.hard == (if Hard() == prevHard then HardState(0, 0, 0) else Hard())
      && rd.readStates == readStates
    }

    /** The cursors of log and server agree, and a waiting snapshot is news to both. */
    ghost predicate Counters()
      reads this`term, this`vote, this`prevHard, this`appliedIndex, this`snapshotIndex, this`machineBase, this`machine
      reads log, log.storage, log.unstable
      requires log.storage.Valid()
    {
      && catchUp <= snapCount
      && log.applied == appliedIndex <= log.committed
      && log.storage.AsLog().base <= snapshotIndex <= appliedIndex && log.storage.snapshot.index <= snapshotIndex
      && machineBase + |machine| == appliedIndex
      && HardTracked()
      && (log.unstable.snapshot.Some? ==>
            && log.unstable.snapshot.value.index > appliedIndex
            && log.unstable.offset == log.unstable.snapshot.value.index + 1)
    }

    /** Something other than entries to apply and read states is waiting. */
    ghost predicate Dirty()
      reads this, log, log.unstable
    {
      || Soft() != prevSoft || (!Hard().IsEmpty() && Hard() != prevHard)
      || log.unstable.snapshot.Some? || msgs != [] || log.unstable.entries != []
    }

    /** Read states are all there is to report. */
    ghost predicate OnlyReads()
      reads this, log, log.unstable
    {
      readStates != [] && !Dirty() && log.committed <= appliedIndex
    }

    method HasReady() returns (b: bool)
      requires Valid()
      ensures b <==> || SoftState(lead, role) != prevSoft
                     || (HardState(term, vote, log.committed) != HardState(0, 0, 0) && HardState(term, vote, log.committed) != prevHard)
                     || log.unstable.snapshot != None || log.unstable.entries != [] || msgs != []
                     || log.committed > appliedIndex || readStates != []
    {
      if Soft() != prevSoft { return true; }
      if !Hard().IsEmpty() && Hard() != prevHard { return true; }
      if log.unstable.snapshot.Some? { return true; }
      var next := log.HasNextEntries();
      if msgs != [] || log.unstable.entries != [] || next { return true; }
      assert log.contents.base <= appliedIndex;
      return readStates != [];
    }

    /** `page` is some of the committed entries that come next, and none only if there are none. */
    ghost predicate IsPage(page: seq<Entry>)
      reads log`applied, log`contents, log`committed
    {
      && log.NextOffset() + |page| <= log.committed + 1
      && (page == [] <==> log.committed + 1 == log.NextOffset())
      && Follows(log.contents, log.NextOffset() - 1, page)
    }

    /** `rd` is what `TakeReady` has just handed out. */
    ghost predicate Taken(rd: Ready)
      reads this, log, log.unstable
    {
      && StatesTaken(rd) && IsPage(rd.committed)
      && rd.entries == log.unstable.entries && rd.snapshot == log.unstable.snapshot
    }

    method TakeReady() returns (rd: Ready)
      requires Valid()
      modifies this`msgs
      ensures Valid() && Taken(rd) && rd.messages == old(msgs) && msgs == []
    {
      var committed := TakePage();
      rd := Ready(if Soft() == prevSoft then None else Some(Soft()),
                  if Hard() == prevHard then HardState(0, 0, 0) else Hard(),
                  log.unstable.entries, log.unstable.snapshot, committed, msgs, readStates);
      msgs := [];
    }

    /** The next committed entries, up to the size limit. */
    method TakePage() returns (page: seq<Entry>)
      requires log.Valid() && log.applied <= log.committed
      ensures IsPage(page)
      ensures page != [] ==> log.committed <= log.contents.LastIndex()
      ensures page != [] ==> page == LimitSize(log.maxNextEntsSize, log.contents.Range(log.NextOffset(), log.committed + 1))
    {
      JoinIsValid(log.contents, log.storage.AsLog(), log.unstable.snapshot, log.unstable.offset, log.unstable.entries);
      page := log.NextEntries();
      if log.committed + 1 > log.NextOffset() {
        PageOfRange(log.contents, log.maxNextEntsSize, log.NextOffset() - 1, log.committed);
      }
    }

    /** Writes the snapshot and the entries to the store.  Afterwards the store alone holds the
        whole log. */
    method Persist(rd: Ready)
      requires Valid() && rd.entries == log.unstable.entries && rd.snapshot == log.unstable.snapshot
      modifies log.storage
      ensures log.storage.Valid() && log.storage.AsLog() == log.contents
      ensures log.storage.snapshot == if rd.snapshot.Some? then rd.snapshot.value else old(log.storage.snapshot)
    {
      ghost var st := log.storage.AsLog();
      ghost var stored := AfterPersist(st, rd.snapshot, rd.entries);
      PersistedIsWhole(log.contents, st, rd.snapshot, log.unstable.offset, rd.entries);
      if rd.snapshot.Some? {
        var ok := log.storage.ApplySnapshot(rd.snapshot.value);
        assert ok;
      }
      var fatal := log.storage.Append(rd.entries);
      assert !fatal && log.storage.AsLog() == stored;
    }

    /** Everything is in the store, and the state machine is ahead of the compacted part. */
    ghost predicate Stored()
      reads this`appliedIndex, this`snapshotIndex, this`machineBase, this`machine, log`contents, log.storage
    {
      && log.storage.Valid() && log.storage.AsLog() == log.contents && catchUp <= snapCount
      && log.contents.base <= snapshotIndex <= appliedIndex && log.storage.snapshot.index <= snapshotIndex
      && machineBase + |machine| == appliedIndex
    }

    /** Hands a snapshot to the state machine.  Aborts on one that is not news. */
    method PublishSnapshot(snapshot: Option<Snap>) returns (fatal: bool)
      modifies this`snapshotIndex, this`appliedIndex, this`machineBase, this`machine
      ensures fatal <==> snapshot.Some? && snapshot.value.index <= old(appliedIndex)
      ensures if snapshot.None? || fatal then
                && appliedIndex == old(appliedIndex) && snapshotIndex == old(snapshotIndex)
                && machineBase == old(machineBase) && machine == old(machine)
              else appliedIndex == snapshotIndex == machineBase == snapshot.value.index && machine == []
    {
      if snapshot.None? { return false; }
      if snapshot.value.index <= appliedIndex { return true; }
      snapshotIndex, appliedIndex := snapshot.value.index, snapshot.value.index;
      machineBase, machine := snapshot.value.index, [];
      return false;
    }

    /** The entries the state machine has not seen.  Aborts on a gap. */
    method EntriesToApply(entries: seq<Entry>) returns (ents: seq<Entry>, fatal: bool)
      requires entries != [] ==> Consecutive(entries, entries[0].index)
      ensures fatal <==> entries != [] && entries[0].index > appliedIndex + 1
      ensures !fatal ==> ents == Above(entries, appliedIndex)
    {
      if entries == [] { return [], false; }
      var first := entries[0].index;
      if first > appliedIndex + 1 { return [], true; }
      if appliedIndex + 1 - first < |entries| { return entries[appliedIndex + 1 - first..], false; }
      return [], false;
    }

    /** Applies entries that follow what has been applied. */
    method PublishEntries(entries: seq<Entry>, ghost l: Log)
      requires Follows(l, appliedIndex, entries)
      modifies this`appliedIndex, this`machine
      ensures appliedIndex == old(appliedIndex) + |entries|
      ensures Delivered(l, old(appliedIndex), old(machine), appliedIndex, machine)
    {
      NothingYet(l, appliedIndex, machine);
      var i := 0;
      while i < |entries|
        invariant i <= |entries| && appliedIndex == old(appliedIndex) + i
        invariant Delivered(l, old(appliedIndex), old(machine), appliedIndex, machine)
      {
        OneMoreDelivered(l, old(appliedIndex), old(machine), appliedIndex, machine, entries, i);
        machine := machine + [entries[i]];
        appliedIndex := entries[i].index;
        i := i + 1;
      }
    }

    /** Once enough has been applied, takes a snapshot and compacts the store.  Neither step can
        fail, because at least as many entries are applied between snapshots as are kept. */
    method MaybeTriggerSnapshot(data: seq<Byte>)
      requires log.storage.Valid() && log.storage.AsLog() == log.contents && catchUp <= snapCount
      requires log.contents.base <= snapshotIndex <= appliedIndex <= log.contents.LastIndex()
      requires log.storage.snapshot.index <= snapshotIndex
      modifies this`snapshotIndex, log.storage, log`contents
      ensures log.storage.Valid() && log.storage.AsLog() == log.contents
      ensures log.contents.base <= snapshotIndex <= appliedIndex && log.storage.snapshot.index <= snapshotIndex
      ensures Remains(old(log.contents), log.contents) && appliedIndex - snapshotIndex <= snapCount
      ensures if appliedIndex - old(snapshotIndex) > snapCount then
                && snapshotIndex == appliedIndex
                && log.storage.snapshot == Snap(appliedIndex, old(log.contents).Term(appliedIndex), data)
                && log.contents.base == Max(appliedIndex - catchUp, 1)
              else
                && snapshotIndex == old(snapshotIndex) && log.contents == old(log.contents)
                && log.storage.snapshot == old(log.storage.snapshot)
    {
      NothingYet(log.contents, appliedIndex, []);
      if appliedIndex - snapshotIndex <= snapCount { return; }
      var created, _ := log.storage.CreateSnapshot(appliedIndex, data);
      var index := if appliedIndex > catchUp then appliedIndex - catchUp else 1;
      var compacted, _ := log.storage.Compact(index);
      assert created && compacted;
      RemainsIsDropped(log.contents, Dropped(log.contents, index));
      log.contents := Dropped(log.contents, index);
      snapshotIndex := appliedIndex;
    }

    /** The tail lets go of what has been persisted. */
    method Stabilize(rd: Ready)
      requires log.unstable.Valid() && rd.entries == log.unstable.entries && rd.snapshot == log.unstable.snapshot
      requires rd.snapshot.Some? ==> log.unstable.offset == rd.snapshot.value.index + 1
      modifies log.unstable
      ensures log.unstable.Valid() && log.unstable.entries == [] && log.unstable.snapshot == None
      ensures log.unstable.offset == old(log.unstable.offset) + |rd.entries|
    {
      if rd.entries != [] {
        var last := rd.entries[|rd.entries| - 1];
        log.unstable.StableTo(last.index, last.term);
      }
      if rd.snapshot.Some? { log.unstable.StableSnapTo(rd.snapshot.value.index); }
    }

    /** Tells the raft object that `rd` has been dealt with. */
    method Advance(rd: Ready)
      requires Stored() && log.unstable.Valid() && appliedIndex <= log.committed <= log.contents.LastIndex()
      requires rd.entries == log.unstable.entries && rd.snapshot == log.unstable.snapshot
      requires rd.snapshot.Some? ==> log.unstable.offset == rd.snapshot.value.index + 1
      requires log.unstable.offset + |rd.entries| == log.contents.LastIndex() + 1
      requires appliedIndex == if rd.AppliedCursor() == 0 then log.applied else rd.AppliedCursor()
      requires HardTracked() && StatesTaken(rd)
      modifies this`prevSoft, this`prevHard, this`readStates, log`applied, log.unstable
      ensures Valid() && log.unstable.entries == [] && log.unstable.snapshot == None
      ensures Soft() == prevSoft && Hard() == prevHard && readStates == []
    {
      Remember(rd);
      var index := rd.AppliedCursor();
      if index > 0 { log.AppliedTo(index); }
      Stabilize(rd);
      log.StoredIsValid();
    }

    /** The states that have been reported. */
    method Remember(rd: Ready)
      requires HardTracked() && StatesTaken(rd)
      modifies this`prevSoft, this`prevHard, this`readStates
      ensures Soft() == prevSoft && Hard() == prevHard && readStates == []
    {
      if rd.soft.Some? { prevSoft := rd.soft.value; }
      if !rd.hard.IsEmpty() { prevHard := rd.hard; }
      if rd.readStates != [] { readStates := []; }
    }

    /** Persists the snapshot and the entries, hands the snapshot on, and then sends. */
    method Store(rd: Ready)
      requires Valid() && Taken(rd)
      modifies this`sent, this`snapshotIndex, this`appliedIndex, this`machineBase, this`machine, log.storage
      ensures Stored() && sent == old(sent) + rd.messages
      ensures appliedIndex == old(Start()) && machine == old(Kept())
    {
      Persist(rd);
      var fatal := PublishSnapshot(rd.snapshot);
      assert !fatal;
      sent := sent + rd.messages;
    }

    /** Applies a page, and compacts the log when it is time to. */
    method Deliver(entries: seq<Entry>, data: seq<Byte>)
      requires Stored() && Follows(log.contents, appliedIndex, entries)
      modifies this`snapshotIndex, this`appliedIndex, this`machine, log`contents, log.storage
      ensures Stored() && Remains(old(log.contents), log.contents)
      ensures appliedIndex == old(appliedIndex) + |entries|
      ensures Delivered(old(log.contents), old(appliedIndex), old(machine), appliedIndex, machine)
    {
      FollowsInOrder(log.contents, appliedIndex, entries);
      var ents, fatal := EntriesToApply(entries);
      assert !fatal && ents == entries;
      PublishEntries(ents, log.contents);
      MaybeTriggerSnapshot(data);
    }

    /** Everything a Ready asks of the server. */
    method Carry(rd: Ready, data: seq<Byte>)
      requires Valid() && Taken(rd)
      modifies this`sent, this`snapshotIndex, this`appliedIndex, this`machineBase, this`machine, log`contents, log.storage
      ensures Stored() && Remains(old(log.contents), log.contents)
      ensures sent == old(sent) + rd.messages
      ensures appliedIndex == old(Start()) + |rd.committed|
      ensures Delivered(old(log.contents), old(Start()), old(Kept()), appliedIndex, machine)
    {
      StartFacts();
      Store(rd);
      Deliver(rd.committed, data);
    }

    /** Deals with one Ready: persist, send, apply, and tell the raft object. */
    method Turn(rd: Ready, data: seq<Byte>)
      requires Valid() && Taken(rd) && msgs == []
      modifies this`msgs, this`sent, this`snapshotIndex, this`appliedIndex, this`machineBase, this`machine
      modifies this`prevSoft, this`prevHard, this`readStates, log, log.storage, log.unstable
      ensures Valid() && !Dirty() && readStates == [] && msgs == []
      ensures log.committed == old(log.committed) && sent == old(sent) + rd.messages
      ensures appliedIndex == old(Start()) + |rd.committed|
      ensures Delivered(old(log.contents), old(Start()), old(Kept()), appliedIndex, machine)
      ensures Remains(old(log.contents), log.contents)
    {
      TurnFacts(rd);
      Carry(rd, data);
      Advance(rd);
    }

    /** The next page begins behind what is applied, or behind a waiting snapshot. */
    lemma StartFacts()
      requires Valid()
      ensures log.NextOffset() == Start() + 1 && log.contents.base <= Start() <= log.committed <= log.contents.LastIndex()
    {
    }

    lemma TurnFacts(rd: Ready)
      requires Valid() && Taken(rd)
      ensures Start() + |rd.committed| == if rd.AppliedCursor() == 0 then log.applied else rd.AppliedCursor()
      ensures Start() + |rd.committed| <= log.committed
      ensures log.unstable.offset + |rd.entries| == log.contents.LastIndex() + 1
      ensures rd.snapshot.Some? ==> log.unstable.offset == rd.snapshot.value.index + 1
    {
      StartFacts();
      FollowsInOrder(log.contents, log.NextOffset() - 1, rd.committed);
    }

    /** How far the application is once a waiting snapshot is installed, */
    ghost function Start(): nat
      reads this`appliedIndex, log.unstable
    {
      match log.unstable.snapshot case None => appliedIndex case Some(s) => s.index
    }

    /** and the entries it has applied on top of it. */
    ghost function Kept(): seq<Entry>
      reads this`machine, log.unstable
    {
      if log.unstable.snapshot.Some? then [] else machine
    }

    /** One turn of the loop, unless the source finds no updates in the Ready. */
    method Round(data: seq<Byte>) returns (updates: bool)
      requires Valid() && (Dirty() || log.committed > appliedIndex || readStates != [])
      modifies this`msgs, this`sent, this`snapshotIndex, this`appliedIndex, this`machineBase, this`machine
      modifies this`prevSoft, this`prevHard, this`readStates, log, log.storage, log.unstable
      ensures Valid() && log.committed == old(log.committed)
      ensures !updates <==> old(OnlyReads())
      ensures !updates ==> !Dirty() && log.committed == appliedIndex && readStates == old(readStates)
      ensures updates ==> !Dirty() && readStates == [] && (old(Start()) < log.committed ==> old(Start()) < appliedIndex)
      ensures sent == old(sent) + old(msgs) && msgs == []
      ensures Delivered(old(log.contents), old(Start()), old(Kept()), appliedIndex, machine)
      ensures Remains(old(log.contents), log.contents)
    {
      StartFacts();
      NothingYet(log.contents, Start(), Kept());
      var rd := TakeReady();
      updates := rd.ContainsUpdates();
      if updates { Turn(rd, data); }
    }

    /** The loop from its second round on: what is left are pages of committed entries, and their
        number goes down. */
    method Drain(data: seq<Byte>)
      requires Valid() && !Dirty() && readStates == []
      modifies this`msgs, this`sent, this`snapshotIndex, this`appliedIndex, this`machineBase, this`machine
      modifies this`prevSoft, this`prevHard, this`readStates, log, log.storage, log.unstable
      ensures Valid() && !Dirty() && readStates == [] && log.committed == old(log.committed) == appliedIndex
      ensures sent == old(sent)
      ensures Delivered(old(log.contents), old(appliedIndex), old(machine), appliedIndex, machine)
      ensures Remains(old(log.contents), log.contents)
    {
      ghost var l, from, kept := log.contents, appliedIndex, machine;
      StartFacts();
      NothingYet(l, from, kept);
      var more := HasReady();
      while more
        invariant Valid() && !Dirty() && readStates == [] && log.committed == old(log.committed)
        invariant sent == old(sent) && (more <==> log.committed > appliedIndex)
        invariant Delivered(l, from, kept, appliedIndex, machine) && Remains(l, log.contents)
        decreases log.committed - appliedIndex
      {
        ghost var now, start, m := log.contents, appliedIndex, machine;
        var _ := Round(data);
        DeliveredOn(l, now, from, kept, start, m, appliedIndex, machine);
        RemainsOn(l, now, log.contents);
        more := HasReady();
      }
    }

    /** Drains everything.  Each committed entry behind the starting point reaches the state machine
        once and in order, every message is sent, and nothing is left to report; unless read
        states are all there is, in which case the loop gives up at once and leaves them. */
    method PullReadyEvents(data: seq<Byte>)
      requires Valid()
      modifies this`msgs, this`sent, this`snapshotIndex, this`appliedIndex, this`machineBase, this`machine
      modifies this`prevSoft, this`prevHard, this`readStates, log, log.storage, log.unstable
      ensures Valid() && log.committed == old(log.committed)
      ensures sent == old(sent) + old(msgs) && msgs == []
      ensures Delivered(old(log.contents), old(Start()), old(Kept()), log.committed, machine)
      ensures Remains(old(log.contents), log.contents)
      ensures log.applied == appliedIndex == log.committed
      ensures log.unstable.entries == [] && log.unstable.snapshot == None && SoftState(lead, role) == prevSoft
      ensures HardState(term, vote, log.committed) == prevHard || HardState(term, vote, log.committed) == HardState(0, 0, 0)
      ensures readStates == if old(OnlyReads()) then old(readStates) else []
    {
      ghost var l, from, kept := log.contents, Start(), Kept();
      StartFacts();
      NothingYet(l, from, kept);
      var more := HasReady();
      if !more { return; }
      var updates := Round(data);
      if !updates { return; }
      ghost var now, start, m := log.contents, appliedIndex, machine;
      Drain(data);
      DeliveredOn(l, now, from, kept, start, m, appliedIndex, machine);
      RemainsOn(l, now, log.contents);
    }
  }
}

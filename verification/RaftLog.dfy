/** `RaftLog`: one log made of a store of stable entries and an unstable tail.  Its methods are
    proved against the functions of `LogModel` on the log that the two stores make up. */
module RaftLogs {
  import opened Types
  import opened LogModel
  import opened EntrySize
  import opened LogStores

  /** The tail continues the store, or the incoming snapshot. */
  predicate Linked(st: Log, snap: Option<Snap>, offset: nat) {
    match snap
    case None => st.base < offset <= st.LastIndex() + 1
    case Some(s) => s.index < offset && (s.index + 1 < offset ==> st.base <= s.index && offset <= st.LastIndex() + 1)
  }

  /** Index, then term, of what lies right before the log. */
  function BaseOf(st: Log, snap: Option<Snap>): nat {
    match snap case None => st.base case Some(s) => s.index
  }

  function BaseTermOf(st: Log, snap: Option<Snap>): nat {
    match snap case None => st.baseTerm case Some(s) => s.term
  }

  /** `l` is the one log the two stores make up: the stable entries below `offset`, then the tail. */
  ghost predicate Joins(l: Log, st: Log, snap: Option<Snap>, offset: nat, tail: seq<Entry>) {
    && Linked(st, snap, offset)
    && l.base == BaseOf(st, snap) && l.baseTerm == BaseTermOf(st, snap)
    && l.LastIndex() + 1 == offset + |tail|
    && forall i {:trigger JoinsAt(l, st, offset, tail, i)} :: l.base < i <= l.LastIndex() ==> JoinsAt(l, st, offset, tail, i)
  }

  ghost predicate JoinsAt(l: Log, st: Log, offset: nat, tail: seq<Entry>, i: nat)
    requires l.base < i <= l.LastIndex()
  {
    if i < offset then st.base < i <= st.LastIndex() && l.ents[i - l.base - 1] == st.ents[i - st.base - 1]
    else i - offset < |tail| && l.ents[i - l.base - 1] == tail[i - offset]
  }

  /** The stores determine the log. */
  lemma JoinIsUnique(l: Log, l': Log, st: Log, snap: Option<Snap>, offset: nat, tail: seq<Entry>)
    requires Joins(l, st, snap, offset, tail) && Joins(l', st, snap, offset, tail)
    ensures l == l'
  {
    forall k | 0 <= k < |l.ents| ensures l.ents[k] == l'.ents[k] {
      assert JoinsAt(l, st, offset, tail, l.base + 1 + k) && JoinsAt(l', st, offset, tail, l.base + 1 + k);
    }
  }

  lemma JoinIsValid(l: Log, st: Log, snap: Option<Snap>, offset: nat, tail: seq<Entry>)
    requires Joins(l, st, snap, offset, tail) && st.Valid() && Consecutive(tail, offset)
    ensures l.Valid()
  {
    forall k | 0 <= k < |l.ents| ensures l.ents[k].index == l.base + 1 + k {
      assert JoinsAt(l, st, offset, tail, l.base + 1 + k);
    }
  }

  lemma StoreIsWhole(l: Log)
    ensures Joins(l, l, None, l.LastIndex() + 1, [])
  {
    var offset, none: seq<Entry> := l.LastIndex() + 1, [];
    forall i | l.base < i <= l.LastIndex() ensures JoinsAt(l, l, offset, none, i) {}
  }

  /** A term is looked up in the tail, in the snapshot, or in the store. */
  lemma JoinTerm(l: Log, st: Log, snap: Option<Snap>, offset: nat, tail: seq<Entry>, i: nat)
    requires Joins(l, st, snap, offset, tail) && l.base <= i <= l.LastIndex()
    ensures i >= offset ==> i - offset < |tail| && l.Term(i) == tail[i - offset].term
    ensures i < offset && snap.Some? && i == snap.value.index ==> l.Term(i) == snap.value.term
    ensures i < offset && !(snap.Some? && i == snap.value.index) ==> st.base <= i <= st.LastIndex() && l.Term(i) == st.Term(i)
  {
    if i > l.base { assert JoinsAt(l, st, offset, tail, i); }
  }

  // ---------------------------------------------------------------- what moves between the stores

  /** Persisting a batch that begins in the tail or later does not change the log. */
  lemma AppendToStore(l: Log, st: Log, offset: nat, tail: seq<Entry>, es: seq<Entry>)
    requires Joins(l, st, None, offset, tail) && es != [] && offset <= es[0].index <= st.LastIndex() + 1
    ensures Joins(l, st.CutAppend(es), None, offset, tail)
  {
    var st' := st.CutAppend(es);
    forall i | l.base < i <= l.LastIndex() ensures JoinsAt(l, st', offset, tail, i) {
      assert JoinsAt(l, st, offset, tail, i);
    }
  }

  /** Two logs with a common base hold the same entries up to `index`. */
  ghost predicate SamePrefix(a: Log, b: Log, index: nat) {
    && a.base == b.base && a.base <= index <= a.LastIndex() && index <= b.LastIndex()
    && a.ents[..index - a.base] == b.ents[..index - a.base]
  }

  /** `stable_to` hands the entries up to `index` from the tail to the store.  The log stays the
      same exactly when the store holds the same entries. */
  lemma HandOver(l: Log, st: Log, offset: nat, tail: seq<Entry>, index: nat)
    requires Joins(l, st, None, offset, tail) && offset <= index < offset + |tail| && index <= st.LastIndex()
    ensures Joins(l, st, None, index + 1, tail[index + 1 - offset..]) <==> SamePrefix(st, l, index)
  {
    var rest, offset' := tail[index + 1 - offset..], index + 1;
    if SamePrefix(st, l, index) {
      forall i | l.base < i <= l.LastIndex() ensures JoinsAt(l, st, offset', rest, i) {
        assert JoinsAt(l, st, offset, tail, i);
        if i <= index {
          var k := i - l.base - 1;
          assert st.ents[..index - l.base][k] == l.ents[..index - l.base][k];
        }
      }
    }
    if Joins(l, st, None, index + 1, rest) {
      forall k | 0 <= k < index - l.base ensures st.ents[k] == l.ents[k] {
        assert JoinsAt(l, st, offset', rest, l.base + 1 + k);
      }
      assert st.ents[..index - l.base] == l.ents[..index - l.base];
    }
  }

  /** Persisting a batch and telling the tail so leaves the log unchanged, even when entries were
      overwritten after the batch was taken from the tail: if the tail now begins before the
      batch or differs from it, the term guard of `stable_to` keeps the tail as it is, because
      two logs of the protocol that have the same term at an index agree up to it. */
  lemma PersistKeepsLog(l: Log, st: Log, offset: nat, tail: seq<Entry>, es: seq<Entry>)
    requires Joins(l, st, None, offset, tail)
    requires es != [] && Consecutive(es, es[0].index) && offset <= es[0].index <= st.LastIndex() + 1
    requires Matching(l.ents, st.CutAppend(es).ents)
    ensures var st' := st.CutAppend(es);
            var last := es[|es| - 1];
            var n := last.index + 1 - offset;
            if n <= |tail| && tail[n - 1].term == last.term then Joins(l, st', None, last.index + 1, tail[n..])
            else Joins(l, st', None, offset, tail)
  {
    var st' := st.CutAppend(es);
    var last := es[|es| - 1];
    var n := last.index + 1 - offset;
    AppendToStore(l, st, offset, tail, es);
    if n <= |tail| && tail[n - 1].term == last.term {
      var k := last.index - l.base - 1;
      assert JoinsAt(l, st, offset, tail, last.index);
      LastOfBatch(st, es);
      assert MatchAt(l.ents, st'.ents, k);
      HandOver(l, st', offset, tail, last.index);
    }
  }

  lemma LastOfBatch(st: Log, es: seq<Entry>)
    requires es != [] && Consecutive(es, es[0].index) && st.base < es[0].index <= st.LastIndex() + 1
    ensures var last, st' := es[|es| - 1], st.CutAppend(es);
            && st.base < last.index == st'.LastIndex() && st'.ents[last.index - st.base - 1] == last
  {
  }

  /** Without an overwrite the batch is still a prefix of the tail, and no assumption is needed. */
  lemma PersistPrefix(l: Log, st: Log, offset: nat, tail: seq<Entry>, es: seq<Entry>)
    requires Joins(l, st, None, offset, tail) && Consecutive(tail, offset)
    requires es != [] && es <= tail
    ensures es[0].index == offset && es[|es| - 1] == tail[|es| - 1] && es[|es| - 1].index == offset + |es| - 1
    ensures Joins(l, st.CutAppend(es), None, offset + |es|, tail[|es|..])
  {
    var st', offset', rest := st.CutAppend(es), offset + |es|, tail[|es|..];
    forall i | l.base < i <= l.LastIndex() ensures JoinsAt(l, st', offset', rest, i) {
      assert JoinsAt(l, st, offset, tail, i);
    }
  }

  /** Persisting an incoming snapshot and the entries behind it, and dropping both from the tail,
      leaves the log unchanged. */
  lemma PersistSnapshot(l: Log, st: Log, s: Snap, tail: seq<Entry>)
    requires Joins(l, st, Some(s), s.index + 1, tail) && Consecutive(tail, s.index + 1)
    ensures Joins(l, Log(s.index, s.term, []).CutAppend(tail), None, s.index + 1 + |tail|, [])
  {
    var st' := Log(s.index, s.term, []).CutAppend(tail);
    assert st'.ents == tail;
    var offset', none: seq<Entry> := s.index + 1 + |tail|, [];
    forall i | l.base < i <= l.LastIndex() ensures JoinsAt(l, st', offset', none, i) {
      assert JoinsAt(l, st, s.index + 1, tail, i);
    }
  }

  /** Compacting the store up to a stable index only drops a prefix of the log. */
  lemma CompactDropsPrefix(l: Log, st: Log, offset: nat, tail: seq<Entry>, index: nat)
    requires Joins(l, st, None, offset, tail) && st.base <= index < offset
    ensures index <= l.LastIndex() && Joins(Dropped(l, index), Dropped(st, index), None, offset, tail)
  {
    JoinTerm(l, st, None, offset, tail, index);
    var l', st' := Dropped(l, index), Dropped(st, index);
    forall i | l'.base < i <= l'.LastIndex() ensures JoinsAt(l', st', offset, tail, i) {
      assert JoinsAt(l, st, offset, tail, i);
    }
  }

  /** Overwriting the tail from the first new index on is cutting the whole log there. */
  lemma OverwriteTail(l: Log, st: Log, snap: Option<Snap>, offset: nat, tail: seq<Entry>, es: seq<Entry>)
    requires Joins(l, st, snap, offset, tail)
    requires es != [] && l.base < es[0].index <= l.LastIndex() + 1
    ensures var offset' := Min(offset, es[0].index);
            var tail' := if es[0].index < offset then es else tail[..es[0].index - offset] + es;
            Joins(l.CutAppend(es), st, snap, offset', tail')
  {
    var l' := l.CutAppend(es);
    var offset' := Min(offset, es[0].index);
    var tail' := if es[0].index < offset then es else tail[..es[0].index - offset] + es;
    forall i | l'.base < i <= l'.LastIndex() ensures JoinsAt(l', st, offset', tail', i) {
      if i < es[0].index { assert JoinsAt(l, st, offset, tail, i); }
    }
  }

  // ---------------------------------------------------------------- ranges

  /** The part of a range that lies in the store, */
  function InStore(st: Log, offset: nat, low: nat, high: nat): seq<Entry>
    requires low < offset && low <= high ==> st.base < low && Min(high, offset) <= st.LastIndex() + 1
    requires low <= high
  {
    if low < offset then st.Range(low, Min(high, offset)) else []
  }

  /** and the part that lies in the tail. */
  function InTail(offset: nat, tail: seq<Entry>, low: nat, high: nat): seq<Entry>
    requires low <= high <= offset + |tail|
  {
    if high > offset then tail[Max(low, offset) - offset..high - offset] else []
  }

  lemma RangeSplits(l: Log, st: Log, snap: Option<Snap>, offset: nat, tail: seq<Entry>, low: nat, high: nat)
    requires Joins(l, st, snap, offset, tail) && l.base < low < high <= l.LastIndex() + 1
    ensures low < offset ==> st.base < low && Min(high, offset) <= st.LastIndex() + 1
    ensures l.Range(low, high) == InStore(st, offset, low, high) + InTail(offset, tail, low, high)
  {
    var parts := InStore(st, offset, low, high) + InTail(offset, tail, low, high);
    forall k | 0 <= k < high - low ensures l.Range(low, high)[k] == parts[k] {
      assert JoinsAt(l, st, offset, tail, low + k);
    }
  }

  /** Where the tail begins when it is empty. */
  function EmptyTailOffset(st: Log, snap: Option<Snap>): nat {
    match snap case None => st.LastIndex() + 1 case Some(s) => s.index + 1
  }

  // ---------------------------------------------------------------- the cases of maybe_append

  lemma ConflictPlace(log: Log, index: nat, es: seq<Entry>)
    requires Consecutive(es, index + 1) && log.FindConflict(es) != 0
    ensures var ci := log.FindConflict(es);
            && index < ci <= index + |es|
            && es[ci - index - 1].index == ci && Consecutive(es[ci - index - 1..], ci)
  {
    ConflictInRange(log, es, index + 1);
  }

  /** `maybe_append` once the previous entry matches: it aborts on a conflict with something
      committed, or a gap; otherwise it cuts the log at the conflict, if there is one, and then
      commits. */
  ghost predicate Matched(log: Log, committed: nat, index: nat, leaderCommit: nat, es: seq<Entry>,
                          log1: Log, committed1: nat, fatal: bool)
  {
    var ci := log.FindConflict(es);
    if ci == 0 then log1 == log && (committed1, fatal) == LogModel.CommitTo(log, committed, Min(leaderCommit, index + |es|))
    else if ci <= committed || ci > log.LastIndex() + 1 then log1 == log && committed1 == committed && fatal
    else
      && log.base < ci && index < ci <= index + |es| && es[ci - index - 1].index == ci
      && log1 == log.CutAppend(es[ci - index - 1..])
      && (committed1, fatal) == LogModel.CommitTo(log1, committed, Min(leaderCommit, index + |es|))
  }

  lemma MatchedIs(log: Log, committed: nat, index: nat, logTerm: nat, leaderCommit: nat, es: seq<Entry>,
                  log1: Log, committed1: nat, fatal: bool)
    requires log.base <= committed && Consecutive(es, index + 1) && log.MatchTerm(index, logTerm)
    requires Matched(log, committed, index, leaderCommit, es, log1, committed1, fatal)
    ensures LogModel.MaybeAppend(log, committed, index, logTerm, leaderCommit, es)
         == Outcome(log1, committed1, index + |es|, true, fatal)
  {
  }

  // ---------------------------------------------------------------- the object

  class RaftLog {
    const storage: MemoryStorage
    const unstable: Unstable
    const maxNextEntsSize: nat
    var committed: nat
    var applied: nat

    /** The one log that the two stores make up. */
    ghost var contents: Log

    /** An empty tail sits at the end of the store, or right behind the snapshot: `last_index`
        relies on that. */
    ghost predicate Valid()
      reads this`committed, this`contents, storage, unstable
    {
      && storage.Valid() && unstable.Valid()
      && Joins(contents, storage.AsLog(), unstable.snapshot, unstable.offset, unstable.entries)
      && (unstable.entries == [] ==> unstable.offset == EmptyTailOffset(storage.AsLog(), unstable.snapshot))
      && contents.base <= committed <= contents.LastIndex()
    }

    /** The tail begins right behind a waiting snapshot. */
    ghost predicate TailBehindSnapshot()
      reads unstable`snapshot, unstable`offset
    {
      unstable.snapshot.Some? ==> unstable.offset == unstable.snapshot.value.index + 1
    }

    constructor (storage: MemoryStorage, maxNextEntsSize: nat)
      requires storage.Valid()
      ensures this.storage == storage && this.maxNextEntsSize == maxNextEntsSize && fresh(unstable)
      ensures Valid() && contents == storage.AsLog() && committed == applied == storage.AsLog().base
      ensures unstable.snapshot == None
    {
      this.storage := storage;
      this.maxNextEntsSize := maxNextEntsSize;
      var first := storage.FirstIndex();
      var last := storage.LastIndex();
      unstable := new Unstable(last + 1);
      committed, applied := first - 1, first - 1;
      contents := storage.AsLog();
    }

    /** When the store holds everything, it is the log. */
    lemma StoredIsValid()
      requires storage.Valid() && storage.AsLog() == contents && contents.base <= committed <= contents.LastIndex()
      requires unstable.Valid() && unstable.snapshot == None && unstable.entries == []
      requires unstable.offset == contents.LastIndex() + 1
      ensures Valid()
    {
      StoreIsWhole(contents);
    }

    // -------------------------------------------------------------- lookups

    method FirstIndex() returns (i: nat)
      requires Valid()
      ensures i == contents.FirstIndex()
    {
      var u := unstable.MaybeFirstIndex();
      if u.Some? { return u.value; }
      i := storage.FirstIndex();
    }

    method LastIndex() returns (i: nat)
      requires Valid()
      ensures i == contents.LastIndex()
    {
      var u := unstable.MaybeLastIndex();
      if u.Some? { return u.value; }
      i := storage.LastIndex();
    }

    /** The lookup never fails: outside [base, last] it answers 0. */
    method Term(index: nat) returns (r: Option<nat>)
      requires Valid()
      ensures r == Some(contents.Term(index))
    {
      var first := FirstIndex();
      var last := LastIndex();
      if index < first - 1 || index > last { return Some(0); }
      JoinTerm(contents, storage.AsLog(), unstable.snapshot, unstable.offset, unstable.entries, index);
      r := unstable.MaybeTerm(index);
      if r.None? { r := storage.Term(index); }
    }

    method MatchTerm(index: nat, t: nat) returns (m: bool)
      requires Valid()
      ensures m == contents.MatchTerm(index, t)
    {
      var r := Term(index);
      m := r.Some? && r.value == t;
    }

    method LastTerm() returns (t: nat)
      requires Valid()
      ensures t == contents.LastTerm()
    {
      var last := LastIndex();
      var r := Term(last);
      t := r.value;
    }

    method IsUpToDate(lastIndex: nat, term: nat) returns (b: bool)
      requires Valid()
      ensures b == contents.IsUpToDate(lastIndex, term)
    {
      var lt := LastTerm();
      var last := LastIndex();
      b := term > lt || (term == lt && lastIndex >= last);
    }

    method FindConflict(es: seq<Entry>) returns (ci: nat)
      requires Valid()
      ensures ci == contents.FindConflict(es)
    {
      var i := 0;
      while i < |es|
        invariant i <= |es| && contents.FindConflict(es) == contents.FindConflict(es[i..])
      {
        var m := MatchTerm(es[i].index, es[i].term);
        if !m { return es[i].index; }
        assert es[i..][1..] == es[i + 1..];
        i := i + 1;
      }
      return 0;
    }

    // -------------------------------------------------------------- growth

    /** Aborts when it would overwrite something committed, or leave a gap. */
    method Append(es: seq<Entry>) returns (last: nat, fatal: bool)
      requires Valid() && (es != [] ==> es[0].index > 0 && Consecutive(es, es[0].index))
      modifies this`contents, unstable
      ensures Valid()
      ensures fatal <==> es != [] && !(committed < es[0].index <= old(contents).LastIndex() + 1)
      ensures contents == if fatal then old(contents) else old(contents).CutAppend(es)
      ensures !fatal ==> last == contents.LastIndex()
      ensures unstable.snapshot == old(unstable.snapshot) && (old(TailBehindSnapshot()) ==> TailBehindSnapshot())
    {
      last := LastIndex();
      if es == [] { return last, false; }
      if es[0].index - 1 < committed || es[0].index > last + 1 { return last, true; }
      OverwriteTail(contents, storage.AsLog(), unstable.snapshot, unstable.offset, unstable.entries, es);
      var gap := unstable.TruncateAndAppend(es);
      assert !gap;
      contents := contents.CutAppend(es);
      last := LastIndex();
      fatal := false;
    }

    method CommitTo(to: nat) returns (fatal: bool)
      requires Valid()
      modifies this`committed
      ensures Valid() && (committed, fatal) == LogModel.CommitTo(contents, old(committed), to)
    {
      if committed < to {
        var last := LastIndex();
        if last < to { return true; }
        committed := to;
      }
      return false;
    }

    /** Appends from the first conflict on, if there is one. */
    method AppendConflicting(index: nat, es: seq<Entry>) returns (ghost ci: nat, fatal: bool)
      requires Valid() && Consecutive(es, index + 1)
      modifies this`contents, unstable
      ensures Valid() && ci == old(contents).FindConflict(es)
      ensures fatal <==> ci != 0 && (ci <= committed || ci > old(contents).LastIndex() + 1)
      ensures ci != 0 ==> index < ci <= index + |es| && es[ci - index - 1].index == ci
      ensures contents == if fatal || ci == 0 then old(contents) else old(contents).CutAppend(es[ci - index - 1..])
      ensures unstable.snapshot == old(unstable.snapshot) && (old(TailBehindSnapshot()) ==> TailBehindSnapshot())
    {
      var c := FindConflict(es);
      ci := c;
      if c == 0 { return c, false; }
      ConflictPlace(contents, index, es);
      if c <= committed { return c, true; }
      var _, gap := Append(es[c - index - 1..]);
      fatal := gap;
    }

    /** Once the previous entry matches: append what is new, and commit. */
    method AppendMatched(index: nat, leaderCommit: nat, es: seq<Entry>) returns (fatal: bool)
      requires Valid() && Consecutive(es, index + 1)
      modifies this`committed, this`contents, unstable
      ensures Valid()
      ensures Matched(old(contents), old(committed), index, leaderCommit, es, contents, committed, fatal)
      ensures unstable.snapshot == old(unstable.snapshot) && (old(TailBehindSnapshot()) ==> TailBehindSnapshot())
    {
      ghost var ci;
      ci, fatal := AppendConflicting(index, es);
      if !fatal { fatal := CommitTo(Min(leaderCommit, index + |es|)); }
    }

    /** Entries of a message from the leader. */
    method MaybeAppend(index: nat, logTerm: nat, leaderCommit: nat, es: seq<Entry>)
      returns (lastNew: nat, ok: bool, fatal: bool)
      requires Valid() && Consecutive(es, index + 1)
      modifies this`committed, this`contents, unstable
      ensures Valid()
      ensures Outcome(contents, committed, lastNew, ok, fatal)
           == LogModel.MaybeAppend(old(contents), old(committed), index, logTerm, leaderCommit, es)
      ensures unstable.snapshot == old(unstable.snapshot) && (old(TailBehindSnapshot()) ==> TailBehindSnapshot())
    {
      ghost var l, c := contents, committed;
      var m := MatchTerm(index, logTerm);
      if !m { return 0, false, false; }
      lastNew, ok := index + |es|, true;
      fatal := AppendMatched(index, leaderCommit, es);
      MatchedIs(l, c, index, logTerm, leaderCommit, es, contents, committed, fatal);
    }

    /** The commit index moves to a quorum index of the current term, and never back. */
    method MaybeCommit(maxIndex: nat, term: nat) returns (moved: bool, fatal: bool)
      requires Valid()
      modifies this`committed
      ensures Valid() && (moved <==> maxIndex > old(committed) && contents.Term(maxIndex) == term)
      ensures if moved then (committed, fatal) == LogModel.CommitTo(contents, old(committed), maxIndex)
              else committed == old(committed) && !fatal
    {
      moved, fatal := false, false;
      if maxIndex > committed {
        var t := Term(maxIndex);
        if t.value == term {
          fatal := CommitTo(maxIndex);
          moved := true;
        }
      }
    }

    // -------------------------------------------------------------- slices

    /** The stable part of a range, up to the limit. */
    method StablePart(low: nat, high: nat, maxSize: nat) returns (es: seq<Entry>, short: bool)
      requires Valid() && contents.base < low < high <= contents.LastIndex() + 1
      requires low < unstable.offset ==>
                 storage.AsLog().base < low && Min(high, unstable.offset) <= storage.AsLog().LastIndex() + 1
      ensures var front := InStore(storage.AsLog(), unstable.offset, low, high);
              es == LimitSize(maxSize, front) && (short <==> |es| < |front|) && (!short ==> es == front)
    {
      if low >= unstable.offset { return [], false; }
      var stable, _ := storage.Entries(low, Min(high, unstable.offset), maxSize);
      es := stable.value;
      short := |es| < Min(high, unstable.offset) - low;
    }

    method UnstablePart(low: nat, high: nat) returns (es: seq<Entry>)
      requires Valid() && low < high <= contents.LastIndex() + 1
      ensures es == InTail(unstable.offset, unstable.entries, low, high)
    {
      if high <= unstable.offset { return []; }
      var tail, outside := unstable.Slice(Max(low, unstable.offset), high);
      assert !outside;
      es := tail;
    }

    /** Entries in [low, high), as many as fit the limit but at least one; fails below the
        first index, and aborts beyond the last one.  The limit is applied to the stable part
        and again to the whole. */
    method Slice(low: nat, high: nat, maxSize: nat) returns (r: Option<seq<Entry>>, fatal: bool)
      requires Valid() && low <= high
      ensures fatal <==> low >= contents.FirstIndex() && high > contents.LastIndex() + 1
      ensures r.None? <==> fatal || low < contents.FirstIndex()
      ensures r.Some? ==> r.value == LimitSize(maxSize, contents.Range(low, high))
    {
      var first := FirstIndex();
      if low < first { return None, false; }
      var last := LastIndex();
      if high > last + 1 { return None, true; }
      if low == high { return Some([]), false; }
      RangeSplits(contents, storage.AsLog(), unstable.snapshot, unstable.offset, unstable.entries, low, high);
      var es, short := StablePart(low, high, maxSize);
      if short {
        LimitTwice(maxSize, InStore(storage.AsLog(), unstable.offset, low, high),
                   InTail(unstable.offset, unstable.entries, low, high));
        return Some(es), false;
      }
      var tail := UnstablePart(low, high);
      es := EntryLimitSize(maxSize, es + tail);
      return Some(es), false;
    }

    method Entries(index: nat, maxSize: nat) returns (r: Option<seq<Entry>>)
      requires Valid()
      ensures r.None? <==> index < contents.FirstIndex() && index <= contents.LastIndex()
      ensures r.Some? ==> r.value == if index > contents.LastIndex() then []
                                     else LimitSize(maxSize, contents.Range(index, contents.LastIndex() + 1))
    {
      var last := LastIndex();
      if index > last { return Some([]); }
      var es, _ := Slice(index, last + 1, maxSize);
      r := es;
    }

    /** Where the entries to apply begin. */
    ghost function NextOffset(): nat
      reads this`applied, this`contents
    {
      Max(applied + 1, contents.FirstIndex())
    }

    /** The committed entries that have not been applied, up to the size limit. */
    method NextEntries() returns (es: seq<Entry>)
      requires Valid()
      ensures es == if committed + 1 > NextOffset() then LimitSize(maxNextEntsSize, contents.Range(NextOffset(), committed + 1)) else []
    {
      var first := FirstIndex();
      var off := Max(applied + 1, first);
      if committed + 1 > off {
        var r, _ := Slice(off, committed + 1, maxNextEntsSize);
        return r.value;
      }
      return [];
    }

    method HasNextEntries() returns (b: bool)
      requires Valid()
      ensures b <==> committed + 1 > NextOffset()
    {
      var first := FirstIndex();
      b := committed + 1 > Max(applied + 1, first);
    }

    // -------------------------------------------------------------- what the application reports

    /** The source only logs an error when `index` is out of range, and still assigns it. */
    method AppliedTo(index: nat)
      modifies this`applied
      ensures applied == if index == 0 then old(applied) else index
    {
      if index != 0 { applied := index; }
    }

    /** The log is replaced by a snapshot. */
    method Restore(s: Snap)
      requires storage.Valid()
      modifies this`committed, this`contents, unstable
      ensures Valid() && contents == Log(s.index, s.term, []) && committed == s.index
      ensures unstable.snapshot == Some(s)
    {
      committed := s.index;
      contents := Log(s.index, s.term, []);
      unstable.Restore(s);
    }
  }
}

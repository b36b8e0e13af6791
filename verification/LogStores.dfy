/** The two stores behind the raft log: the stable entries, headed by a dummy entry that
    remembers what was compacted away, and the unstable tail with an incoming snapshot. */
module LogStores {
  import opened Types
  import opened LogModel
  import opened EntrySize

  datatype Snap = Snap(index: nat, term: nat, data: seq<Byte>)

  /** The log without its prefix up to `to`. */
  function Dropped(log: Log, to: nat): Log
    requires log.base <= to <= log.LastIndex()
  {
    Log(to, log.Term(to), log.ents[to - log.base..])
  }

  /** The entries of a gapless batch that lie above an index. */
  function Above(es: seq<Entry>, index: nat): (r: seq<Entry>)
    requires es != [] ==> Consecutive(es, es[0].index)
    ensures r != [] ==> r[0].index > index && Consecutive(r, r[0].index)
  {
    if es == [] || es[0].index > index then es
    else if es[0].index + |es| - 1 <= index then []
    else es[index + 1 - es[0].index..]
  }

  /** The list with its dummy, cut at position `at` and continued with `news`. */
  lemma CutEntries(entries: seq<Entry>, at: nat, news: seq<Entry>)
    requires entries != [] && Consecutive(entries, entries[0].index) && 0 < at <= |entries|
    requires news != [] && Consecutive(news, entries[0].index + at)
    ensures var all := entries[..at] + news;
            && Consecutive(all, entries[0].index)
            && Log(all[0].index, all[0].term, all[1..])
               == Log(entries[0].index, entries[0].term, entries[1..]).CutAppend(news)
  {
    var all := entries[..at] + news;
    assert all[1..] == entries[1..][..at - 1] + news;
  }

  // ---------------------------------------------------------------- stable entries

  class MemoryStorage {
    var entries: seq<Entry>
    var snapshot: Snap

    ghost predicate Valid()
      reads this`entries
    {
      entries != [] && Consecutive(entries, entries[0].index)
    }

    /** The dummy entry is the base of the log. */
    ghost function AsLog(): (l: Log)
      requires Valid()
      reads this`entries
      ensures l.Valid()
    {
      assert forall i :: 0 <= i < |entries[1..]| ==> entries[1..][i] == entries[i + 1];
      Log(entries[0].index, entries[0].term, entries[1..])
    }

    constructor ()
      ensures Valid() && AsLog() == Log(0, 0, []) && snapshot == Snap(0, 0, [])
    {
      entries := [Entry(0, 0, EntryNormal, [])];
      snapshot := Snap(0, 0, []);
    }

    method FirstIndex() returns (i: nat)
      requires Valid()
      ensures i == AsLog().FirstIndex()
    {
      i := entries[0].index + 1;
    }

    method LastIndex() returns (i: nat)
      requires Valid()
      ensures i == AsLog().LastIndex()
    {
      i := entries[0].index + |entries| - 1;
    }

    /** Fails outside [dummy, last]. */
    method Term(i: nat) returns (r: Option<nat>)
      requires Valid()
      ensures r == if AsLog().base <= i <= AsLog().LastIndex() then Some(AsLog().Term(i)) else None
    {
      var offset := entries[0].index;
      if i < offset { return None; }
      if i - offset >= |entries| { return None; }
      r := Some(entries[i - offset].term);
    }

    /** Entries in [low, high), cut to the size limit.  Aborts when `high` is beyond the last
        entry. */
    method Entries(low: nat, high: nat, maxSize: nat) returns (r: Option<seq<Entry>>, fatal: bool)
      requires Valid() && low < high
      ensures fatal <==> AsLog().base <= low && high > AsLog().LastIndex() + 1
      ensures r.Some? <==> !fatal && AsLog().base <= low && AsLog().ents != []
      ensures r.Some? && AsLog().base < low ==> r.value == LimitSize(maxSize, AsLog().Range(low, high))
    {
      var offset := entries[0].index;
      if low < offset { return None, false; }
      var last := LastIndex();
      if high > last + 1 { return None, true; }
      if |entries| == 1 { return None, false; }
      var es := entries[low - offset..high - offset];
      assert offset < low ==> es == AsLog().Range(low, high);
      es := EntryLimitSize(maxSize, es);
      return Some(es), false;
    }

    /** Drops the entries up to `index`; the last of them becomes the dummy.  Aborts beyond the
        last entry. */
    method Compact(index: nat) returns (ok: bool, fatal: bool)
      requires Valid()
      modifies this`entries
      ensures Valid() && (ok <==> old(AsLog()).base < index <= old(AsLog()).LastIndex())
      ensures fatal <==> index > old(AsLog()).LastIndex()
      ensures AsLog() == if ok then Dropped(old(AsLog()), index) else old(AsLog())
    {
      var offset := entries[0].index;
      if index <= offset { return false, false; }
      var last := LastIndex();
      if index > last { return false, true; }
      var i := index - offset;
      ghost var l := AsLog();
      ghost var was := entries;
      entries := entries[0 := entries[0].(index := entries[i].index, term := entries[i].term)];
      entries := entries[..1] + entries[i + 1..];
      assert entries[1..] == was[i + 1..];
      assert entries[1..] == l.ents[i..];
      return true, false;
    }

    /** Appends a gapless batch: what is compacted away is skipped, what it overlaps is cut off.
        The source aborts when the batch would leave a gap. */
    method Append(es: seq<Entry>) returns (fatal: bool)
      requires Valid() && (es != [] ==> Consecutive(es, es[0].index))
      modifies this`entries
      ensures Valid()
      ensures var news := Above(es, old(AsLog()).base);
              && (fatal <==> news != [] && news[0].index > old(AsLog()).LastIndex() + 1)
              && AsLog() == if fatal then old(AsLog()) else old(AsLog()).CutAppend(news)
    {
      if es == [] { return false; }
      ghost var l := AsLog();
      var first := entries[0].index + 1;
      var last := es[0].index + |es| - 1;
      if last < first { return false; }
      var news := es;
      if first > es[0].index { news := es[first - es[0].index..]; }
      assert news == Above(es, l.base);
      var offset := news[0].index - entries[0].index;
      if |entries| < offset { return true; }
      CutEntries(entries, offset, news);
      entries := entries[..offset] + news;
      return false;
    }

    /** Replaces everything by a newer snapshot. */
    method ApplySnapshot(s: Snap) returns (ok: bool)
      requires Valid()
      modifies this
      ensures Valid() && (ok <==> s.index > old(snapshot).index)
      ensures ok ==> snapshot == s && AsLog() == Log(s.index, s.term, [])
      ensures !ok ==> snapshot == old(snapshot) && AsLog() == old(AsLog())
    {
      if snapshot.index >= s.index { return false; }
      snapshot := s;
      entries := [Entry(s.term, s.index, EntryNormal, [])];
      return true;
    }

    /** Records a snapshot of the state at `index`; the log itself stays.  Aborts beyond the last
        entry. */
    method CreateSnapshot(index: nat, data: seq<Byte>) returns (ok: bool, fatal: bool)
      requires Valid()
      requires index > snapshot.index ==> index >= AsLog().base
      modifies this`snapshot
      ensures ok <==> old(snapshot).index < index <= AsLog().LastIndex()
      ensures fatal <==> old(snapshot).index < index && index > AsLog().LastIndex()
      ensures snapshot == if ok then Snap(index, AsLog().Term(index), data) else old(snapshot)
    {
      if index <= snapshot.index { return false, false; }
      var last := LastIndex();
      if index > last { return false, true; }
      snapshot := Snap(index, entries[index - entries[0].index].term, data);
      return true, false;
    }
  }

  // ---------------------------------------------------------------- the unstable tail

  class Unstable {
    var snapshot: Option<Snap>
    var entries: seq<Entry>
    var offset: nat

    ghost predicate Valid()
      reads this`offset, this`entries
    {
      offset > 0 && Consecutive(entries, offset)
    }

    /** The tail seen as a log whose base term is unknown. */
    ghost function AsLog(): (l: Log)
      requires Valid()
      reads this`offset, this`entries
    {
      Log(offset - 1, 0, entries)
    }

    constructor (offset: nat)
      requires offset > 0
      ensures Valid() && snapshot == None && entries == [] && this.offset == offset
    {
      snapshot, entries, this.offset := None, [], offset;
    }

    method MaybeFirstIndex() returns (r: Option<nat>)
      ensures r == if snapshot.Some? then Some(snapshot.value.index + 1) else None
    {
      r := match snapshot case Some(s) => Some(s.index + 1) case None => None;
    }

    method MaybeLastIndex() returns (r: Option<nat>)
      requires Valid()
      ensures r == if entries != [] then Some(AsLog().LastIndex())
                   else if snapshot.Some? then Some(snapshot.value.index) else None
    {
      if entries != [] { return Some(offset + |entries| - 1); }
      r := match snapshot case Some(s) => Some(s.index) case None => None;
    }

    /** The term of an entry of the tail, or of the snapshot. */
    method MaybeTerm(index: nat) returns (r: Option<nat>)
      requires Valid() && (snapshot.Some? ==> snapshot.value.index < offset)
      ensures r == if index < offset then
                     if snapshot.Some? && snapshot.value.index == index then Some(snapshot.value.term) else None
                   else if index <= AsLog().LastIndex() then Some(AsLog().Term(index)) else None
    {
      if index < offset {
        if snapshot.Some? && snapshot.value.index == index { return Some(snapshot.value.term); }
        return None;
      }
      var last := MaybeLastIndex();
      if last.None? || index > last.value { return None; }
      r := Some(entries[index - offset].term);
    }

    /** The entries up to `index` have been persisted, if the entry there still has that term. */
    method StableTo(index: nat, term: nat)
      requires Valid() && (snapshot.Some? ==> snapshot.value.index < offset)
      modifies this
      ensures Valid() && snapshot == old(snapshot)
      ensures if old(offset) <= index <= old(AsLog()).LastIndex() && old(AsLog()).Term(index) == term
              then offset == index + 1 && entries == Dropped(old(AsLog()), index).ents
              else offset == old(offset) && entries == old(entries)
    {
      var gt := MaybeTerm(index);
      if gt.None? { return; }
      if gt.value == term && index >= offset {
        var n := index - offset + 1;
        entries := entries[n..];
        offset := index + 1;
      }
    }

    method StableSnapTo(index: nat)
      modifies this`snapshot
      ensures snapshot == if old(snapshot).Some? && old(snapshot).value.index == index then None else old(snapshot)
    {
      if snapshot.Some? && snapshot.value.index == index { snapshot := None; }
    }

    method Restore(s: Snap)
      modifies this
      ensures Valid() && snapshot == Some(s) && entries == [] && offset == s.index + 1
    {
      offset := s.index + 1;
      entries := [];
      snapshot := Some(s);
    }

    /** Cuts the tail where the batch begins and adds the batch; a batch that begins at or below
        the first unstable entry replaces the tail.  Aborts on a gap. */
    method TruncateAndAppend(es: seq<Entry>) returns (fatal: bool)
      requires Valid() && (es != [] ==> Consecutive(es, es[0].index) && es[0].index > 0)
      modifies this`offset, this`entries
      ensures Valid()
      ensures fatal <==> es != [] && es[0].index > old(AsLog()).LastIndex() + 1
      ensures es != [] && !fatal ==> offset == Min(old(offset), es[0].index)
      ensures if fatal then AsLog() == old(AsLog())
              else if es != [] && es[0].index < old(offset) then entries == es
              else AsLog() == old(AsLog()).CutAppend(es)
    {
      if es == [] { return false; }
      var after := es[0].index;
      ghost var l := AsLog();
      if after == |entries| + offset {
        entries := entries + es;
      } else if after <= offset {
        offset := after;
        entries := es;
      } else {
        var kept, outside := Slice(offset, after);
        if outside { return true; }
        entries := kept + es;
      }
      assert after >= old(offset) ==> entries == l.ents[..after - old(offset)] + es;
      return false;
    }

    /** Entries in [low, high).  Aborts outside the tail. */
    method Slice(low: nat, high: nat) returns (es: seq<Entry>, fatal: bool)
      requires Valid() && low < high
      ensures fatal <==> low < offset || high > AsLog().LastIndex() + 1
      ensures !fatal ==> es == AsLog().Range(low, high)
    {
      var upper := offset + |entries|;
      if low < offset || high > upper { return [], true; }
      return entries[low - offset..high - offset], false;
    }
  }
}

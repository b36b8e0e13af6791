/** Reading the write-ahead log from a snapshot: which snapshot record satisfies the search, and when
    the entries read back are those that the live log still held behind the snapshot. */
module SnapshotRead {
  import opened Types
  import opened LogModel
  import opened LogStores
  import opened WalFormat
  import opened WriteAheadLog

  // ---------------------------------------------------------------- the search for the snapshot record

  predicate IsSnapshot(r: Record) { r.typ == SNAPSHOT_TYPE }

  ghost predicate HasSnapshot(rs: seq<Record>) {
    exists i :: 0 <= i < |rs| && IsSnapshot(rs[i])
  }

  /** What the search is meant to look for. */
  predicate IsStart(c: Codec, start: WalSnap, r: Record) {
    IsSnapshot(r) && c.unpackSnap(r.data).index == start.index
  }

  ghost predicate HasStart(c: Codec, start: WalSnap, rs: seq<Record>) {
    exists i :: 0 <= i < |rs| && IsStart(c, start, rs[i])
  }

  /** The search succeeds with any snapshot record.  So its answer is right if and only if the starting
      snapshot is among the records or there is no snapshot record at all. */
  lemma {:induction false} SnapshotSearch(c: Codec, start: WalSnap, rs: seq<Record>)
    ensures HandleAll(c, start, NOTHING, rs).found <==> HasSnapshot(rs)
    ensures (HandleAll(c, start, NOTHING, rs).found <==> HasStart(c, start, rs))
       <==> (HasStart(c, start, rs) || !HasSnapshot(rs))
  {
    if rs != [] {
      var front, last := rs[..|rs| - 1], rs[|rs| - 1];
      SnapshotSearch(c, start, front);
      assert rs == front + [last];
      assert HasSnapshot(rs) <==> HasSnapshot(front) || IsSnapshot(last);
    }
    if HasStart(c, start, rs) {
      var i :| 0 <= i < |rs| && IsStart(c, start, rs[i]);
      assert IsSnapshot(rs[i]);
    }
  }

  /** What makes reading abort: a record of a type that nothing writes, or the starting snapshot under another
      term. */
  predicate Aborts(c: Codec, start: WalSnap, r: Record) {
    if r.typ == SNAPSHOT_TYPE then c.unpackSnap(r.data).index == start.index && c.unpackSnap(r.data).term != start.term
    else r.typ != ENTRY_TYPE && r.typ != STATE_TYPE
  }

  ghost predicate SomeAborts(c: Codec, start: WalSnap, rs: seq<Record>) {
    exists i :: 0 <= i < |rs| && Aborts(c, start, rs[i])
  }

  /** Reading aborts if and only if there is such a record. */
  lemma {:induction false} ReadingAborts(c: Codec, start: WalSnap, rs: seq<Record>)
    ensures HandleAll(c, start, NOTHING, rs).fatal <==> SomeAborts(c, start, rs)
  {
    if rs != [] {
      var front, last := rs[..|rs| - 1], rs[|rs| - 1];
      ReadingAborts(c, start, front);
      assert rs == front + [last];
      assert SomeAborts(c, start, rs) <==> SomeAborts(c, start, front) || Aborts(c, start, last);
    }
  }

  /** A file begins with the snapshot record written when it was created, so the search never fails,
      whatever the snapshot looked for: not even if the file was written for another one. */
  lemma SearchNeverFails(c: Codec, start: WalSnap, created: WalSnap, rs: seq<Record>)
    ensures HandleAll(c, start, NOTHING, [c.SnapRecord(created)] + rs).found
  {
    SnapshotSearch(c, start, [c.SnapRecord(created)] + rs);
    assert IsSnapshot(([c.SnapRecord(created)] + rs)[0]);
  }

  // ---------------------------------------------------------------- reading from a later snapshot

  /** The batch has an entry behind the index. */
  predicate Reaches(es: seq<Entry>, at: nat) {
    es != [] && es[|es| - 1].index > at
  }

  /** Some saved batch has an entry behind the index. */
  ghost predicate ReachesBeyond(saves: seq<Save>, at: nat) {
    exists i {:trigger saves[i]} :: 0 <= i < |saves| && Reaches(saves[i].ents, at)
  }

  /** While the live log is `l`, reading from `at` on has gathered the entries of `r`: those of the live
      log as long as it goes on behind `at`, and some exactly if a batch has ever reached there. */
  ghost predicate GatheredFrom(l: Log, r: Log, at: nat, beyond: bool) {
    && l.base <= at == r.base
    && (l.LastIndex() > at ==> r.ents == Dropped(l, at).ents)
    && (r.ents != [] <==> beyond)
  }

  /** A batch that does not get behind `at` is not read. */
  lemma NotRead(l: Log, r: Log, at: nat, es: seq<Entry>)
    requires l.base <= at == r.base && Fits(l, es) && !Reaches(es, at)
    ensures Fits(r, es) && Append(r, es) == r
    ensures Append(l, es) == l || Append(l, es).LastIndex() <= at
    ensures Append(l, es).base == l.base
  {
    if es != [] {
      AboveStart(es, l.base);
      AboveStart(es, at);
    }
  }

  /** A batch that begins at or below `at` and ends behind it: both are left with its rest. */
  lemma ReadAcross(l: Log, r: Log, at: nat, news: seq<Entry>, rest: seq<Entry>)
    requires news != [] && Consecutive(news, news[0].index) && l.base < news[0].index <= l.LastIndex() + 1
    requires news[0].index <= at == r.base && at + 1 < news[0].index + |news|
    requires rest == news[at + 1 - news[0].index..]
    ensures rest != [] && rest[0].index == at + 1
    ensures Dropped(l.CutAppend(news), at).ents == rest == r.CutAppend(rest).ents
  {
    DropSum(l.ents[..news[0].index - l.base - 1], news, at + 1 - news[0].index, at - l.base);
    assert r.ents[..0] + rest == rest;
  }

  /** A batch that gets behind the base ends the log. */
  lemma AppendEnds(l: Log, es: seq<Entry>)
    requires Fits(l, es) && Reaches(es, l.base)
    ensures var news := Above(es, l.base);
            && news != [] && Consecutive(news, news[0].index) && l.base < news[0].index <= l.LastIndex() + 1
            && news[0].index + |news| - 1 == es[|es| - 1].index
            && Append(l, es) == l.CutAppend(news)
    ensures Append(l, es).base == l.base && Append(l, es).LastIndex() == es[|es| - 1].index
  {
    AboveStart(es, l.base);
  }

  /** A batch that gets behind `at` is read as far as it lies there. */
  lemma IsRead(l: Log, r: Log, at: nat, es: seq<Entry>)
    requires l.base <= at == r.base && Fits(l, es) && Reaches(es, at)
    requires l.LastIndex() > at ==> r.ents == Dropped(l, at).ents
    ensures Fits(r, es) && Append(r, es).base == at && Append(r, es).ents != []
    ensures Append(l, es).base == l.base && Append(l, es).LastIndex() == es[|es| - 1].index
    ensures Append(r, es).ents == Dropped(Append(l, es), at).ents
  {
    AppendEnds(l, es);
    AppendEnds(r, es);
    if Above(es, l.base)[0].index > at {
      SameAbove(es, l.base, at);
      NewsBehind(l, r, at, Above(es, at));
    } else {
      RestOf(es, l.base, at);
      ReadAcross(l, r, at, Above(es, l.base), Above(es, at));
    }
  }

  lemma SameAbove(es: seq<Entry>, low: nat, at: nat)
    requires es != [] && Consecutive(es, es[0].index) && low <= at && Above(es, low) != []
    requires Above(es, low)[0].index > at
    ensures Above(es, at) == Above(es, low)
  {
    AboveStart(es, low);
  }

  lemma RestOf(es: seq<Entry>, low: nat, at: nat)
    requires es != [] && Consecutive(es, es[0].index) && low <= at && Above(es, low) != []
    requires Above(es, low)[0].index <= at && Reaches(es, at)
    ensures Above(es, at) == Above(es, low)[at + 1 - Above(es, low)[0].index..]
  {
    AboveStart(es, low);
    if es[0].index <= low {
      assert es[low + 1 - es[0].index..][at - low..] == es[at + 1 - es[0].index..];
    }
  }

  lemma GatheredStep(l: Log, r: Log, at: nat, beyond: bool, es: seq<Entry>)
    requires GatheredFrom(l, r, at, beyond) && Fits(l, es)
    ensures Fits(r, es) && GatheredFrom(Append(l, es), Append(r, es), at, beyond || Reaches(es, at))
  {
    if Reaches(es, at) {
      IsRead(l, r, at, es);
    } else {
      NotRead(l, r, at, es);
    }
  }

  lemma NewsBehind(l: Log, r: Log, at: nat, news: seq<Entry>)
    requires news != [] && l.base <= at == r.base && at < news[0].index <= l.LastIndex() + 1
    requires l.LastIndex() > at ==> r.ents == Dropped(l, at).ents
    ensures Dropped(l.CutAppend(news), at).ents == r.CutAppend(news).ents
  {
    var n, k := news[0].index - l.base - 1, at - l.base;
    assert l.ents[k..][..n - k] == l.ents[..n][k..];
    assert (l.ents[..n] + news)[k..] == l.ents[..n][k..] + news;
  }

  lemma ReachesSnoc(saves: seq<Save>, v: Save, at: nat)
    ensures ReachesBeyond(saves + [v], at) <==> ReachesBeyond(saves, at) || Reaches(v.ents, at)
  {
    var all := saves + [v];
    if ReachesBeyond(saves, at) {
      var i :| 0 <= i < |saves| && Reaches(saves[i].ents, at);
      assert all[i] == saves[i];
    }
    assert all[|saves|] == v;
  }

  lemma GatheredRead(c: Codec, start: WalSnap, s: Replay, was: Log, saves: seq<Save>, v: Save)
    requires c.Faithful() && was.base == start.index && Fits(was, v.ents)
    requires HandleAll(c, start, s, AllRecords(c, saves)).ents == AllSome(was.ents)
    ensures HandleAll(c, start, s, AllRecords(c, saves + [v])).ents == AllSome(Append(was, v.ents).ents)
  {
    assert (saves + [v])[..|saves|] == saves;
    HandleSum(c, start, s, AllRecords(c, saves), RecordsOf(c, v));
    SaveReplay(c, start, HandleAll(c, start, s, AllRecords(c, saves)), was, v);
  }

  lemma FrontAndLast<T>(s: seq<T>)
    requires s != []
    ensures s[..|s| - 1] + [s[|s| - 1]] == s
  {
  }

  lemma GatheredSave(c: Codec, start: WalSnap, s: Replay, l: Log, was: Log, saves: seq<Save>, v: Save) returns (r: Log)
    requires c.Faithful() && GatheredFrom(l, was, start.index, ReachesBeyond(saves, start.index)) && Fits(l, v.ents)
    requires HandleAll(c, start, s, AllRecords(c, saves)).ents == AllSome(was.ents)
    ensures HandleAll(c, start, s, AllRecords(c, saves + [v])).ents == AllSome(r.ents)
    ensures GatheredFrom(Append(l, v.ents), r, start.index, ReachesBeyond(saves + [v], start.index))
  {
    GatheredStep(l, was, start.index, ReachesBeyond(saves, start.index), v.ents);
    ReachesSnoc(saves, v, start.index);
    GatheredRead(c, start, s, was, saves, v);
    r := Append(was, v.ents);
  }

  lemma {:induction false} GatheredFromSnapshot(c: Codec, start: WalSnap, s: Replay, b: Log, saves: seq<Save>)
    returns (r: Log)
    requires c.Faithful() && s.ents == [] && NoGaps(b, saves) && b.LastIndex() <= start.index
    ensures HandleAll(c, start, s, AllRecords(c, saves)).ents == AllSome(r.ents)
    ensures GatheredFrom(Live(b, saves), r, start.index, ReachesBeyond(saves, start.index))
  {
    if saves == [] {
      r := Log(start.index, start.term, []);
    } else {
      var front, v := saves[..|saves| - 1], saves[|saves| - 1];
      var was := GatheredFromSnapshot(c, start, s, b, front);
      FrontAndLast(saves);
      r := GatheredSave(c, start, s, Live(b, front), was, front, v);
    }
  }

  /** Snapshot records among the others. */
  function WithoutSnapshots(rs: seq<Record>): seq<Record> {
    if rs == [] then []
    else WithoutSnapshots(rs[..|rs| - 1]) + if IsSnapshot(rs[|rs| - 1]) then [] else [rs[|rs| - 1]]
  }

  lemma SameGathered(c: Codec, start: WalSnap, s: Replay, t: Replay, r: Record)
    requires s.ents == t.ents && s.hard == t.hard
    ensures var s', t' := Handle(c, start, s, r), Handle(c, start, t, r);
            s'.ents == t'.ents && s'.hard == t'.hard && (IsSnapshot(r) ==> s'.ents == t.ents && s'.hard == t.hard)
  {
  }

  lemma {:induction false} SnapshotRecordsChangeNoEntry(c: Codec, start: WalSnap, s: Replay, rs: seq<Record>)
    ensures var r, w := HandleAll(c, start, s, rs), HandleAll(c, start, s, WithoutSnapshots(rs));
            r.ents == w.ents && r.hard == w.hard
  {
    if rs != [] {
      var front, last := rs[..|rs| - 1], rs[|rs| - 1];
      var was, without := HandleAll(c, start, s, front), HandleAll(c, start, s, WithoutSnapshots(front));
      SnapshotRecordsChangeNoEntry(c, start, s, front);
      SameGathered(c, start, was, without, last);
      HandleSnoc(c, start, s, WithoutSnapshots(front), last);
      assert WithoutSnapshots(front) + [] == WithoutSnapshots(front);
      assert HandleAll(c, start, s, rs) == Handle(c, start, was, last);
    }
  }

  /** Reading from a later snapshot, wherever snapshot records stand in the file, against compacting
      the live log there.  The two agree if and only if the live log goes on behind the snapshot, or
      nothing was ever saved behind it.  Otherwise entries come back that an overwrite had removed:
      records at or below the snapshot are skipped, and with them the cuts that they stand for. */
  lemma ReadingFromSnapshot(c: Codec, start: WalSnap, b: Log, saves: seq<Save>, rs: seq<Record>)
    requires c.Faithful() && NoGaps(b, saves) && WithoutSnapshots(rs) == AllRecords(c, saves)
    requires b.LastIndex() <= start.index <= Live(b, saves).LastIndex()
    ensures Live(b, saves).base <= start.index
    ensures HandleAll(c, start, NOTHING, rs).ents == AllSome(Dropped(Live(b, saves), start.index).ents)
            <==> Live(b, saves).LastIndex() > start.index || !ReachesBeyond(saves, start.index)
    ensures HandleAll(c, start, NOTHING, rs).hard == HandleAll(c, start, NOTHING, AllRecords(c, saves)).hard
  {
    SnapshotRecordsChangeNoEntry(c, start, NOTHING, rs);
    var r := GatheredFromSnapshot(c, start, NOTHING, b, saves);
    assert Live(b, saves).LastIndex() == start.index ==> Dropped(Live(b, saves), start.index).ents == [];
  }

  /** One more save, on both sides. */
  lemma OneMoreSave(c: Codec, start: WalSnap, b: Log, saves: seq<Save>, r: Log, v: Save)
    requires c.Faithful() && NoGaps(b, saves) && Fits(Live(b, saves), v.ents)
    requires r.base == start.index && Fits(r, v.ents)
    requires HandleAll(c, start, NOTHING, AllRecords(c, saves)).ents == AllSome(r.ents)
    ensures NoGaps(b, saves + [v]) && Live(b, saves + [v]) == Append(Live(b, saves), v.ents)
    ensures HandleAll(c, start, NOTHING, AllRecords(c, saves + [v])).ents == AllSome(Append(r, v.ents).ents)
  {
    assert (saves + [v])[..|saves|] == saves;
    GatheredRead(c, start, NOTHING, r, saves, v);
  }

  function Plain(term: nat, index: nat): Entry { Entry(term, index, EntryNormal, []) }

  function EntriesOnly(es: seq<Entry>): Save { Saved(HardState(0, 0, 0), es) }

  const OLD_LEADER := EntriesOnly([Plain(1, 1), Plain(1, 2), Plain(1, 3), Plain(1, 4)])
  const OVERWRITE := EntriesOnly([Plain(2, 2)])
  const NEW_LEADER := EntriesOnly([Plain(2, 3)])

  /** The failing case in a run: of four entries of term 1 a new leader overwrites the second, sends a
      third, and then a snapshot is taken there.  The live log ends at the snapshot, of term 2;
      reading brings the fourth entry, of term 1, back behind it.  So a candidate whose log ends
      with that entry would not have had this node's vote before, and has it after the restart. */
  lemma OverwrittenEntryComesBack(c: Codec)
    requires c.Faithful()
    ensures var saves := [OLD_LEADER, OVERWRITE, NEW_LEADER];
            && NoGaps(Log(0, 0, []), saves)
            && Live(Log(0, 0, []), saves) == Log(0, 0, [Plain(1, 1), Plain(2, 2), Plain(2, 3)])
            && HandleAll(c, WalSnap(3, 2), NOTHING, AllRecords(c, saves)).ents == [Some(Plain(1, 4))]
            && !Live(Log(0, 0, []), saves).IsUpToDate(4, 1) && Log(3, 2, [Plain(1, 4)]).IsUpToDate(4, 1)
  {
    var b, start, r := Log(0, 0, []), WalSnap(3, 2), Log(3, 2, [Plain(1, 4)]);
    OverwriteLive();
    OverwriteRead();
    OneMoreSave(c, start, b, [], Log(3, 2, []), OLD_LEADER);
    OneMoreSave(c, start, b, [] + [OLD_LEADER], r, OVERWRITE);
    OneMoreSave(c, start, b, [] + [OLD_LEADER] + [OVERWRITE], r, NEW_LEADER);
    ThreeOf(OLD_LEADER, OVERWRITE, NEW_LEADER);
    assert AllSome([Plain(1, 4)]) == [Some(Plain(1, 4))];
  }

  lemma ThreeOf<T>(x: T, y: T, z: T)
    ensures [] + [x] + [y] + [z] == [x, y, z]
  {
  }

  lemma OverwriteLive()
    ensures Fits(Log(0, 0, []), OLD_LEADER.ents) && Append(Log(0, 0, []), OLD_LEADER.ents) == Log(0, 0, OLD_LEADER.ents)
    ensures Fits(Log(0, 0, OLD_LEADER.ents), OVERWRITE.ents)
    ensures Append(Log(0, 0, OLD_LEADER.ents), OVERWRITE.ents) == Log(0, 0, [Plain(1, 1), Plain(2, 2)])
    ensures Fits(Log(0, 0, [Plain(1, 1), Plain(2, 2)]), NEW_LEADER.ents)
    ensures Append(Log(0, 0, [Plain(1, 1), Plain(2, 2)]), NEW_LEADER.ents)
         == Log(0, 0, [Plain(1, 1), Plain(2, 2), Plain(2, 3)])
  {
  }

  lemma OverwriteRead()
    ensures Fits(Log(3, 2, []), OLD_LEADER.ents) && Append(Log(3, 2, []), OLD_LEADER.ents) == Log(3, 2, [Plain(1, 4)])
    ensures Fits(Log(3, 2, [Plain(1, 4)]), OVERWRITE.ents)
    ensures Append(Log(3, 2, [Plain(1, 4)]), OVERWRITE.ents) == Log(3, 2, [Plain(1, 4)])
    ensures Fits(Log(3, 2, [Plain(1, 4)]), NEW_LEADER.ents)
    ensures Append(Log(3, 2, [Plain(1, 4)]), NEW_LEADER.ents) == Log(3, 2, [Plain(1, 4)])
  {
    assert Above(OLD_LEADER.ents, 3) == [Plain(1, 4)];
  }
}

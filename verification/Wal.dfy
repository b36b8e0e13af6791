/** The write-ahead log: what is saved, what a restart reads back, and what a crash may lose. */
module WriteAheadLog {
  import opened Types
  import opened LogModel
  import opened LogStores
  import opened WalFormat

  datatype WalSnap = WalSnap(index: nat, term: nat)

  /** The libraries for checksums and serialization. */
  datatype Codec = Codec(
    crc: seq<Byte> -> Word,
    packEntry: Entry -> seq<Byte>, unpackEntry: seq<Byte> -> Entry,
    packState: HardState -> seq<Byte>, unpackState: seq<Byte> -> HardState,
    packSnap: WalSnap -> seq<Byte>, unpackSnap: seq<Byte> -> WalSnap) {

    ghost predicate Faithful() {
      && (forall e :: unpackEntry(packEntry(e)) == e)
      && (forall h :: unpackState(packState(h)) == h)
      && (forall s :: unpackSnap(packSnap(s)) == s)
    }

    function EntryRecord(e: Entry): Record { Record(ENTRY_TYPE, packEntry(e)) }

    function StateRecord(h: HardState): Record { Record(STATE_TYPE, packState(h)) }

    function SnapRecord(s: WalSnap): Record { Record(SNAPSHOT_TYPE, packSnap(s)) }
  }

  // ---------------------------------------------------------------- replay

  /** What reading has gathered so far.  A gap would leave null entries. */
  datatype Replay = Replay(found: bool, hard: HardState, ents: seq<Option<Entry>>, last: nat, fatal: bool)

  const NOTHING := Replay(false, HardState(0, 0, 0), [], 0, false)

  function Resize(s: seq<Option<Entry>>, n: nat): (r: seq<Option<Entry>>)
    ensures |r| == n
  {
    if n <= |s| then s[..n] else s + seq(n - |s|, _ => None)
  }

  /** `handle_record_wal_record`.  Any snapshot record counts as the one looked for. */
  function Handle(c: Codec, start: WalSnap, s: Replay, r: Record): Replay {
    if r.typ == ENTRY_TYPE then
      var e := c.unpackEntry(r.data);
      s.(ents := if e.index > start.index then Resize(s.ents, e.index - start.index - 1) + [Some(e)] else s.ents,
         last := e.index)
    else if r.typ == STATE_TYPE then s.(hard := c.unpackState(r.data))
    else if r.typ == SNAPSHOT_TYPE then
      var snap := c.unpackSnap(r.data);
      s.(found := true, fatal := s.fatal || (snap.index == start.index && snap.term != start.term))
    else s.(fatal := true)
  }

  function HandleAll(c: Codec, start: WalSnap, s: Replay, rs: seq<Record>): Replay {
    if rs == [] then s else Handle(c, start, HandleAll(c, start, s, rs[..|rs| - 1]), rs[|rs| - 1])
  }

  lemma HandleSnoc(c: Codec, start: WalSnap, s: Replay, rs: seq<Record>, r: Record)
    ensures HandleAll(c, start, s, rs + [r]) == Handle(c, start, HandleAll(c, start, s, rs), r)
  {
    assert (rs + [r])[..|rs|] == rs;
  }

  lemma {:induction false} HandleSum(c: Codec, start: WalSnap, s: Replay, a: seq<Record>, b: seq<Record>)
    ensures HandleAll(c, start, s, a + b) == HandleAll(c, start, HandleAll(c, start, s, a), b)
  {
    if b == [] {
      assert a + b == a;
    } else {
      HandleSum(c, start, s, a, b[..|b| - 1]);
      assert (a + b)[..|a + b| - 1] == a + b[..|b| - 1];
    }
  }

  // ---------------------------------------------------------------- saving

  /** One call of `save`. */
  datatype Save = Saved(hard: HardState, ents: seq<Entry>)

  function EntryRecords(c: Codec, es: seq<Entry>): seq<Record> {
    if es == [] then [] else EntryRecords(c, es[..|es| - 1]) + [c.EntryRecord(es[|es| - 1])]
  }

  /** The entries first, then the hard state unless it is empty. */
  function RecordsOf(c: Codec, v: Save): seq<Record> {
    EntryRecords(c, v.ents) + if v.hard.IsEmpty() then [] else [c.StateRecord(v.hard)]
  }

  function AllRecords(c: Codec, saves: seq<Save>): seq<Record> {
    if saves == [] then [] else AllRecords(c, saves[..|saves| - 1]) + RecordsOf(c, saves[|saves| - 1])
  }

  function LastHard(saves: seq<Save>): HardState {
    if saves == [] then HardState(0, 0, 0)
    else if saves[|saves| - 1].hard.IsEmpty() then LastHard(saves[..|saves| - 1])
    else saves[|saves| - 1].hard
  }

  /** A batch that leaves no gap behind the log; it may overwrite. */
  predicate Fits(l: Log, es: seq<Entry>) {
    es != [] ==> Consecutive(es, es[0].index) && (es[|es| - 1].index > l.base ==> es[0].index <= l.LastIndex() + 1)
  }

  /** `MemoryStorage::append` on the live log. */
  function Append(l: Log, es: seq<Entry>): Log
    requires Fits(l, es)
  {
    l.CutAppend(Above(es, l.base))
  }

  predicate NoGaps(l: Log, saves: seq<Save>)
    decreases |saves|, 0
  {
    saves == [] || (NoGaps(l, saves[..|saves| - 1]) && Fits(Live(l, saves[..|saves| - 1]), saves[|saves| - 1].ents))
  }

  /** The live log after all these saves. */
  function Live(l: Log, saves: seq<Save>): Log
    requires NoGaps(l, saves)
    decreases |saves|, 1
  {
    if saves == [] then l else Append(Live(l, saves[..|saves| - 1]), saves[|saves| - 1].ents)
  }

  function AllSome(es: seq<Entry>): (r: seq<Option<Entry>>)
    ensures |r| == |es| && forall i {:trigger r[i]} :: 0 <= i < |r| ==> r[i] == Some(es[i])
  {
    seq(|es|, i requires 0 <= i < |es| => Some(es[i]))
  }

  // ---------------------------------------------------------------- replay equals the live log

  /** One entry: resize and push is cut and append. */
  lemma OneEntry(l: Log, e: Entry)
    requires e.index <= l.LastIndex() + 1
    ensures Append(l, [e]).base == l.base
    ensures AllSome(Append(l, [e]).ents)
         == if e.index > l.base then Resize(AllSome(l.ents), e.index - l.base - 1) + [Some(e)] else AllSome(l.ents)
  {
    if e.index > l.base {
      var n := e.index - l.base - 1;
      assert Append(l, [e]).ents == l.ents[..n] + [e];
      assert AllSome(l.ents)[..n] == AllSome(l.ents[..n]);
    }
  }

  lemma CutAppendSnoc(l: Log, news: seq<Entry>, e: Entry)
    requires l.base < e.index
    requires if news == [] then e.index <= l.LastIndex() + 1
             else l.base < news[0].index <= l.LastIndex() + 1 && e.index == news[0].index + |news|
    ensures e.index <= l.CutAppend(news).LastIndex() + 1 && l.CutAppend(news).base == l.base
    ensures l.CutAppend(news + [e]) == l.CutAppend(news).CutAppend([e])
  {
    if news == [] {
      assert news + [e] == [e];
    } else {
      var n := news[0].index - l.base - 1;
      var cut := l.ents[..n] + news;
      assert cut[..e.index - l.base - 1] == cut;
      assert l.ents[..n] + (news + [e]) == cut + [e];
    }
  }

  lemma AboveSnoc(es: seq<Entry>, base: nat)
    requires es != [] && Consecutive(es, es[0].index)
    ensures var front, e := es[..|es| - 1], es[|es| - 1];
            && (front != [] ==> Consecutive(front, front[0].index))
            && e.index == es[0].index + |es| - 1
            && Above(es, base) == Above(front, base) + (if e.index > base then [e] else [])
            && (e.index <= base ==> Above(front, base) == [])
  {
    var front, e := es[..|es| - 1], es[|es| - 1];
    assert forall i :: 0 <= i < |front| ==> front[i] == es[i];
    assert es == front + [e];
  }

  /** Where the new part of a batch begins. */
  lemma AboveStart(es: seq<Entry>, base: nat)
    requires es != [] && Consecutive(es, es[0].index)
    ensures var first, end := if es[0].index > base then es[0].index else base + 1, es[0].index + |es|;
            if first < end then Above(es, base) != [] && Above(es, base)[0].index == first && |Above(es, base)| == end - first
            else Above(es, base) == []
  {
  }

  lemma SnocAbove(l: Log, news: seq<Entry>, news': seq<Entry>, e: Entry)
    requires l.base < e.index && news' == news + [e]
    requires if news == [] then e.index <= l.LastIndex() + 1
             else l.base < news[0].index <= l.LastIndex() + 1 && e.index == news[0].index + |news|
    ensures news'[0].index <= l.LastIndex() + 1 && l.base < news'[0].index
    ensures e.index <= l.CutAppend(news).LastIndex() + 1 && l.CutAppend(news).base == l.base
    ensures l.CutAppend(news') == l.CutAppend(news).CutAppend([e])
  {
    CutAppendSnoc(l, news, e);
  }

  /** A batch is its front and its last entry. */
  lemma BatchSnoc(l: Log, es: seq<Entry>)
    requires es != [] && Fits(l, es)
    ensures var front, e := es[..|es| - 1], es[|es| - 1];
            && Fits(l, front) && e.index <= Append(l, front).LastIndex() + 1 && Append(l, front).base == l.base
            && Append(l, es) == Append(Append(l, front), [e])
  {
    var front, e := es[..|es| - 1], es[|es| - 1];
    AboveSnoc(es, l.base);
    if front != [] { AboveStart(front, l.base); }
    AboveOne(e, l.base);
    if e.index > l.base { SnocAbove(l, Above(front, l.base), Above(es, l.base), e); }
  }

  lemma AboveOne(e: Entry, base: nat)
    ensures Above([e], base) == if e.index > base then [e] else []
  {
  }

  lemma EntryStep(c: Codec, start: WalSnap, s: Replay, l: Log, e: Entry)
    requires c.Faithful() && l.base == start.index && e.index <= l.LastIndex() + 1 && s.ents == AllSome(l.ents)
    ensures var r := Handle(c, start, s, c.EntryRecord(e));
            && r.ents == AllSome(Append(l, [e]).ents) && Append(l, [e]).base == l.base
            && r.found == s.found && r.hard == s.hard && r.fatal == s.fatal
  {
    OneEntry(l, e);
  }

  lemma {:induction false} BatchReplay(c: Codec, start: WalSnap, s: Replay, l: Log, es: seq<Entry>)
    requires c.Faithful() && l.base == start.index && Fits(l, es) && s.ents == AllSome(l.ents)
    ensures var r := HandleAll(c, start, s, EntryRecords(c, es));
            && r.ents == AllSome(Append(l, es).ents) && Append(l, es).base == l.base
            && r.found == s.found && r.hard == s.hard && r.fatal == s.fatal
  {
    if es == [] {
      assert Above(es, l.base) == [];
    } else {
      var front, e := es[..|es| - 1], es[|es| - 1];
      BatchSnoc(l, es);
      BatchReplay(c, start, s, l, front);
      HandleSnoc(c, start, s, EntryRecords(c, front), c.EntryRecord(e));
      EntryStep(c, start, HandleAll(c, start, s, EntryRecords(c, front)), Append(l, front), e);
    }
  }

  /** WAL replay equals live storage: for every sequence of saves without gaps, the entries read
      back are those of the live log, none of them null, and the hard state is the last one saved. */
  lemma {:induction false} ReplayIsLive(c: Codec, start: WalSnap, s: Replay, saves: seq<Save>)
    requires c.Faithful() && s.ents == [] && s.hard == HardState(0, 0, 0)
    requires NoGaps(Log(start.index, start.term, []), saves)
    ensures var l := Live(Log(start.index, start.term, []), saves);
            var r := HandleAll(c, start, s, AllRecords(c, saves));
            && r.ents == AllSome(l.ents) && l.base == start.index
            && r.hard == LastHard(saves) && r.found == s.found && r.fatal == s.fatal
  {
    if saves != [] {
      var front, v := saves[..|saves| - 1], saves[|saves| - 1];
      ReplayIsLive(c, start, s, front);
      var mid := HandleAll(c, start, s, AllRecords(c, front));
      HandleSum(c, start, s, AllRecords(c, front), RecordsOf(c, v));
      SaveReplay(c, start, mid, Live(Log(start.index, start.term, []), front), v);
    }
  }

  lemma SaveReplay(c: Codec, start: WalSnap, s: Replay, l: Log, v: Save)
    requires c.Faithful() && l.base == start.index && Fits(l, v.ents) && s.ents == AllSome(l.ents)
    ensures var r := HandleAll(c, start, s, RecordsOf(c, v));
            && r.ents == AllSome(Append(l, v.ents).ents) && Append(l, v.ents).base == l.base
            && r.hard == (if v.hard.IsEmpty() then s.hard else v.hard) && r.found == s.found && r.fatal == s.fatal
  {
    var es := EntryRecords(c, v.ents);
    BatchReplay(c, start, s, l, v.ents);
    HandleSnoc(c, start, s, es, c.StateRecord(v.hard));
    assert es + [] == es;
  }

  lemma EntryRecordsFront(c: Codec, es: seq<Entry>, k: nat)
    requires k <= |es|
    ensures |EntryRecords(c, es)| == |es| && EntryRecords(c, es)[..k] == EntryRecords(c, es[..k])
  {
    if es != [] {
      var front := es[..|es| - 1];
      EntryRecordsFront(c, front, if k <= |front| then k else |front|);
      assert k < |es| ==> front[..k] == es[..k];
      assert k == |es| ==> es[..k] == es;
    }
  }

  /** A save torn behind its k-th entry: the entries before are in the log, but the new hard state, which comes
      last, is not there. */
  lemma TornSave(c: Codec, start: WalSnap, s: Replay, l: Log, v: Save, k: nat)
    requires c.Faithful() && l.base == start.index && s.ents == AllSome(l.ents) && !v.hard.IsEmpty()
    requires k <= |v.ents| && Fits(l, v.ents[..k])
    ensures |RecordsOf(c, v)| == |v.ents| + 1
    ensures var r := HandleAll(c, start, s, RecordsOf(c, v)[..k]);
            r.ents == AllSome(Append(l, v.ents[..k]).ents) && r.hard == s.hard && r.found == s.found && r.fatal == s.fatal
  {
    EntryRecordsFront(c, v.ents, k);
    assert RecordsOf(c, v)[..k] == EntryRecords(c, v.ents)[..k];
    BatchReplay(c, start, s, l, v.ents[..k]);
  }

  /** Recovery, end to end: a file that holds the snapshot record and all saves, and ends in the torn
      beginning of one more record, is cut back to them, and reading it rebuilds the live log and the
      last hard state without an abort. */
  lemma RecoveryRebuilds(c: Codec, start: WalSnap, saves: seq<Save>, next: Record, n: nat)
    requires c.Faithful() && NoGaps(Log(start.index, start.term, []), saves)
    requires AllStorable([c.SnapRecord(start)] + AllRecords(c, saves)) && Storable(next) && n < |Encode(c.crc, next)|
    ensures var whole := EncodeAll(Encoder(c.crc), [c.SnapRecord(start)] + AllRecords(c, saves));
            var p := Parse(c.crc, whole + Encode(c.crc, next)[..n]);
            var r := HandleAll(c, start, NOTHING, p.records);
            && p.size == |whole| && r.found && !r.fatal
            && r.ents == AllSome(Live(Log(start.index, start.term, []), saves).ents) && r.hard == LastHard(saves)
  {
    var head := [c.SnapRecord(start)];
    TornTailRecovery(c.crc, head + AllRecords(c, saves), next, n);
    HandleSum(c, start, NOTHING, head, AllRecords(c, saves));
    assert head[..0] == [];
    ReplayIsLive(c, start, HandleAll(c, start, NOTHING, head), saves);
  }

  /** One batch, with the snapshot inside the log before and behind it: compacting first and then
      appending, which is what reading from the snapshot amounts to, gives another log exactly if the
      batch ends at the snapshot and cuts something off.  This is one
      step only: `SnapshotRead.ReadingFromSnapshot` is about whole files, where a cut below the
      snapshot and a log that grows back to it fail too. */
  lemma CompactionCommutes(l: Log, es: seq<Entry>, at: nat)
    requires l.Valid() && Fits(l, es) && es != [] && es[0].index > l.base
    requires l.base <= at <= l.LastIndex() && at <= Append(l, es).LastIndex()
    ensures Fits(Dropped(l, at), es)
    ensures Append(Dropped(l, at), es).ents == Dropped(Append(l, es), at).ents
            <==> !(es[|es| - 1].index == at < l.LastIndex())
  {
    if es[0].index > at {
      BatchBehind(l, es, at);
    } else {
      BatchAcross(l, es, at);
      LiveAcross(l, es, at);
    }
  }

  lemma BatchBehind(l: Log, es: seq<Entry>, at: nat)
    requires es != [] && Consecutive(es, es[0].index) && l.base <= at < es[0].index <= l.LastIndex() + 1
    ensures Append(Dropped(l, at), es).ents == Dropped(Append(l, es), at).ents
  {
    var n, k := es[0].index - l.base - 1, at - l.base;
    assert l.ents[k..][..n - k] == l.ents[..n][k..];
    assert (l.ents[..n] + es)[k..] == l.ents[..n][k..] + es;
  }

  lemma BatchAcross(l: Log, es: seq<Entry>, at: nat)
    requires es != [] && Consecutive(es, es[0].index) && l.base < es[0].index <= at <= l.LastIndex()
    requires at <= es[|es| - 1].index
    ensures Append(Dropped(l, at), es).ents == (if es[|es| - 1].index > at then es[at + 1 - es[0].index..] else Dropped(l, at).ents)
  {
    AboveStart(es, at);
  }

  lemma LiveAcross(l: Log, es: seq<Entry>, at: nat)
    requires es != [] && Consecutive(es, es[0].index) && l.base < es[0].index <= at <= l.LastIndex()
    requires at <= es[|es| - 1].index
    ensures Dropped(Append(l, es), at).ents == es[at + 1 - es[0].index..]
  {
    DropSum(l.ents[..es[0].index - l.base - 1], es, at + 1 - es[0].index, at - l.base);
  }

  lemma DropSum(a: seq<Entry>, b: seq<Entry>, k: nat, n: nat)
    requires k <= |b| && n == |a| + k
    ensures (a + b)[n..] == b[k..]
  {
  }

  // ---------------------------------------------------------------- what a crash may lose

  /** A hard state that differs from `d` in the commit index at most. */
  ghost predicate OnlyCommit(c: Codec, d: HardState, r: Record) {
    exists h: HardState :: r == c.StateRecord(h) && h.term == d.term && h.vote == d.vote
  }

  ghost predicate AllOnlyCommit(c: Codec, d: HardState, rs: seq<Record>) {
    forall i :: 0 <= i < |rs| ==> OnlyCommit(c, d, rs[i])
  }

  /** Such records change nothing but the commit index. */
  lemma {:induction false} OnlyCommitReplay(c: Codec, start: WalSnap, s: Replay, rs: seq<Record>)
    requires c.Faithful() && AllOnlyCommit(c, s.hard, rs)
    ensures var r := HandleAll(c, start, s, rs);
            r == s.(hard := r.hard) && r.hard.term == s.hard.term && r.hard.vote == s.hard.vote
  {
    if rs != [] {
      OnlyCommitReplay(c, start, s, rs[..|rs| - 1]);
      assert OnlyCommit(c, s.hard, rs[|rs| - 1]);
    }
  }

  lemma {:induction false} EntriesKeepHard(c: Codec, start: WalSnap, s: Replay, es: seq<Entry>)
    ensures HandleAll(c, start, s, EntryRecords(c, es)).hard == s.hard
  {
    if es != [] {
      EntriesKeepHard(c, start, s, es[..|es| - 1]);
      HandleSnoc(c, start, s, EntryRecords(c, es[..|es| - 1]), c.EntryRecord(es[|es| - 1]));
    }
  }

  function HardOf(c: Codec, start: WalSnap, rs: seq<Record>): HardState {
    HandleAll(c, start, NOTHING, rs).hard
  }

  /** The hard state once everything has been written, the new save included. */
  lemma HardAfterSync(c: Codec, start: WalSnap, stored: seq<Record>, pending: seq<Record>, v: Save)
    requires c.Faithful() && AllOnlyCommit(c, HardOf(c, start, stored), pending)
    ensures var d, h := HardOf(c, start, stored), HardOf(c, start, stored + pending + RecordsOf(c, v));
            if v.hard.IsEmpty() then h.term == d.term && h.vote == d.vote else h == v.hard
  {
    var s := HandleAll(c, start, NOTHING, stored);
    HandleSum(c, start, NOTHING, stored, pending);
    OnlyCommitReplay(c, start, s, pending);
    var t := HandleAll(c, start, NOTHING, stored + pending);
    HandleSum(c, start, NOTHING, stored + pending, RecordsOf(c, v));
    EntriesKeepHard(c, start, t, v.ents);
    HandleSnoc(c, start, t, EntryRecords(c, v.ents), c.StateRecord(v.hard));
    assert EntryRecords(c, v.ents) + [] == EntryRecords(c, v.ents);
  }

  /** A save of nothing but a new commit index. */
  lemma CommitOnlySave(c: Codec, d: HardState, pending: seq<Record>, v: Save)
    requires AllOnlyCommit(c, d, pending)
    ensures v.ents == [] && !v.hard.IsEmpty() && v.hard.term == d.term && v.hard.vote == d.vote ==>
              AllOnlyCommit(c, d, pending + RecordsOf(c, v))
    ensures AllOnlyCommit(c, d, [])
  {
    if v.ents == [] && !v.hard.IsEmpty() && v.hard.term == d.term && v.hard.vote == d.vote {
      var all := pending + RecordsOf(c, v);
      assert all == pending + [c.StateRecord(v.hard)];
      assert OnlyCommit(c, d, c.StateRecord(v.hard));
      forall i | 0 <= i < |all| ensures OnlyCommit(c, d, all[i]) {
        if i < |pending| { assert OnlyCommit(c, d, pending[i]); }
      }
    }
  }

  // ---------------------------------------------------------------- the objects

  /** What has been read so far, and then the rest of the file. */
  ghost function Continued(crc: seq<Byte> -> Word, data: seq<Byte>, records: seq<Record>, offset: nat): Parsed
    requires offset <= |data|
  {
    var rest := ParseAt(crc, data, offset);
    Parsed(records + rest.records, offset + rest.size)
  }

  /** One look further. */
  lemma LookFurther(crc: seq<Byte> -> Word, data: seq<Byte>, records: seq<Record>, offset: nat, f: Front)
    requires offset <= |data| && f == FrontOf(crc, data[offset..])
    ensures var whole := Continued(crc, data, records, offset);
            && (f.Cut? ==> whole == Parsed(records, offset))
            && (f.Stop? ==> whole == Parsed(records, |data|))
            && (f.Read? ==> offset + f.size <= |data| && whole == Continued(crc, data, records + [f.record], offset + f.size))
  {
    if f.Read? {
      var after := ParseAt(crc, data, offset + f.size);
      assert records + ([f.record] + after.records) == (records + [f.record]) + after.records;
    }
  }

  lemma WholeFile(crc: seq<Byte> -> Word, data: seq<Byte>, records: seq<Record>)
    ensures Continued(crc, data, [], 0) == Parse(crc, data)
    ensures Continued(crc, data, records, |data|) == Parsed(records, |data|)
  {
    ParseAtIsParse(crc, data, 0);
    assert data[0..] == data;
  }

  lemma SumOfThree(a: seq<Record>, b: seq<Record>, c: seq<Record>)
    ensures a + b + c == a + (b + c) && (c == [] ==> a + b + c == a + b)
  {
  }

  class WalFile {
    const crc: seq<Byte> -> Word
    var file: seq<Byte>
    var buffer: seq<Byte>

    constructor (crc: seq<Byte> -> Word, file: seq<Byte>)
      ensures this.crc == crc && this.file == file && buffer == []
    {
      this.crc, this.file, buffer := crc, file, [];
    }

    method Append(typ: Byte, data: seq<Byte>)
      modifies this`buffer
      ensures buffer == old(buffer) + Encode(crc, Record(typ, data))
    {
      var header := [typ] + LenBytes(|data|) + CrcBytes(crc(data));
      buffer := buffer + header;
      buffer := buffer + data;
      assert old(buffer) + header + data == old(buffer) + (header + data);
    }

    method Sync()
      modifies this
      ensures file == old(file) + old(buffer) && buffer == []
    {
      if buffer != [] {
        file := file + buffer;
        buffer := [];
      }
    }

    method Truncate(offset: nat)
      requires offset <= |file|
      modifies this
      ensures file == old(file)[..offset] && buffer == []
    {
      file := file[..offset];
      buffer := [];
    }
  }

  class Wal {
    const codec: Codec
    const start: WalSnap
    const segmentSize: nat
    const file: WalFile
    var state: HardState
    var last: nat

    /** The records on disk, and those still in memory. */
    ghost var stored: seq<Record>
    ghost var pending: seq<Record>

    /** The hard state that a crash at this moment leaves. */
    ghost function Durable(): HardState
      reads this`stored
    {
      HardOf(codec, start, stored)
    }

    /** Both buffers hold whole records. */
    ghost predicate Valid()
      reads this, file
    {
      && codec.Faithful() && file.crc == codec.crc
      && file.file == EncodeAll(Encoder(codec.crc), stored) && file.buffer == EncodeAll(Encoder(codec.crc), pending)
    }

    /** What waits in memory are hard states with the term and the vote of the last one on disk. */
    ghost predicate Safe()
      reads this`state, this`stored, this`pending
    {
      && (state != HardState(0, 0, 0) ==> state.term == Durable().term && state.vote == Durable().vote)
      && AllOnlyCommit(codec, Durable(), pending)
    }

    /** Against what is on disk, the term does not go back and the vote of a term does not change. */
    ghost predicate InOrder(hard: HardState)
      reads this`stored
    {
      var d := Durable();
      hard.IsEmpty() || hard.term > d.term || (hard.term == d.term && (d.vote == 0 || hard.vote == d.vote))
    }

    constructor (codec: Codec, start: WalSnap, segmentSize: nat, ghost records: seq<Record>, bytes: seq<Byte>)
      requires codec.Faithful() && bytes == EncodeAll(Encoder(codec.crc), records)
      ensures Valid() && Safe() && stored == records && pending == [] && fresh(this) && fresh(file)
      ensures this.codec == codec && this.start == start
    {
      this.codec, this.start, this.segmentSize := codec, start, segmentSize;
      file := new WalFile(codec.crc, bytes);
      state, last, stored, pending := HardState(0, 0, 0), 0, records, [];
    }

    /** Adds one record to the buffer. */
    method Write(typ: Byte, data: seq<Byte>, ghost rs: seq<Record>)
      requires file.crc == codec.crc && file.buffer == EncodeAll(Encoder(codec.crc), rs)
      modifies file`buffer
      ensures file.buffer == EncodeAll(Encoder(codec.crc), rs + [Record(typ, data)])
    {
      file.Append(typ, data);
      assert (rs + [Record(typ, data)])[..|rs|] == rs;
    }

    method WriteEntries(ents: seq<Entry>, ghost rs: seq<Record>)
      requires file.crc == codec.crc && file.buffer == EncodeAll(Encoder(codec.crc), rs)
      modifies file`buffer, this`last
      ensures file.buffer == EncodeAll(Encoder(codec.crc), rs + EntryRecords(codec, ents))
    {
      var i := 0;
      assert rs + [] == rs;
      while i < |ents|
        invariant i <= |ents| && file.buffer == EncodeAll(Encoder(codec.crc), rs + EntryRecords(codec, ents[..i]))
      {
        Write(ENTRY_TYPE, codec.packEntry(ents[i]), rs + EntryRecords(codec, ents[..i]));
        assert ents[..i + 1][..i] == ents[..i];
        assert rs + EntryRecords(codec, ents[..i]) + [codec.EntryRecord(ents[i])]
            == rs + (EntryRecords(codec, ents[..i]) + [codec.EntryRecord(ents[i])]);
        last := ents[i].index;
        i := i + 1;
      }
      assert ents[..i] == ents;
    }

    /** Adds the records of one save to the buffer. */
    method Buffer(hard: HardState, ents: seq<Entry>)
      requires file.crc == codec.crc && file.buffer == EncodeAll(Encoder(codec.crc), pending)
      modifies file`buffer, this`last, this`state, this`pending
      ensures pending == old(pending) + RecordsOf(codec, Saved(hard, ents))
      ensures file.buffer == EncodeAll(Encoder(codec.crc), pending)
      ensures state == if hard.IsEmpty() then old(state) else hard
    {
      WriteEntries(ents, pending);
      ghost var all := pending + EntryRecords(codec, ents);
      if !hard.IsEmpty() {
        Write(STATE_TYPE, codec.packState(hard), all);
        all := all + [codec.StateRecord(hard)];
        state := hard;
      }
      assert all == pending + RecordsOf(codec, Saved(hard, ents));
      pending := all;
    }

    /** Brings the buffer to disk. */
    method Flush()
      requires file.crc == codec.crc
      requires file.file == EncodeAll(Encoder(codec.crc), stored) && file.buffer == EncodeAll(Encoder(codec.crc), pending)
      modifies file, this`stored, this`pending
      ensures stored == old(stored) + old(pending) && pending == []
      ensures file.file == EncodeAll(Encoder(codec.crc), stored) && file.buffer == EncodeAll(Encoder(codec.crc), pending)
    {
      EncodeAllOfSum(Encoder(codec.crc), stored, pending);
      file.Sync();
      stored := stored + pending;
      pending := [];
    }

    /** Writes entries and hard state, and syncs unless the commit index is all that is new. */
    method Save(hard: HardState, ents: seq<Entry>)
      requires Valid()
      modifies this, file
      ensures Valid() && state == if hard.IsEmpty() then old(state) else hard
      ensures old(Safe()) && old(InOrder(hard)) ==> Safe()
      ensures pending == [] || stored == old(stored)
      ensures stored + pending == old(stored) + old(pending) + RecordsOf(codec, Saved(hard, ents))
      ensures ents != [] || (!hard.IsEmpty() && (hard.term != old(state).term || hard.vote != old(state).vote)) ==> pending == []
    {
      ghost var news := RecordsOf(codec, Saved(hard, ents));
      SumOfThree(stored, pending, news);
      if hard.IsEmpty() && ents == [] {
        return;
      }
      var mustSync := ents != [] || hard.vote != state.vote || hard.term != state.term;
      if Safe() {
        HardAfterSync(codec, start, stored, pending, Saved(hard, ents));
        CommitOnlySave(codec, Durable(), pending, Saved(hard, ents));
      }
      Buffer(hard, ents);
      SumOfThree(stored, pending, []);
      if mustSync || |file.file| >= segmentSize { Flush(); }
    }

    /** A crash loses no entry, and of the hard state only a newer commit index. */
    lemma CrashLosesOnlyCommit()
      requires codec.Faithful() && Safe()
      ensures var full, left := HandleAll(codec, start, NOTHING, stored + pending), HandleAll(codec, start, NOTHING, stored);
              && left.ents == full.ents && left.found == full.found && left.fatal == full.fatal
              && left.hard.term == full.hard.term && left.hard.vote == full.hard.vote
    {
      HandleSum(codec, start, NOTHING, stored, pending);
      OnlyCommitReplay(codec, start, HandleAll(codec, start, NOTHING, stored), pending);
    }

    /** Walks over the file record by record, up to its end, a record of type 0, or one that is
        incomplete or damaged. */
    method Scan(data: seq<Byte>) returns (records: seq<Record>, size: nat)
      ensures Parsed(records, size) == Parse(codec.crc, data)
    {
      var offset := 0;
      records := [];
      WholeFile(codec.crc, data, records);
      while offset < |data|
        invariant offset <= |data| && Parse(codec.crc, data) == Continued(codec.crc, data, records, offset)
      {
        var f := Next(data, offset);
        LookFurther(codec.crc, data, records, offset, f);
        if f.Cut? { return records, offset; }
        if f.Stop? { return records, |data|; }
        records := records + [f.record];
        offset := offset + f.size;
      }
      size := offset;
      WholeFile(codec.crc, data, records);
    }

    /** Reads the file back, cuts off what is incomplete or damaged, and handles the records. */
    method ReadAll() returns (r: Replay, missing: bool)
      requires file.crc == codec.crc
      modifies file, this`last
      ensures var p := Parse(codec.crc, old(file.file));
              && r == HandleAll(codec, start, NOTHING, p.records) && missing == !r.found
              && file.file == old(file.file)[..p.size]
    {
      var records, size := Scan(file.file);
      file.Truncate(size);
      r := NOTHING;
      var i := 0;
      while i < |records|
        invariant i <= |records| && r == HandleAll(codec, start, NOTHING, records[..i])
        invariant file.file == old(file.file)[..size]
      {
        assert records[..i + 1][..i] == records[..i];
        r := Handle(codec, start, r, records[i]);
        last := r.last;
        i := i + 1;
      }
      assert records[..i] == records;
      missing := !r.found;
    }

    /** What stands at the offset: a record and its size, or the reason to stop. */
    method Next(data: seq<Byte>, offset: nat) returns (f: Front)
      requires offset <= |data|
      ensures f == FrontOf(codec.crc, data[offset..])
    {
      var left := |data| - offset;
      if left < HEADER_SIZE { return Cut; }
      if data[offset] == INVALID_TYPE { return Stop; }
      Within(data, offset, 1, 4);
      Within(data, offset, 4, 8);
      var len := LenOf(data[offset + 1..offset + 4]);
      if left - HEADER_SIZE < len { return Cut; }
      Within(data, offset, 8, 8 + len);
      var body := data[offset + 8..offset + 8 + len];
      var crc := CrcOf(data[offset + 4..offset + 8]);
      if crc != 0 && codec.crc(body) != crc { return Cut; }
      return Read(Record(data[offset], body), HEADER_SIZE + len);
    }
  }
}

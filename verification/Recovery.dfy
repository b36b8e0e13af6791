/** A restart of the cluster model is what the write-ahead log yields: a node whose steps have all
    been saved comes back, after a crash at any moment between them, with its term, its vote, its
    log, and a commit index not above the old one. */
module Recovery {
  import opened Types
  import opened LogModel
  import opened LogStores
  import opened RaftCore
  import opened Cluster
  import opened Safety
  import opened Monotone
  import opened WalFormat
  import opened WriteAheadLog

  const BEGINNING := WalSnap(0, 0)

  function HardOfNode(n: Node): HardState { HardState(n.term, n.vote, n.commit) }

  /** `v` is what the Ready loop saves for a node that has gone from `n` to `r`: the hard state if it is
      new, and the entries from the first one that is new or rewritten on. */
  ghost predicate Writes(n: Node, r: Node, v: Save) {
    && v.hard == (if HardOfNode(r) == HardOfNode(n) then HardState(0, 0, 0) else HardOfNode(r))
    && (if v.ents == [] then r.log == n.log
        else 0 < v.ents[0].index <= |n.log| + 1 && r.log == n.log[..v.ents[0].index - 1] + v.ents)
  }

  /** Every step of a run has something that can be saved for it. */
  lemma StepIsWritten(cfg: Config, r: Run, i: nat, a: Id) returns (v: Save)
    requires SoundRun(cfg, r) && i < |r.actions| && a in r.states[i].nodes
    requires !(r.actions[i].Crash? && r.actions[i].id == a)
    ensures a in r.states[i + 1].nodes && Forward(r.states[i].nodes[a], r.states[i + 1].nodes[a])
    ensures Consecutive(r.states[i + 1].nodes[a].log, 1) && Writes(r.states[i].nodes[a], r.states[i + 1].nodes[a], v)
  {
    RunKeeps(cfg, r, i, a);
    var n, n' := r.states[i].nodes[a], r.states[i + 1].nodes[a];
    LogMatching(cfg, r, i + 1, i + 1, a, a);
    v := Saved(if HardOfNode(n') == HardOfNode(n) then HardState(0, 0, 0) else HardOfNode(n'),
               if n'.log == n.log then [] else n'.log);
    assert n.log[..0] + n'.log == n'.log;
  }

  // ---------------------------------------------------------------- what the records hold

  /** Reading these records gives the node. */
  ghost predicate Holds(c: Codec, rs: seq<Record>, n: Node) {
    var r := HandleAll(c, BEGINNING, NOTHING, rs);
    r.found && !r.fatal && r.ents == AllSome(n.log) && r.hard == HardOfNode(n)
  }

  lemma SavedIsAppended(n: Node, r: Node, v: Save)
    requires Writes(n, r, v) && Consecutive(r.log, 1)
    ensures Fits(Log(0, 0, n.log), v.ents) && WriteAheadLog.Append(Log(0, 0, n.log), v.ents).ents == r.log
  {
    if v.ents != [] {
      var k := v.ents[0].index - 1;
      forall i | 0 <= i < |v.ents| ensures v.ents[i].index == v.ents[0].index + i {
        assert r.log[k + i] == v.ents[i];
      }
    }
  }

  lemma SaveHolds(c: Codec, rs: seq<Record>, n: Node, r: Node, v: Save)
    requires c.Faithful() && Holds(c, rs, n) && Writes(n, r, v) && Consecutive(r.log, 1) && Forward(n, r)
    ensures Holds(c, rs + RecordsOf(c, v), r)
  {
    SavedIsAppended(n, r, v);
    HandleSum(c, BEGINNING, NOTHING, rs, RecordsOf(c, v));
    SaveReplay(c, BEGINNING, HandleAll(c, BEGINNING, NOTHING, rs), Log(0, 0, n.log), v);
  }

  /** A file that has just been created holds a node that has done nothing. */
  lemma CreatedHolds(c: Codec, cfg: Config, id: Id)
    requires c.Faithful()
    ensures Holds(c, [c.SnapRecord(BEGINNING)], Boot(cfg, id, 0, 0, [], 0))
  {
    assert [c.SnapRecord(BEGINNING)][..0] == [];
  }

  // ---------------------------------------------------------------- the object

  /** The log on disk and in memory holds the node. */
  ghost predicate OnDisk(w: Wal, n: Node)
    reads w, w.file
  {
    && w.Valid() && w.Safe() && w.start == BEGINNING
    && Holds(w.codec, w.stored + w.pending, n) && w.Durable().commit <= n.commit
  }

  lemma DurableIs(w: Wal, n: Node)
    requires OnDisk(w, n)
    ensures w.Durable().term == n.term && w.Durable().vote == n.vote
  {
    w.CrashLosesOnlyCommit();
  }

  /** Saving a step keeps the log in line with the node. */
  method Persist(w: Wal, v: Save, ghost n: Node, ghost r: Node)
    requires OnDisk(w, n) && Writes(n, r, v) && Consecutive(r.log, 1) && Forward(n, r)
    modifies w, w.file
    ensures OnDisk(w, r)
  {
    DurableIs(w, n);
    ghost var rs := w.stored + w.pending;
    SaveHolds(w.codec, rs, n, r, v);
    w.Save(v.hard, v.ents);
    assert w.pending == [] ==> w.stored + w.pending == w.stored;
  }

  /** Reading has left no null entry. */
  predicate NoNulls(es: seq<Option<Entry>>) {
    forall i {:trigger es[i]} :: 0 <= i < |es| ==> es[i].Some?
  }

  function Values(es: seq<Option<Entry>>): seq<Entry>
    requires NoNulls(es)
  {
    seq(|es|, i requires 0 <= i < |es| => es[i].value)
  }

  /** The node that the constructor builds from what was read. */
  function Rebuilt(cfg: Config, id: Id, r: Replay): Node
    requires NoNulls(r.ents)
  {
    Boot(cfg, id, r.hard.term, r.hard.vote, Values(r.ents), r.hard.commit)
  }

  lemma ValuesOfAllSome(es: seq<Entry>)
    ensures NoNulls(AllSome(es)) && Values(AllSome(es)) == es
  {
  }

  /** A crash at any moment: what is on disk is read without an abort, and the node built from it is
      the restarted one of the cluster model. */
  lemma CrashIsRestart(w: Wal, cfg: Config, n: Node)
    requires OnDisk(w, n)
    ensures var left := HandleAll(w.codec, BEGINNING, NOTHING, w.stored);
            && left.found && !left.fatal && NoNulls(left.ents) && left.hard.commit <= n.commit
            && Rebuilt(cfg, n.id, left) == Restart(cfg, n, left.hard.commit)
  {
    w.CrashLosesOnlyCommit();
    ValuesOfAllSome(n.log);
  }

  /** So every crash of the program is one of the crashes that the theorems about runs cover. */
  lemma CrashIsAnAction(w: Wal, cfg: Config, s: State, a: Id)
    requires a in s.nodes && s.nodes[a].id == a && OnDisk(w, s.nodes[a])
    ensures var left := HandleAll(w.codec, BEGINNING, NOTHING, w.stored);
            && left.found && !left.fatal && NoNulls(left.ents)
            && Enabled(s, Crash(a, left.hard.commit))
            && Apply(cfg, s, Crash(a, left.hard.commit)).nodes[a] == Rebuilt(cfg, a, left)
  {
    CrashIsRestart(w, cfg, s.nodes[a]);
  }

  /** The same for a file that ends in the torn beginning of a record that was being written. */
  lemma TornCrashIsRestart(w: Wal, cfg: Config, n: Node, next: Record, k: nat)
    requires OnDisk(w, n) && AllStorable(w.stored) && Storable(next) && k < |Encode(w.codec.crc, next)|
    ensures var left := HandleAll(w.codec, BEGINNING, NOTHING,
                                  Parse(w.codec.crc, w.file.file + Encode(w.codec.crc, next)[..k]).records);
            && left.found && !left.fatal && NoNulls(left.ents) && left.hard.commit <= n.commit
            && Rebuilt(cfg, n.id, left) == Restart(cfg, n, left.hard.commit)
  {
    TornTailRecovery(w.codec.crc, w.stored, next, k);
    CrashIsRestart(w, cfg, n);
  }

  /** The log opened again after the crash is in line with the restarted node. */
  method Reopen(was: Wal, cfg: Config, ghost n: Node) returns (w: Wal, ghost r: Node)
    requires OnDisk(was, n)
    ensures OnDisk(w, r) && r == Restart(cfg, n, was.Durable().commit)
  {
    CrashIsRestart(was, cfg, n);
    w := new Wal(was.codec, was.start, was.segmentSize, was.stored, was.file.file);
    r := Restart(cfg, n, was.Durable().commit);
    assert w.stored + w.pending == was.stored;
  }
}

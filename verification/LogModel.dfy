/** The raft log as one value: a compacted prefix, remembered only by the index and
    term of its last entry, followed by the live entries.  `RaftLog` (a class over
    two stores) and the protocol both refine the functions of this module. */
module LogModel {
  import opened Types

  /** Entry i of `es` has index `first + i`. */
  predicate Consecutive(es: seq<Entry>, first: nat) {
    forall i :: 0 <= i < |es| ==> es[i].index == first + i
  }

  datatype Log = Log(base: nat, baseTerm: nat, ents: seq<Entry>) {
    predicate Valid() {
      Consecutive(ents, base + 1)
    }

    function FirstIndex(): nat { base + 1 }

    function LastIndex(): nat { base + |ents| }

    /** `RaftLog::term`: outside [base, last] the lookup succeeds with 0. */
    function Term(i: nat): nat {
      if i < base || i > LastIndex() then 0
      else if i == base then baseTerm
      else ents[i - base - 1].term
    }

    function LastTerm(): nat { Term(LastIndex()) }

    predicate MatchTerm(i: nat, t: nat) { Term(i) == t }

    /** `RaftLog::is_up_to_date`. */
    predicate IsUpToDate(lastIndex: nat, term: nat) {
      term > LastTerm() || (term == LastTerm() && lastIndex >= LastIndex())
    }

    /** `RaftLog::find_conflict`: the index of the first entry whose term differs here, else 0. */
    function FindConflict(es: seq<Entry>): nat {
      if es == [] then 0
      else if !MatchTerm(es[0].index, es[0].term) then es[0].index
      else FindConflict(es[1..])
    }

    /** Cut the log before the first new entry and concatenate. */
    function CutAppend(es: seq<Entry>): Log
      requires es != [] ==> base < es[0].index <= LastIndex() + 1
    {
      if es == [] then this
      else this.(ents := ents[..es[0].index - base - 1] + es)
    }

    /** The entries with index in [low, high). */
    function Range(low: nat, high: nat): seq<Entry>
      requires FirstIndex() <= low <= high <= LastIndex() + 1
    {
      ents[low - base - 1..high - base - 1]
    }
  }

  /** What a call on the log leaves behind.  `fatal` stands for a LOG_FATAL branch. */
  datatype Outcome = Outcome(log: Log, committed: nat, lastNew: nat, ok: bool, fatal: bool)

  /** `RaftLog::commit_to`. */
  function CommitTo(log: Log, committed: nat, to: nat): (nat, bool) {
    if committed < to then
      if log.LastIndex() < to then (committed, true) else (to, false)
    else (committed, false)
  }

  /** `RaftLog::maybe_append`; the entries follow `index` without a gap. */
  function MaybeAppend(log: Log, committed: nat, index: nat, logTerm: nat, leaderCommit: nat,
                       es: seq<Entry>): Outcome
    requires log.base <= committed
    requires Consecutive(es, index + 1)
  {
    if !log.MatchTerm(index, logTerm) then Outcome(log, committed, 0, false, false)
    else
      ConflictInRange(log, es, index + 1);
      var lastNew := index + |es|;
      var ci := log.FindConflict(es);
      if ci != 0 && (ci <= committed || ci > log.LastIndex() + 1) then
        Outcome(log, committed, lastNew, true, true)
      else
        var log1 := if ci == 0 then log else log.CutAppend(es[ci - index - 1..]);
        var c := CommitTo(log1, committed, Min(leaderCommit, lastNew));
        Outcome(log1, c.0, lastNew, true, c.1)
  }

  predicate EntryMatches(log: Log, es: seq<Entry>, k: nat)
    requires k < |es|
  {
    log.MatchTerm(es[k].index, es[k].term)
  }

  /** The first n entries match the log. */
  ghost predicate FrontMatches(log: Log, es: seq<Entry>, n: nat)
    requires n <= |es|
  {
    forall k {:trigger EntryMatches(log, es, k)} :: 0 <= k < n ==> EntryMatches(log, es, k)
  }

  /** `find_conflict` answers 0 or the index of one of the given entries, and every
      earlier entry matches the log. */
  lemma {:induction false} ConflictInRange(log: Log, es: seq<Entry>, first: nat)
    requires Consecutive(es, first)
    ensures var ci := log.FindConflict(es);
            if ci == 0 && first > 0 then FrontMatches(log, es, |es|)
            else first > 0 ==>
              && first <= ci < first + |es|
              && FrontMatches(log, es, ci - first) && !EntryMatches(log, es, ci - first)
  {
    if es != [] && log.MatchTerm(es[0].index, es[0].term) {
      var rest := es[1..];
      assert Consecutive(rest, first + 1);
      ConflictInRange(log, rest, first + 1);
      forall k | 1 <= k < |es| ensures EntryMatches(log, es, k) <==> EntryMatches(log, rest, k - 1) {
        assert es[k] == rest[k - 1];
      }
    }
  }

  /** Two entry sequences that start at index 1 match: an equal term at a position
      means an equal prefix up to and including it (the Log Matching property). */
  ghost predicate Matching(a: seq<Entry>, b: seq<Entry>) {
    forall i {:trigger MatchAt(a, b, i)} :: 0 <= i < |a| && i < |b| ==> MatchAt(a, b, i)
  }

  ghost predicate MatchAt(a: seq<Entry>, b: seq<Entry>, i: nat)
    requires i < |a| && i < |b|
  {
    a[i].term == b[i].term ==> a[..i + 1] == b[..i + 1]
  }

  function TermAt(s: seq<Entry>, i: nat): nat {
    Log(0, 0, s).Term(i)
  }

  ghost predicate PositiveAt(s: seq<Entry>, i: nat)
    requires i < |s|
  {
    s[i].term > 0
  }

  ghost predicate PositiveTerms(s: seq<Entry>) {
    forall i {:trigger PositiveAt(s, i)} :: 0 <= i < |s| ==> PositiveAt(s, i)
  }

  /** What a successful `maybe_append` leaves behind when the sender's log is `leader`. */
  ghost predicate Appended(r: Outcome, log: seq<Entry>, committed: nat, leaderCommit: nat, leader: seq<Entry>, lastNew: nat)
    requires lastNew <= |leader|
  {
    && r.ok && r.lastNew == lastNew <= |r.log.ents|
    && r.log.ents[..lastNew] == leader[..lastNew]
    && (r.log.ents == log || r.log.ents == leader[..lastNew])
    && (r.log.ents == log <==> lastNew <= |log| && log[..lastNew] == leader[..lastNew])
    && r.committed == Max(committed, Min(leaderCommit, lastNew))
  }

  /** The contract of `maybe_append` in the presence of the sender's log `leader`:
      when the entries are a segment of it and the two logs satisfy log matching, no
      fatal branch is taken; on success the log agrees with the sender's up to the last
      new index; a log that already holds the entries is not shortened; nothing at or
      below the committed index changes; and the commit index moves to
      max(old, min(leader commit, last new index)), within the log. */
  lemma {:induction false} MaybeAppendContract(
    log: seq<Entry>, committed: nat, index: nat, logTerm: nat, leaderCommit: nat,
    es: seq<Entry>, leader: seq<Entry>)
    requires committed <= |log| && committed <= |leader| && log[..committed] == leader[..committed]
    requires index + |es| <= |leader| && es == leader[index..index + |es|]
    requires logTerm == TermAt(leader, index)
    requires Consecutive(es, index + 1)
    requires PositiveTerms(leader) && Matching(log, leader)
    ensures var r := MaybeAppend(Log(0, 0, log), committed, index, logTerm, leaderCommit, es);
            && !r.fatal && r.log.base == 0 && r.log.baseTerm == 0
            && (r.ok <==> index <= |log| && TermAt(log, index) == logTerm)
            && (!r.ok ==> r.log.ents == log && r.committed == committed)
            && (r.ok ==> Appended(r, log, committed, leaderCommit, leader, index + |es|))
            && committed <= r.committed <= |r.log.ents|
            && r.log.ents[..committed] == log[..committed]
  {
    var l := Log(0, 0, log);
    if l.MatchTerm(index, logTerm) {
      MatchedPrefix(log, leader, index);
      MatchedOutcome(log, committed, index, logTerm, leaderCommit, es, leader);
    }
  }

  lemma MatchedOutcome(
    log: seq<Entry>, committed: nat, index: nat, logTerm: nat, leaderCommit: nat,
    es: seq<Entry>, leader: seq<Entry>)
    requires committed <= |log| && committed <= |leader| && log[..committed] == leader[..committed]
    requires index <= |log| && index + |es| <= |leader| && log[..index] == leader[..index]
    requires es == leader[index..index + |es|] && Consecutive(es, index + 1)
    requires PositiveTerms(leader) && Matching(log, leader)
    requires Log(0, 0, log).MatchTerm(index, logTerm)
    ensures var last := index + |es|;
            var held := last <= |log| && log[..last] == leader[..last];
            && (!held ==> committed <= last && leader[..last][..committed] == log[..committed] && log != leader[..last])
            && MaybeAppend(Log(0, 0, log), committed, index, logTerm, leaderCommit, es)
               == Outcome(Log(0, 0, if held then log else leader[..last]),
                          Max(committed, Min(leaderCommit, last)), last, true, false)
  {
    var l := Log(0, 0, log);
    ConflictInRange(l, es, index + 1);
    if l.FindConflict(es) == 0 {
      MatchedEntriesAgree(log, es, leader, index, |es|);
      NothingToCut(l, committed, index, logTerm, leaderCommit, es);
    } else {
      AppendAtConflict(log, committed, index, es, leader, l.FindConflict(es));
      CutThere(l, committed, index, logTerm, leaderCommit, es, Log(0, 0, leader[..index + |es|]));
    }
  }

  lemma NothingToCut(log: Log, committed: nat, index: nat, logTerm: nat, leaderCommit: nat, es: seq<Entry>)
    requires log.base <= committed && Consecutive(es, index + 1)
    requires log.MatchTerm(index, logTerm) && log.FindConflict(es) == 0 && index + |es| <= log.LastIndex()
    ensures MaybeAppend(log, committed, index, logTerm, leaderCommit, es)
         == Outcome(log, Max(committed, Min(leaderCommit, index + |es|)), index + |es|, true, false)
  {
  }

  lemma CutThere(log: Log, committed: nat, index: nat, logTerm: nat, leaderCommit: nat, es: seq<Entry>, cut: Log)
    requires log.base <= committed && Consecutive(es, index + 1) && log.MatchTerm(index, logTerm)
    requires var ci := log.FindConflict(es);
             && ci != 0 && committed < ci <= log.LastIndex() + 1 && index < ci <= index + |es|
             && cut == log.CutAppend(es[ci - index - 1..])
    requires cut.LastIndex() == index + |es|
    ensures MaybeAppend(log, committed, index, logTerm, leaderCommit, es)
         == Outcome(cut, Max(committed, Min(leaderCommit, index + |es|)), index + |es|, true, false)
  {
  }

  /** A matching previous entry means an equal prefix. */
  lemma MatchedPrefix(log: seq<Entry>, leader: seq<Entry>, index: nat)
    requires index <= |leader| && TermAt(log, index) == TermAt(leader, index)
    requires PositiveTerms(leader)
    requires Matching(log, leader)
    ensures index <= |log| && log[..index] == leader[..index]
  {
    if index > 0 {
      var i := index - 1;
      assert PositiveAt(leader, i);
      assert index <= |log|;
      assert MatchAt(log, leader, i);
    }
  }

  /** Cutting at the first conflict turns the log into the sender's, and the conflict
      lies above everything committed. */
  lemma AppendAtConflict(log: seq<Entry>, committed: nat, index: nat, es: seq<Entry>, leader: seq<Entry>, ci: nat)
    requires committed <= |log| && committed <= |leader| && log[..committed] == leader[..committed]
    requires index + |es| <= |leader| && es == leader[index..index + |es|]
    requires index <= |log| && index <= |leader| && log[..index] == leader[..index]
    requires Consecutive(es, index + 1)
    requires PositiveTerms(leader)
    requires Matching(log, leader)
    requires index + 1 <= ci < index + 1 + |es|
    requires FrontMatches(Log(0, 0, log), es, ci - index - 1) && !EntryMatches(Log(0, 0, log), es, ci - index - 1)
    ensures committed < ci <= |log| + 1
    ensures Log(0, 0, log).CutAppend(es[ci - index - 1..]) == Log(0, 0, leader[..index + |es|])
    ensures leader[..index + |es|] != log
    ensures index + |es| <= |log| ==> log[..index + |es|] != leader[..index + |es|]
    ensures leader[..index + |es|][..committed] == log[..committed]
  {
    var n := ci - index - 1;
    MatchedEntriesAgree(log, es, leader, index, n);
    assert es[n] == leader[ci - 1];
    assert ci <= |log| ==> log[ci - 1].term != leader[ci - 1].term;
    assert leader[..index + |es|] == leader[..ci - 1] + es[n..];
  }

  /** While the terms match, so do the entries. */
  lemma {:induction false} MatchedEntriesAgree(
    log: seq<Entry>, es: seq<Entry>, leader: seq<Entry>, index: nat, n: nat)
    requires n <= |es| && index + |es| <= |leader| && es == leader[index..index + |es|]
    requires index <= |log| && index <= |leader| && log[..index] == leader[..index]
    requires Consecutive(es, index + 1)
    requires PositiveTerms(leader)
    requires Matching(log, leader)
    requires FrontMatches(Log(0, 0, log), es, n)
    ensures index + n <= |log| && log[..index + n] == leader[..index + n]
  {
    if n > 0 {
      var k := n - 1;
      assert EntryMatches(Log(0, 0, log), es, k);
      assert es[k] == leader[index + k] && es[k].index == index + 1 + k;
      assert PositiveAt(leader, index + k);
      assert index + k < |log| && log[index + k].term == leader[index + k].term;
      assert MatchAt(log, leader, index + k);
    }
  }
}

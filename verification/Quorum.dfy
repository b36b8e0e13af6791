/** Majorities of the voter set. */
module Quorum {
  import opened Types

  /** `Raft::quorum`: the smallest number that is more than half of the voters. */
  function QuorumSize(voters: set<Id>): (q: nat)
    ensures 2 * q > |voters| && 2 * (q - 1) <= |voters|
  {
    |voters| / 2 + 1
  }

  /** More than half of the voters. */
  ghost predicate IsQuorum(voters: set<Id>, q: set<Id>) {
    q <= voters && 2 * |q| > |voters|
  }

  /** Counting up to the quorum size is asking for a majority, no more and no less. */
  lemma QuorumSizeIsMajority(voters: set<Id>, q: set<Id>)
    requires q <= voters
    ensures |q| >= QuorumSize(voters) <==> IsQuorum(voters, q)
    ensures voters != {} ==> 1 <= QuorumSize(voters) <= |voters|
  {
    assert voters != {} ==> |voters| >= 1;
  }

  lemma SubsetSize(a: set<Id>, b: set<Id>)
    requires a <= b
    ensures |a| <= |b|
  {
    assert b == a + (b - a);
  }

  /** Any two majorities share a voter. */
  lemma Intersect(voters: set<Id>, a: set<Id>, b: set<Id>) returns (x: Id)
    requires IsQuorum(voters, a) && IsQuorum(voters, b)
    ensures x in a && x in b
  {
    SubsetSize(a + b, voters);
    assert |a + b| == |a| + |b| - |a * b|;
    x :| x in a * b;
  }

  /** The voters whose recorded match index is at least `i`. */
  function Reached(matches: map<Id, nat>, i: nat): set<Id> {
    set v | v in matches && matches[v] >= i
  }

  /** More than half of the voters have reached the index. */
  ghost predicate MajorityReached(matches: map<Id, nat>, i: nat) {
    2 * |Reached(matches, i)| > |matches.Keys|
  }

  /** The largest index that a majority has reached. */
  ghost predicate IsQuorumIndex(matches: map<Id, nat>, i: nat) {
    MajorityReached(matches, i) && forall j: nat :: MajorityReached(matches, j) ==> j <= i
  }

  ghost function QuorumIndex(matches: map<Id, nat>): (i: nat)
    requires matches.Keys != {}
    ensures IsQuorumIndex(matches, i)
  {
    QuorumIndexExists(matches);
    var i :| IsQuorumIndex(matches, i);
    i
  }

  lemma QuorumIndexExists(matches: map<Id, nat>)
    requires matches.Keys != {}
    ensures exists i :: IsQuorumIndex(matches, i)
  {
    assert Reached(matches, 0) == matches.Keys;
    var hi := UpperBound(matches, matches.Keys);
    ScanDown(matches, hi);
  }

  lemma {:induction false} UpperBound(matches: map<Id, nat>, some: set<Id>) returns (hi: nat)
    requires some <= matches.Keys
    ensures forall v :: v in some ==> matches[v] <= hi
  {
    if some == {} {
      hi := 0;
    } else {
      var v :| v in some;
      hi := UpperBound(matches, some - {v});
      hi := Max(hi, matches[v]);
    }
  }

  lemma {:induction false} ScanDown(matches: map<Id, nat>, hi: nat)
    requires MajorityReached(matches, 0)
    requires forall j: nat :: j > hi ==> !MajorityReached(matches, j)
    ensures exists i :: IsQuorumIndex(matches, i)
  {
    if MajorityReached(matches, hi) {
      assert IsQuorumIndex(matches, hi);
    } else {
      ScanDown(matches, hi - 1);
    }
  }

  lemma QuorumIndexUnique(matches: map<Id, nat>, i: nat, j: nat)
    requires IsQuorumIndex(matches, i) && IsQuorumIndex(matches, j)
    ensures i == j
  {
  }

  lemma Missing(from: set<Id>, q: set<Id>) returns (x: Id)
    requires from < q
    ensures x in q && x !in from && |from| + 1 <= |q|
    ensures |from + {x}| == |from| + 1 && from + {x} <= q
  {
    assert q == from + (q - from);
    x :| x in q - from;
    SubsetSize(from + {x}, q);
  }

  lemma {:induction false} SubsetOfSize(s: set<Id>, k: nat) returns (q: set<Id>)
    requires k <= |s|
    ensures q <= s && |q| == k
  {
    if k == 0 {
      q := {};
    } else {
      var x :| x in s;
      q := SubsetOfSize(s - {x}, k - 1);
      q := q + {x};
    }
  }
}

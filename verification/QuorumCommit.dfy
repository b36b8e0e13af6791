/** The leader's commit rule: the element at position size - quorum of the sorted match indexes
    is the largest index that a majority has reached. */
module QuorumCommit {
  import opened Types
  import opened Quorum

  /** How many elements are at least j. */
  function CountGe(s: seq<nat>, j: nat): (c: nat)
    ensures c <= |s|
  {
    if s == [] then 0 else CountGe(s[..|s| - 1], j) + (if s[|s| - 1] >= j then 1 else 0)
  }

  ghost predicate Ascending(s: seq<nat>) {
    forall i, k :: 0 <= i <= k < |s| ==> s[i] <= s[k]
  }

  function Insert(x: nat, s: seq<nat>): (r: seq<nat>)
    requires Ascending(s)
    ensures Ascending(r) && multiset(r) == multiset(s) + multiset{x}
  {
    if s == [] || x >= s[|s| - 1] then
      s + [x]
    else
      var front := Insert(x, s[..|s| - 1]);
      assert s == s[..|s| - 1] + [s[|s| - 1]];
      InsertBelow(x, s, front);
      front + [s[|s| - 1]]
  }

  lemma InsertBelow(x: nat, s: seq<nat>, front: seq<nat>)
    requires Ascending(s) && s != [] && x < s[|s| - 1] && Ascending(front)
    requires multiset(front) == multiset(s[..|s| - 1]) + multiset{x}
    ensures Ascending(front + [s[|s| - 1]])
  {
    forall i | 0 <= i < |front| ensures front[i] <= s[|s| - 1] {
      assert front[i] in multiset(front);
      if front[i] != x {
        assert front[i] in multiset(s[..|s| - 1]);
        var k :| 0 <= k < |s| - 1 && s[k] == front[i];
      }
    }
  }

  /** The match buffer, sorted. */
  function Sort(s: seq<nat>): (r: seq<nat>)
    ensures Ascending(r) && multiset(r) == multiset(s) && |r| == |s|
  {
    if s == [] then []
    else
      assert s == s[..|s| - 1] + [s[|s| - 1]];
      var r := Insert(s[|s| - 1], Sort(s[..|s| - 1]));
      assert |multiset(r)| == |r| && |multiset(s)| == |s|;
      r
  }

  lemma {:induction false} CountOfSplit(a: seq<nat>, b: seq<nat>, j: nat)
    ensures CountGe(a + b, j) == CountGe(a, j) + CountGe(b, j)
  {
    if b == [] {
      assert a + b == a;
    } else {
      CountOfSplit(a, b[..|b| - 1], j);
      assert (a + b)[..|a + b| - 1] == a + b[..|b| - 1];
    }
  }

  /** Reordering does not change the count. */
  lemma {:induction false} CountOfPermutation(a: seq<nat>, b: seq<nat>, j: nat)
    requires multiset(a) == multiset(b)
    ensures CountGe(a, j) == CountGe(b, j)
    decreases |a|
  {
    if a == [] {
      assert |multiset(b)| == 0;
    } else {
      var x := a[|a| - 1];
      assert a == a[..|a| - 1] + [x];
      var front, back := TakeOut(b, x);
      assert multiset(a[..|a| - 1]) == multiset(a) - multiset{x};
      assert multiset(front + back) == multiset(b) - multiset{x};
      CountOfPermutation(a[..|a| - 1], front + back, j);
      CountOfSplit(front, back, j);
      CountOfSplit(front + [x], back, j);
      CountOfSplit(front, [x], j);
    }
  }

  lemma TakeOut(b: seq<nat>, x: nat) returns (front: seq<nat>, back: seq<nat>)
    requires x in multiset(b)
    ensures b == front + [x] + back
    ensures multiset(b) == multiset(front + back) + multiset{x}
  {
    var i :| 0 <= i < |b| && b[i] == x;
    front, back := b[..i], b[i + 1..];
    assert b == front + [x] + back;
  }

  ghost predicate AllAtLeast(s: seq<nat>, j: nat) {
    forall i :: 0 <= i < |s| ==> s[i] >= j
  }

  ghost predicate AllBelow(s: seq<nat>, j: nat) {
    forall i :: 0 <= i < |s| ==> s[i] < j
  }

  lemma {:induction false} CountAll(s: seq<nat>, j: nat)
    ensures AllAtLeast(s, j) ==> CountGe(s, j) == |s|
    ensures AllBelow(s, j) ==> CountGe(s, j) == 0
  {
    if s != [] { CountAll(s[..|s| - 1], j); }
  }

  lemma Parts(s: seq<nat>, p: nat, j: nat)
    requires Ascending(s) && p < |s|
    ensures j <= s[p] ==> AllAtLeast(s[p..], j)
    ensures j > s[p] ==> AllBelow(s[..p + 1], j)
  {
  }

  /** At least q elements of an ascending sequence reach its element at size - q, and fewer
      than q reach anything larger. */
  lemma CountAtRank(s: seq<nat>, q: nat, j: nat)
    requires Ascending(s) && 0 < q <= |s|
    ensures CountGe(s, j) >= q <==> j <= s[|s| - q]
  {
    var p := |s| - q;
    Parts(s, p, j);
    CountSplitAt(s, p, j);
    CountSplitAt(s, p + 1, j);
    CountAll(s[p..], j);
    CountAll(s[..p + 1], j);
  }

  lemma CountSplitAt(s: seq<nat>, p: nat, j: nat)
    requires p <= |s|
    ensures CountGe(s, j) == CountGe(s[..p], j) + CountGe(s[p..], j)
  {
    assert s == s[..p] + s[p..];
    CountOfSplit(s[..p], s[p..], j);
  }

  /** `buf` lists the match index of every voter in `done` once. */
  ghost predicate Lists(buf: seq<nat>, matches: map<Id, nat>, done: set<Id>) {
    && done <= matches.Keys && |buf| == |done|
    && forall j {:trigger CountGe(buf, j)} :: j >= 0 ==> CountGe(buf, j) == |Reached(matches, j) * done|
  }

  lemma ListsNone(matches: map<Id, nat>)
    ensures Lists([], matches, {})
  {
    forall j: nat ensures CountGe([], j) == |Reached(matches, j) * {}| {
      assert Reached(matches, j) * {} == {};
    }
  }

  lemma ListsOneMore(buf: seq<nat>, matches: map<Id, nat>, done: set<Id>, v: Id)
    requires Lists(buf, matches, done) && v in matches && v !in done
    ensures Lists(buf + [matches[v]], matches, done + {v})
  {
    forall j: nat ensures CountGe(buf + [matches[v]], j) == |Reached(matches, j) * (done + {v})| {
      assert (buf + [matches[v]])[..|buf|] == buf;
      assert CountGe(buf, j) == |Reached(matches, j) * done|;
      if matches[v] >= j {
        assert Reached(matches, j) * (done + {v}) == Reached(matches, j) * done + {v};
      } else {
        assert Reached(matches, j) * (done + {v}) == Reached(matches, j) * done;
      }
    }
  }

  lemma RankReached(buf: seq<nat>, matches: map<Id, nat>, j: nat)
    requires matches.Keys != {} && Lists(buf, matches, matches.Keys)
    ensures var q := QuorumSize(matches.Keys);
            q <= |buf| && (|Reached(matches, j)| >= q <==> j <= Sort(buf)[|buf| - q])
  {
    CountOfPermutation(Sort(buf), buf, j);
    assert CountGe(buf, j) == |Reached(matches, j) * matches.Keys|;
    assert Reached(matches, j) * matches.Keys == Reached(matches, j);
    CountAtRank(Sort(buf), QuorumSize(matches.Keys), j);
  }

  /** The element that `maybe_commit` picks is the quorum index. */
  lemma SortedRankIsQuorumIndex(buf: seq<nat>, matches: map<Id, nat>)
    requires matches.Keys != {} && Lists(buf, matches, matches.Keys)
    ensures QuorumSize(matches.Keys) <= |buf|
    ensures IsQuorumIndex(matches, Sort(buf)[|buf| - QuorumSize(matches.Keys)])
  {
    forall j: nat { RankReached(buf, matches, j); }
  }
}

/** Sizes of entries on the wire, and the size limit on batches of entries. */
module EntrySize {
  import opened Types

  function ByteSize(d: nat): nat { if d < 128 then 1 else 2 }

  function WordSize(d: nat): nat {
    if d < 0x80 then 1
    else if d < 0x100 then 2
    else if d < 0x1_0000 then 3
    else if d < 0x1_0000_0000 then 5
    else 9
  }

  function DataSize(len: nat): nat {
    if len <= 0xFF then 2 + len else if len <= 0xFFFF then 3 + len else 5 + len
  }

  /** `Entry::serialize_size`. */
  function Size(e: Entry): (n: nat)
    ensures n > 0
  {
    1 + ByteSize(if e.typ == EntryNormal then 0 else 1) + WordSize(e.term) + WordSize(e.index) + DataSize(|e.data|)
  }

  function TotalSize(es: seq<Entry>): nat {
    if es == [] then 0 else TotalSize(es[..|es| - 1]) + Size(es[|es| - 1])
  }

  /** How many entries `entry_limit_size` keeps: as many from the front as fit, but
      never fewer than one. */
  function Fit(maxSize: nat, es: seq<Entry>): (k: nat)
    ensures k <= |es| && (es != [] ==> k >= 1)
  {
    if |es| <= 1 || TotalSize(es) <= maxSize then |es| else Fit(maxSize, es[..|es| - 1])
  }

  function LimitSize(maxSize: nat, es: seq<Entry>): (r: seq<Entry>)
    ensures r <= es && (r == [] <==> es == [])
  {
    es[..Fit(maxSize, es)]
  }

  lemma {:induction false} SizeGrows(es: seq<Entry>, j: nat, k: nat)
    requires j <= k <= |es|
    ensures TotalSize(es[..j]) <= TotalSize(es[..k])
    ensures j < k ==> TotalSize(es[..j]) < TotalSize(es[..k])
  {
    if j < k {
      SizeGrows(es, j, k - 1);
      assert es[..k][..k - 1] == es[..k - 1];
    }
  }

  /** The result is the longest prefix that fits, or the first entry if none does. */
  lemma {:induction false} LongestFittingPrefix(maxSize: nat, es: seq<Entry>)
    requires es != []
    ensures var k := Fit(maxSize, es);
            && (k > 1 ==> TotalSize(es[..k]) <= maxSize)
            && forall j :: k < j <= |es| ==> TotalSize(es[..j]) > maxSize
  {
    assert es[..|es|] == es;
    if |es| > 1 && TotalSize(es) > maxSize {
      var shorter := es[..|es| - 1];
      LongestFittingPrefix(maxSize, shorter);
      var k := Fit(maxSize, shorter);
      assert forall j :: 0 <= j <= |shorter| ==> shorter[..j] == es[..j];
    }
  }

  /** A prefix length with those two properties is unique. */
  lemma FitIsUnique(maxSize: nat, es: seq<Entry>, k: nat)
    requires es != [] && 1 <= k <= |es|
    requires k > 1 ==> TotalSize(es[..k]) <= maxSize
    requires k < |es| ==> TotalSize(es[..k + 1]) > maxSize
    ensures k == Fit(maxSize, es)
  {
    LongestFittingPrefix(maxSize, es);
    var f := Fit(maxSize, es);
    if k < f {
      SizeGrows(es, k + 1, f);
    }
  }

  /** `entry_limit_size`: adds up sizes from the front and cuts where the limit is passed. */
  method EntryLimitSize(maxSize: nat, es: seq<Entry>) returns (r: seq<Entry>)
    ensures r == LimitSize(maxSize, es)
  {
    if es == [] { return es; }
    var size := Size(es[0]);
    var limit := 1;
    assert es[..1][..0] == [];
    while limit < |es|
      invariant 1 <= limit <= |es| && size == TotalSize(es[..limit])
      invariant limit > 1 ==> size <= maxSize
    {
      assert es[..limit + 1][..limit] == es[..limit];
      size := size + Size(es[limit]);
      if size > maxSize {
        FitIsUnique(maxSize, es, limit);
        return es[..limit];
      }
      limit := limit + 1;
    }
    FitIsUnique(maxSize, es, limit);
    return es;
  }

  /** Limiting the front part first and then the whole is limiting the whole, provided
      the front part was not shortened. */
  lemma LimitTwice(maxSize: nat, front: seq<Entry>, back: seq<Entry>)
    ensures Fit(maxSize, front) < |front| ==> LimitSize(maxSize, front + back) == LimitSize(maxSize, front)
  {
    if Fit(maxSize, front) < |front| {
      var k := Fit(maxSize, front);
      LongestFittingPrefix(maxSize, front);
      assert (front + back)[..k] == front[..k];
      assert (front + back)[..k + 1] == front[..k + 1];
      FitIsUnique(maxSize, front + back, k);
    }
  }
}

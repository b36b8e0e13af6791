/** Entries on the wire, as MessagePack writes them: an array of type, term, index and data, each in the
    shortest of its forms.  `Entry::serialize_size` computes the length without writing. */
module MsgPack {
  import opened Types
  import opened EntrySize

  // ---------------------------------------------------------------- numbers of a given width

  /** The low k bytes of n, the high one first. */
  function BigEndian(n: nat, k: nat): (b: seq<Byte>)
    ensures |b| == k
  {
    if k == 0 then [] else BigEndian(n / 0x100, k - 1) + [n % 0x100]
  }

  function Value(b: seq<Byte>): nat {
    if b == [] then 0 else Value(b[..|b| - 1]) * 0x100 + b[|b| - 1]
  }

  /** How many numbers k bytes can hold. */
  function Capacity(k: nat): (c: nat)
    ensures c > 0
  {
    if k == 0 then 1 else 0x100 * Capacity(k - 1)
  }

  lemma {:induction false} BigEndianRoundTrip(n: nat, k: nat)
    ensures Value(BigEndian(n, k)) == n <==> n < Capacity(k)
    ensures Value(BigEndian(n, k)) < Capacity(k)
  {
    if k > 0 {
      BigEndianRoundTrip(n / 0x100, k - 1);
      var b := BigEndian(n, k);
      assert b[..k - 1] == BigEndian(n / 0x100, k - 1);
      assert Value(b) == Value(BigEndian(n / 0x100, k - 1)) * 0x100 + n % 0x100;
    }
  }

  // ---------------------------------------------------------------- numbers and data

  const UINT8: Byte := 0xCC
  const UINT16: Byte := 0xCD
  const UINT32: Byte := 0xCE
  const UINT64: Byte := 0xCF
  const BIN8: Byte := 0xC4
  const BIN16: Byte := 0xC5
  const BIN32: Byte := 0xC6
  const ARRAY_OF_4: Byte := 0x94

  const NUMBERS: nat := 0x1_0000_0000_0000_0000
  const LENGTHS: nat := 0x1_0000_0000

  function PackNumber(n: nat): seq<Byte>
    requires n < NUMBERS
  {
    if n < 0x80 then [n]
    else if n < 0x100 then [UINT8] + BigEndian(n, 1)
    else if n < 0x1_0000 then [UINT16] + BigEndian(n, 2)
    else if n < 0x1_0000_0000 then [UINT32] + BigEndian(n, 4)
    else [UINT64] + BigEndian(n, 8)
  }

  function PackData(d: seq<Byte>): seq<Byte>
    requires |d| < LENGTHS
  {
    (if |d| < 0x100 then [BIN8] + BigEndian(|d|, 1)
     else if |d| < 0x1_0000 then [BIN16] + BigEndian(|d|, 2)
     else [BIN32] + BigEndian(|d|, 4)) + d
  }

  /** How many bytes of a number follow this one; `None` if none begins with it. */
  function NumberWidth(first: Byte): Option<nat> {
    if first < 0x80 then Some(0)
    else if first == UINT8 then Some(1)
    else if first == UINT16 then Some(2)
    else if first == UINT32 then Some(4)
    else if first == UINT64 then Some(8)
    else None
  }

  function LengthWidth(first: Byte): Option<nat> {
    if first == BIN8 then Some(1) else if first == BIN16 then Some(2) else if first == BIN32 then Some(4) else None
  }

  /** A number from the front, and what follows it. */
  function TakeNumber(b: seq<Byte>): Option<(nat, seq<Byte>)> {
    if b == [] || NumberWidth(b[0]).None? then None
    else
      var k := NumberWidth(b[0]).value;
      if |b| < 1 + k then None
      else Some((if k == 0 then b[0] else Value(b[1..1 + k]), b[1 + k..]))
  }

  function TakeData(b: seq<Byte>): Option<(seq<Byte>, seq<Byte>)> {
    if b == [] || LengthWidth(b[0]).None? then None
    else
      var k := LengthWidth(b[0]).value;
      if |b| < 1 + k then None
      else
        var n := Value(b[1..1 + k]);
        if |b| < 1 + k + n then None else Some((b[1 + k..1 + k + n], b[1 + k + n..]))
  }

  lemma Capacities()
    ensures Capacity(1) == 0x100 && Capacity(2) == 0x1_0000 && Capacity(4) == LENGTHS && Capacity(8) == NUMBERS
  {
    assert Capacity(3) == 0x100_0000 && Capacity(5) == 0x100_0000_0000;
    assert Capacity(6) == 0x1_0000_0000_0000 && Capacity(7) == 0x100_0000_0000_0000;
  }

  lemma Prefixed(first: Byte, n: nat, k: nat, more: seq<Byte>)
    requires n < Capacity(k)
    ensures var b := [first] + BigEndian(n, k) + more;
            b[0] == first && |b| == 1 + k + |more| && Value(b[1..1 + k]) == n && b[1 + k..] == more
  {
    BigEndianRoundTrip(n, k);
    var b := [first] + BigEndian(n, k) + more;
    assert b[1..1 + k] == BigEndian(n, k) && b[1 + k..] == more;
  }

  /** Which form a number takes. */
  lemma NumberForm(n: nat) returns (k: nat, first: Byte)
    requires n < NUMBERS
    ensures NumberWidth(first) == Some(k) && n < (if k == 0 then 0x80 else Capacity(k))
    ensures PackNumber(n) == (if k == 0 then [n] else [first] + BigEndian(n, k)) && (k == 0 ==> first == n)
    ensures |PackNumber(n)| == 1 + k
  {
    Capacities();
    k := if n < 0x80 then 0 else if n < 0x100 then 1 else if n < 0x1_0000 then 2 else if n < 0x1_0000_0000 then 4 else 8;
    first := PackNumber(n)[0];
  }

  lemma NumberRoundTrip(n: nat, more: seq<Byte>)
    requires n < NUMBERS
    ensures TakeNumber(PackNumber(n) + more) == Some((n, more))
  {
    var k, first := NumberForm(n);
    if k == 0 {
      assert ([n] + more)[1..] == more;
    } else {
      Prefixed(first, n, k, more);
    }
  }

  lemma DataRoundTrip(d: seq<Byte>, more: seq<Byte>)
    requires |d| < LENGTHS
    ensures TakeData(PackData(d) + more) == Some((d, more))
  {
    Capacities();
    var k := if |d| < 0x100 then 1 else if |d| < 0x1_0000 then 2 else 4;
    var first := PackData(d)[0];
    Prefixed(first, |d|, k, d + more);
    assert PackData(d) + more == [first] + BigEndian(|d|, k) + (d + more);
    var b := PackData(d) + more;
    assert b[1 + k..] == d + more;
    assert b[1 + k..1 + k + |d|] == b[1 + k..][..|d|] == d && b[1 + k + |d|..] == b[1 + k..][|d|..] == more;
  }

  // ---------------------------------------------------------------- entries

  function TypeNumber(t: EntryType): Byte { if t == EntryNormal then 0 else 1 }

  /** Term and index are 64-bit numbers, and the length of the data is a 32-bit one. */
  predicate Packable(e: Entry) {
    e.term < NUMBERS && e.index < NUMBERS && |e.data| < LENGTHS
  }

  function PackEntry(e: Entry): seq<Byte>
    requires Packable(e)
  {
    [ARRAY_OF_4] + (PackNumber(TypeNumber(e.typ)) + (PackNumber(e.term) + (PackNumber(e.index) + PackData(e.data))))
  }

  function TakeEntry(b: seq<Byte>): Option<(Entry, seq<Byte>)> {
    if b == [] || b[0] != ARRAY_OF_4 then None
    else
      var t := TakeNumber(b[1..]);
      if t.None? || t.value.0 > 1 then None
      else
        var term := TakeNumber(t.value.1);
        if term.None? then None
        else
          var index := TakeNumber(term.value.1);
          if index.None? then None
          else
            var data := TakeData(index.value.1);
            if data.None? then None
            else Some((Entry(term.value.0, index.value.0, if t.value.0 == 0 then EntryNormal else EntryConfChange, data.value.0), data.value.1))
  }

  /** A packed entry is read back as it was, whatever follows it. */
  lemma EntryRoundTrip(e: Entry, more: seq<Byte>)
    requires Packable(e)
    ensures TakeEntry(PackEntry(e) + more) == Some((e, more))
  {
    var data := PackData(e.data) + more;
    var index := PackNumber(e.index) + data;
    var term := PackNumber(e.term) + index;
    var typ := PackNumber(TypeNumber(e.typ)) + term;
    var b := PackEntry(e) + more;
    assert b[0] == ARRAY_OF_4 && b[1..] == typ by { assert b == [ARRAY_OF_4] + typ; }
    NumberRoundTrip(TypeNumber(e.typ), term);
    NumberRoundTrip(e.term, index);
    NumberRoundTrip(e.index, data);
    DataRoundTrip(e.data, more);
  }

  /** The size that limits a batch is the length of the packed entry, for every entry that can be packed. */
  lemma SizeIsPackedLength(e: Entry)
    requires Packable(e)
    ensures |PackEntry(e)| == Size(e)
    ensures forall d: Byte :: |PackNumber(d)| == ByteSize(d)
  {
  }

  function PackAll(es: seq<Entry>): seq<Byte>
    requires forall i :: 0 <= i < |es| ==> Packable(es[i])
  {
    if es == [] then [] else PackAll(es[..|es| - 1]) + PackEntry(es[|es| - 1])
  }

  /** So the batches that the limit lets through are those whose packed entries together are no longer. */
  lemma {:induction false} BatchSizeIsPackedLength(es: seq<Entry>)
    requires forall i :: 0 <= i < |es| ==> Packable(es[i])
    ensures |PackAll(es)| == TotalSize(es)
  {
    if es != [] {
      BatchSizeIsPackedLength(es[..|es| - 1]);
      SizeIsPackedLength(es[|es| - 1]);
    }
  }
}

/** The bytes of the write-ahead log: a header of eight bytes (type, three length bytes, four
    checksum bytes, the low byte first) and the data, record after record. */
module WalFormat {
  import opened Types

  type Word = n: int | 0 <= n < 0x1_0000_0000

  const MAX_RECORD_LEN: nat := 0x00FF_FFFF
  const HEADER_SIZE: nat := 8

  const INVALID_TYPE: Byte := 0
  const ENTRY_TYPE: Byte := 1
  const STATE_TYPE: Byte := 2
  const CRC_TYPE: Byte := 3
  const SNAPSHOT_TYPE: Byte := 4

  datatype Record = Record(typ: Byte, data: seq<Byte>)

  function Low(n: nat): Byte { n % 0x100 }

  /** `set_WAL_Record_len`: a longer length is clipped. */
  function LenBytes(len: nat): (b: seq<Byte>)
    ensures |b| == 3
  {
    var n := Min(len, MAX_RECORD_LEN);
    [Low(n), Low(n / 0x100), Low(n / 0x1_0000)]
  }

  /** `WAL_Record_len`. */
  function LenOf(b: seq<Byte>): nat
    requires |b| == 3
  {
    var b0: int, b1: int, b2: int := b[0], b[1], b[2];
    b2 * 0x1_0000 + b1 * 0x100 + b0
  }

  function CrcBytes(c: Word): (b: seq<Byte>)
    ensures |b| == 4
  {
    var c1: nat := c / 0x100;
    var c2: nat := c1 / 0x100;
    [Low(c), Low(c1), Low(c2), Low(c2 / 0x100)]
  }

  function CrcOf(b: seq<Byte>): nat
    requires |b| == 4
  {
    var b0: int, b1: int, b2: int, b3: int := b[0], b[1], b[2], b[3];
    b3 * 0x100_0000 + b2 * 0x1_0000 + b1 * 0x100 + b0
  }

  /** The stored length is the real one if and only if it fits three bytes. */
  lemma LengthRoundTrip(len: nat)
    ensures LenOf(LenBytes(len)) == Min(len, MAX_RECORD_LEN)
    ensures LenOf(LenBytes(len)) == len <==> len <= MAX_RECORD_LEN
  {
    var n := Min(len, MAX_RECORD_LEN);
    Digit(n);
    Digit(n / 0x100);
    assert n / 0x1_0000 == (n / 0x100) / 0x100 < 0x100;
  }

  lemma CrcRoundTrip(c: Word)
    ensures CrcOf(CrcBytes(c)) == c
  {
    var c1: nat := c / 0x100;
    var c2: nat := c1 / 0x100;
    Digit(c);
    Digit(c1);
    Digit(c2);
    assert c2 / 0x100 < 0x100;
  }

  lemma Digit(n: nat)
    ensures n == (n / 0x100) * 0x100 + Low(n)
    ensures n < 0x100 ==> Low(n) == n
  {
  }

  /** A header and data, whatever the checksum says. */
  function Frame(typ: Byte, sum: Word, data: seq<Byte>): (b: seq<Byte>)
    ensures |b| == HEADER_SIZE + |data|
  {
    [typ] + LenBytes(|data|) + CrcBytes(sum) + data
  }

  /** `WAL_File::append`. */
  function Encode(crc: seq<Byte> -> Word, r: Record): (b: seq<Byte>)
    ensures |b| == HEADER_SIZE + |r.data|
  {
    Frame(r.typ, crc(r.data), r.data)
  }

  /** In both fields the low byte comes first. */
  lemma LowByteFirst(b: Byte)
    ensures LenOf([b, 0, 0]) == b && LenOf([0, b, 0]) == 0x100 * b && LenOf([0, 0, b]) == 0x1_0000 * b
    ensures CrcOf([b, 0, 0, 0]) == b && CrcOf([0, b, 0, 0]) == 0x100 * b
    ensures CrcOf([0, 0, b, 0]) == 0x1_0000 * b && CrcOf([0, 0, 0, b]) == 0x100_0000 * b
  {
  }

  function Encoder(crc: seq<Byte> -> Word): Record -> seq<Byte> {
    (r: Record) => Encode(crc, r)
  }

  /** Record after record. */
  function EncodeAll(enc: Record -> seq<Byte>, rs: seq<Record>): seq<Byte> {
    if rs == [] then [] else EncodeAll(enc, rs[..|rs| - 1]) + enc(rs[|rs| - 1])
  }

  /** The records read, and the size of the file after reading. */
  datatype Parsed = Parsed(records: seq<Record>, size: nat)

  /** What stands at the front of a file: a record and its size, or the reason to stop. */
  datatype Front = Read(record: Record, size: nat) | Stop | Cut

  function FrontOf(crc: seq<Byte> -> Word, bytes: seq<Byte>): (f: Front)
    ensures f.Read? ==> HEADER_SIZE <= f.size <= |bytes|
  {
    if |bytes| < HEADER_SIZE then Cut
    else if bytes[0] == INVALID_TYPE then Stop
    else
      var n := LenOf(bytes[1..4]);
      if |bytes| - HEADER_SIZE < n then Cut
      else
        var data := bytes[8..8 + n];
        var stored := CrcOf(bytes[4..8]);
        if stored != 0 && crc(data) != stored then Cut
        else Read(Record(bytes[0], data), HEADER_SIZE + n)
  }

  /** What `read_all` makes of a file.  An incomplete or damaged record is cut off with all that
      follows; at a record of type 0 reading stops and nothing is cut. */
  function Parse(crc: seq<Byte> -> Word, bytes: seq<Byte>): (p: Parsed)
    ensures p.size <= |bytes|
  {
    match FrontOf(crc, bytes)
    case Cut => Parsed([], 0)
    case Stop => Parsed([], |bytes|)
    case Read(r, n) =>
      var rest := Parse(crc, bytes[n..]);
      Parsed([r] + rest.records, n + rest.size)
  }

  /** The same from a position of the file on. */
  function ParseAt(crc: seq<Byte> -> Word, bytes: seq<Byte>, i: nat): (p: Parsed)
    requires i <= |bytes|
    ensures p.size <= |bytes| - i
    decreases |bytes| - i
  {
    match FrontOf(crc, bytes[i..])
    case Cut => Parsed([], 0)
    case Stop => Parsed([], |bytes| - i)
    case Read(r, n) =>
      var rest := ParseAt(crc, bytes, i + n);
      Parsed([r] + rest.records, n + rest.size)
  }

  lemma {:induction false} ParseAtIsParse(crc: seq<Byte> -> Word, bytes: seq<Byte>, i: nat)
    requires i <= |bytes|
    ensures ParseAt(crc, bytes, i) == Parse(crc, bytes[i..])
    decreases |bytes| - i
  {
    var f := FrontOf(crc, bytes[i..]);
    if f.Read? {
      Within(bytes, i, f.size, f.size);
      ParseAtIsParse(crc, bytes, i + f.size);
    }
  }

  lemma Within(bytes: seq<Byte>, i: nat, from: nat, to: nat)
    requires from <= to <= |bytes| - i
    ensures bytes[i..][from..to] == bytes[i + from..i + to] && bytes[i..][to..] == bytes[i + to..]
  {
  }

  predicate Storable(r: Record) {
    r.typ != INVALID_TYPE && |r.data| <= MAX_RECORD_LEN
  }

  ghost predicate AllStorable(rs: seq<Record>) {
    forall i :: 0 <= i < |rs| ==> Storable(rs[i])
  }

  /** The fields of a frame, wherever it stands at the front of a file. */
  lemma FrameFields(typ: Byte, sum: Word, data: seq<Byte>, rest: seq<Byte>)
    ensures var b := Frame(typ, sum, data) + rest;
            && |b| == HEADER_SIZE + |data| + |rest|
            && b[0] == typ && b[1..4] == LenBytes(|data|) && b[4..8] == CrcBytes(sum)
            && b[8..8 + |data|] == data && b[8 + |data|..] == rest
  {
    var l, c := LenBytes(|data|), CrcBytes(sum);
    var b := Frame(typ, sum, data) + rest;
    assert b == [typ] + (l + (c + (data + rest)));
    assert b[1..] == l + (c + (data + rest));
    assert b[4..] == c + (data + rest);
    assert b[8..] == data + rest;
    assert b[1..4] == b[1..][..3] && b[4..8] == b[4..][..4];
    assert b[8..8 + |data|] == b[8..][..|data|] && b[8 + |data|..] == b[8..][|data|..];
  }

  /** The fields of an encoded record. */
  lemma Fields(crc: seq<Byte> -> Word, r: Record, rest: seq<Byte>)
    ensures var b := Encode(crc, r) + rest;
            && |b| == HEADER_SIZE + |r.data| + |rest|
            && b[0] == r.typ && b[1..4] == LenBytes(|r.data|) && b[4..8] == CrcBytes(crc(r.data))
            && b[8..8 + |r.data|] == r.data && b[8 + |r.data|..] == rest
  {
    FrameFields(r.typ, crc(r.data), r.data, rest);
  }

  /** The checksum stored with the data is theirs, or 0, which counts as none. */
  predicate SumFits(crc: seq<Byte> -> Word, sum: Word, data: seq<Byte>) {
    sum == 0 || sum == crc(data)
  }

  /** What is read at a frame: a record, and what follows it, exactly if the type is valid and the
      checksum fits.  At type 0 reading stops and the rest of the file stays; at a checksum that does
      not fit it stops and the file is cut there, whatever follows. */
  lemma FrameRead(crc: seq<Byte> -> Word, typ: Byte, sum: Word, data: seq<Byte>, rest: seq<Byte>)
    requires |data| <= MAX_RECORD_LEN
    ensures var file := Frame(typ, sum, data) + rest;
            var p, q := Parse(crc, file), Parse(crc, rest);
            && (typ == INVALID_TYPE ==> p == Parsed([], |file|))
            && (typ != INVALID_TYPE && SumFits(crc, sum, data) ==>
                  p == Parsed([Record(typ, data)] + q.records, HEADER_SIZE + |data| + q.size))
            && (typ != INVALID_TYPE && !SumFits(crc, sum, data) ==> p == Parsed([], 0))
  {
    FrameFields(typ, sum, data, rest);
    LengthRoundTrip(|data|);
    CrcRoundTrip(sum);
  }

  /** A header that announces more data than the file holds is cut off. */
  lemma ShortRead(crc: seq<Byte> -> Word, file: seq<Byte>)
    requires |file| < HEADER_SIZE || (file[0] != INVALID_TYPE && |file| < HEADER_SIZE + LenOf(file[1..4]))
    ensures Parse(crc, file) == Parsed([], 0)
  {
  }

  /** These are all cases: a file that is not short begins with a frame. */
  lemma FrameOrShort(file: seq<Byte>) returns (sum: Word, data: seq<Byte>, rest: seq<Byte>)
    requires |file| >= HEADER_SIZE && |file| >= HEADER_SIZE + LenOf(file[1..4])
    ensures |data| == LenOf(file[1..4]) <= MAX_RECORD_LEN && file == Frame(file[0], sum, data) + rest
  {
    var n := LenOf(file[1..4]);
    var c := file[4..8];
    sum, data, rest := CrcOf(c), file[8..8 + n], file[8 + n..];
    BytesOfLen(file[1..4]);
    BytesOfCrc(c);
    assert file == [file[0]] + file[1..4] + file[4..8] + file[8..8 + n] + file[8 + n..];
  }

  /** Every three bytes are a length, and every four a checksum. */
  lemma BytesOfLen(b: seq<Byte>)
    requires |b| == 3
    ensures LenOf(b) <= MAX_RECORD_LEN && LenBytes(LenOf(b)) == b
  {
    var b0: int, b1: int, b2: int := b[0], b[1], b[2];
    var n := LenOf(b);
    assert n == (b2 * 0x100 + b1) * 0x100 + b0;
    LowOf(b2 * 0x100 + b1, b0);
    LowOf(b2, b1);
    assert n / 0x1_0000 == (n / 0x100) / 0x100 == b2;
  }

  lemma BytesOfCrc(b: seq<Byte>)
    requires |b| == 4
    ensures CrcOf(b) < 0x1_0000_0000 && CrcBytes(CrcOf(b)) == b
  {
    var b0: int, b1: int, b2: int, b3: int := b[0], b[1], b[2], b[3];
    assert CrcOf(b) == ((b3 * 0x100 + b2) * 0x100 + b1) * 0x100 + b0;
    LowOf((b3 * 0x100 + b2) * 0x100 + b1, b0);
    LowOf(b3 * 0x100 + b2, b1);
    LowOf(b3, b2);
  }

  lemma LowOf(high: nat, low: Byte)
    ensures (high * 0x100 + low) / 0x100 == high && Low(high * 0x100 + low) == low
  {
  }

  /** Bit rot: behind intact records, a frame whose stored checksum is not 0 and not that of its data ends
      the log.  Exactly the records before it are read, and the file is cut there, whatever follows. */
  lemma DamagedRecordEndsTheLog(crc: seq<Byte> -> Word, rs: seq<Record>, typ: Byte, sum: Word, data: seq<Byte>, rest: seq<Byte>)
    requires AllStorable(rs) && typ != INVALID_TYPE && |data| <= MAX_RECORD_LEN
    requires sum != 0 && sum != crc(data)
    ensures var intact := EncodeAll(Encoder(crc), rs);
            Parse(crc, intact + (Frame(typ, sum, data) + rest)) == Parsed(rs, |intact|)
  {
    FrameRead(crc, typ, sum, data, rest);
    EncoderReadsBack(crc);
    ParseAppended(crc, Encoder(crc), rs, Frame(typ, sum, data) + rest);
  }

  /** A record of type 0 behind intact records ends the log as well, but nothing is cut. */
  lemma TypeZeroEndsTheLog(crc: seq<Byte> -> Word, rs: seq<Record>, header: seq<Byte>)
    requires AllStorable(rs) && |header| >= HEADER_SIZE && header[0] == INVALID_TYPE
    ensures var intact := EncodeAll(Encoder(crc), rs);
            Parse(crc, intact + header) == Parsed(rs, |intact + header|)
  {
    EncoderReadsBack(crc);
    ParseAppended(crc, Encoder(crc), rs, header);
  }

  /** One storable record is read back, and reading goes on behind it. */
  lemma ParseOne(crc: seq<Byte> -> Word, r: Record, rest: seq<Byte>)
    requires Storable(r)
    ensures var p, q := Parse(crc, Encode(crc, r) + rest), Parse(crc, rest);
            p == Parsed([r] + q.records, |Encode(crc, r)| + q.size)
  {
    FrameRead(crc, r.typ, crc(r.data), r.data, rest);
  }

  /** A record is read back as it was written if and only if its type is valid and its data fit
      the length field: a longer record comes back shortened, if it comes back at all. */
  lemma RecordRoundTrip(crc: seq<Byte> -> Word, r: Record, rest: seq<Byte>)
    ensures var rs := Parse(crc, Encode(crc, r) + rest).records;
            rs != [] && rs[0] == r <==> Storable(r)
  {
    if Storable(r) {
      ParseOne(crc, r, rest);
    } else {
      Fields(crc, r, rest);
      LengthRoundTrip(|r.data|);
      if r.typ != INVALID_TYPE {
        var b := Encode(crc, r) + rest;
        assert |b[8..8 + MAX_RECORD_LEN]| == MAX_RECORD_LEN < |r.data|;
      }
    }
  }

  /** Whatever `enc` writes for a record is read back, and reading goes on behind it. */
  ghost predicate ReadsBack(crc: seq<Byte> -> Word, enc: Record -> seq<Byte>) {
    forall r, rest {:trigger Parse(crc, enc(r) + rest)} :: Storable(r) ==>
      Parse(crc, enc(r) + rest) == Parsed([r] + Parse(crc, rest).records, |enc(r)| + Parse(crc, rest).size)
  }

  lemma EncoderReadsBack(crc: seq<Byte> -> Word)
    ensures ReadsBack(crc, Encoder(crc))
  {
    var enc := Encoder(crc);
    forall r, rest: seq<Byte> | Storable(r)
      ensures Parse(crc, enc(r) + rest) == Parsed([r] + Parse(crc, rest).records, |enc(r)| + Parse(crc, rest).size)
    {
      ParseOne(crc, r, rest);
    }
  }

  lemma Snoc(front: seq<Record>, r: Record, more: seq<Record>)
    ensures front + ([r] + more) == (front + [r]) + more
  {
  }

  /** Whatever follows a list of records is read as if it stood alone. */
  lemma {:induction false} ParseAppended(crc: seq<Byte> -> Word, enc: Record -> seq<Byte>, rs: seq<Record>, rest: seq<Byte>)
    requires ReadsBack(crc, enc) && AllStorable(rs)
    ensures var p, q := Parse(crc, EncodeAll(enc, rs) + rest), Parse(crc, rest);
            p == Parsed(rs + q.records, |EncodeAll(enc, rs)| + q.size)
  {
    if rs == [] {
      assert EncodeAll(enc, rs) + rest == rest;
    } else {
      var front, r := rs[..|rs| - 1], rs[|rs| - 1];
      var all := EncodeAll(enc, front);
      assert (all + enc(r)) + rest == all + (enc(r) + rest);
      ParseAppended(crc, enc, front, enc(r) + rest);
      Snoc(front, r, Parse(crc, rest).records);
      assert rs == front + [r];
    }
  }

  /** A strict prefix of a record is no record, and is cut off. */
  lemma TornRecord(crc: seq<Byte> -> Word, r: Record, n: nat)
    requires Storable(r) && n < |Encode(crc, r)|
    ensures Parse(crc, Encode(crc, r)[..n]) == Parsed([], 0)
  {
    var b := Encode(crc, r);
    if n >= HEADER_SIZE {
      Fields(crc, r, []);
      assert b + [] == b;
      assert b[..n][0] == r.typ && b[..n][1..4] == b[1..4];
      LengthRoundTrip(|r.data|);
    }
  }

  /** Torn-tail recovery: from any list of records followed by any strict prefix of one more,
      exactly the list is read, and the file is cut to it. */
  lemma TornTailRecovery(crc: seq<Byte> -> Word, rs: seq<Record>, next: Record, n: nat)
    requires AllStorable(rs) && Storable(next) && n < |Encode(crc, next)|
    ensures var whole := EncodeAll(Encoder(crc), rs);
            var torn := whole + Encode(crc, next)[..n];
            Parse(crc, torn) == Parsed(rs, |whole|) && torn[..|whole|] == whole
  {
    TornRecord(crc, next, n);
    EncoderReadsBack(crc);
    ParseAppended(crc, Encoder(crc), rs, Encode(crc, next)[..n]);
  }

  lemma {:induction false} EncodeAllOfSum(enc: Record -> seq<Byte>, a: seq<Record>, b: seq<Record>)
    ensures EncodeAll(enc, a + b) == EncodeAll(enc, a) + EncodeAll(enc, b)
  {
    if b == [] {
      assert a + b == a;
    } else {
      EncodeAllOfSum(enc, a, b[..|b| - 1]);
      assert (a + b)[..|a + b| - 1] == a + b[..|b| - 1];
    }
  }

  /** Appending records to a recovered file and reading it again yields the old records, then the
      new ones. */
  lemma AppendThenReread(crc: seq<Byte> -> Word, before: seq<Record>, more: seq<Record>)
    requires AllStorable(before) && AllStorable(more)
    ensures var bytes := EncodeAll(Encoder(crc), before) + EncodeAll(Encoder(crc), more);
            Parse(crc, bytes) == Parsed(before + more, |bytes|)
  {
    var enc := Encoder(crc);
    EncoderReadsBack(crc);
    EncodeAllOfSum(enc, before, more);
    ParseAppended(crc, enc, before + more, []);
    assert EncodeAll(enc, before + more) + [] == EncodeAll(enc, before + more);
  }
}

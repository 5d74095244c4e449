/** Reading the log file: a file cursor whose reads may fall short, and the record reader on it. */
module WalFile {
  import opened Bytes
  import opened Crc32
  import opened Logs
  import opened WalRecord

  class File {
    var data: Bytes
    var pos: nat

    ghost predicate Valid()
      reads this
    {
      pos <= |data|
    }

    ghost function Rest(): Bytes
      requires Valid()
      reads this
    {
      data[pos..]
    }

    constructor (contents: Bytes)
      ensures Valid() && data == contents && pos == 0
    {
      data, pos := contents, 0;
    }

    /** One system call: at the end of the file nothing, otherwise at least one byte. */
    method Read(len: nat) returns (buf: Bytes)
      requires Valid()
      modifies `pos
      ensures Valid() && pos == old(pos) + |buf| && |buf| <= len && buf == data[old(pos)..pos]
      ensures buf == [] ==> len == 0 || old(pos) == |data|
    {
      var most := if len < |data| - pos then len else |data| - pos;
      var n: nat :| n <= most && (most > 0 ==> n > 0);
      buf := data[pos..pos + n];
      pos := pos + n;
    }

    /** Read until `len` bytes have come or the file has ended, however short each read is. */
    method ReadSome(len: nat) returns (buf: Bytes)
      requires Valid()
      modifies `pos
      ensures Valid() && pos == old(pos) + |buf|
      ensures buf == if |old(Rest())| < len then old(Rest()) else old(Rest())[..len]
    {
      buf := [];
      while |buf| < len
        invariant Valid() && pos == old(pos) + |buf| && |buf| <= len && buf == data[old(pos)..pos]
        decreases len - |buf|
      {
        var more := Read(len - |buf|);
        if more == [] { break; }
        assert data[old(pos)..pos] == buf + more;
        buf := buf + more;
      }
    }
  }

  /** Read one record at the cursor. */
  method ReadNextRecord(file: File) returns (reading: Reading)
    requires file.Valid()
    modifies file`pos
    ensures file.Valid() && reading == ReadNext(old(file.Rest()))
    ensures reading.Got? ==> file.pos == old(file.pos) + reading.size
  {
    hide ReadValue, FromBE;
    ghost var s := file.Rest();
    var header := file.ReadSome(HEADER);
    if |header| < HEADER { return End; }
    SameFields(s, header);
    var keyLen := ReadBE(header[21..25]);
    if keyLen > MAX_FIELD { return Corrupt(KeyLength); }
    var key := file.ReadSome(keyLen);
    if |key| < keyLen { return End; }
    assert file.Rest() == s[HEADER + |key|..];
    var lenBuf := file.ReadSome(4);
    if |lenBuf| < 4 { return End; }
    assert key == s[25..25 + keyLen] && lenBuf == s[25 + keyLen..29 + keyLen];
    reading := ReadValueOf(file, s, header, key, lenBuf);
  }

  /** The rest of the record, whose front part `header + key + lenBuf` has been read. */
  method ReadValueOf(file: File, ghost s: Bytes, header: Bytes, key: Bytes, lenBuf: Bytes) returns (reading: Reading)
    requires |header| == HEADER && header <= s && |lenBuf| == 4 && |s| >= 29 + |key|
    requires key == s[25..25 + |key|] && lenBuf == s[25 + |key|..29 + |key|]
    requires file.Valid() && file.Rest() == s[29 + |key|..]
    modifies file`pos
    ensures file.Valid() && reading == ReadValue(s, |key|)
    ensures reading.Got? ==> file.pos + 29 + |key| == old(file.pos) + reading.size
  {
    hide Judge, FromBE;
    var valueLen := ReadBE(lenBuf);
    if valueLen > MAX_FIELD { return Corrupt(ValueLength); }
    var value := file.ReadSome(valueLen);
    if |value| < valueLen { return End; }
    assert value == s[29 + |key|..29 + |key| + valueLen];
    reading := Accept(s, header, key, lenBuf, value);
  }

  /** The checks on a complete record `header + key + lenBuf + value` at the front of `s`. */
  method Accept(ghost s: Bytes, header: Bytes, key: Bytes, lenBuf: Bytes, value: Bytes) returns (reading: Reading)
    requires |header| == HEADER && header <= s && |lenBuf| == 4 && |s| >= 29 + |key| + |value|
    requires var k := |key|;
      key == s[25..25 + k] && lenBuf == s[25 + k..29 + k] && value == s[29 + k..29 + k + |value|]
    ensures reading == Judge(s, |key|, |value|)
    ensures reading.Got? ==> reading.size == 29 + |key| + |value|
  {
    hide Crc, FromBE;
    SameFields(s, header);
    var crc := ReadBE(header[..4]);
    var term := ReadBE(header[4..12]);
    var index := ReadBE(header[12..20]);
    var op := header[20];
    var body := header[4..] + key + lenBuf + value;
    assert body == s[4..29 + |key| + |value|];
    var computed := Compute(body);
    if computed != crc { return Corrupt(Checksum); }
    if op != 1 && op != 2 { return Corrupt(UnknownOp); }
    if key == [] { return Corrupt(EmptyKey); }
    if op == 1 && value == [] { return Corrupt(EmptyValue); }
    return Got(Record(term, index, if op == 1 then Set else Delete, key, value), 29 + |key| + |value|);
  }

  lemma SameFields(s: Bytes, header: Bytes)
    requires |header| == HEADER && header <= s
    ensures header[..4] == s[..4] && header[4..12] == s[4..12] && header[12..20] == s[12..20]
    ensures header[20] == s[20] && header[21..25] == s[21..25] && header[4..] == s[4..25]
  {
  }
}

/** The on-disk record of the write-ahead log: the encoder, the reader that must tell a torn tail
    from corruption, and how the two fit together. */
module WalRecord {
  import opened Bytes
  import opened Crc32
  import opened CrcBursts
  import opened CrcLinear
  import opened Logs

  datatype Record = Record(term: nat, index: nat, op: Op, key: Bytes, value: Bytes)

  const HEADER := 25
  const MAX_FIELD := 64 * 1024 * 1024

  function OpCode(op: Op): Byte {
    match op
    case Set => 1
    case Delete => 2
  }

  function Body(r: Record): Bytes {
    BE(r.term, 8) + BE(r.index, 8) + [OpCode(r.op)] + BE(|r.key|, 4) + r.key + BE(|r.value|, 4) + r.value
  }

  function Encode(r: Record): Bytes {
    BE(Crc(Body(r)), 4) + Body(r)
  }

  /** The records a reader accepts. */
  predicate Valid(r: Record) {
    && r.term < U64 && r.index < U64
    && 0 < |r.key| <= MAX_FIELD && |r.value| <= MAX_FIELD
    && (r.op == Set ==> r.value != [])
  }

  datatype Reason = KeyLength | ValueLength | Checksum | UnknownOp | EmptyKey | EmptyValue

  /** What the reader finds at the front of the remaining bytes. */
  datatype Reading = Got(record: Record, size: nat) | End | Corrupt(why: Reason)

  function ReadNext(s: Bytes): Reading {
    if |s| < HEADER then End
    else
      var keyLen := FromBE(s[21..25]);
      if keyLen > MAX_FIELD then Corrupt(KeyLength)
      else if |s| < 29 + keyLen then End
      else ReadValue(s, keyLen)
  }

  function ReadValue(s: Bytes, keyLen: nat): Reading
    requires |s| >= 29 + keyLen
  {
    var valueLen := FromBE(s[25 + keyLen..29 + keyLen]);
    if valueLen > MAX_FIELD then Corrupt(ValueLength)
    else if |s| < 29 + keyLen + valueLen then End
    else Judge(s, keyLen, valueLen)
  }

  /** The checks on a complete record. */
  function Judge(s: Bytes, keyLen: nat, valueLen: nat): Reading
    requires |s| >= 29 + keyLen + valueLen
  {
    var size := 29 + keyLen + valueLen;
    if Crc(s[4..size]) != FromBE(s[..4]) then Corrupt(Checksum)
    else if s[20] != 1 && s[20] != 2 then Corrupt(UnknownOp)
    else if keyLen == 0 then Corrupt(EmptyKey)
    else if s[20] == 1 && valueLen == 0 then Corrupt(EmptyValue)
    else
      var op := if s[20] == 1 then Set else Delete;
      Got(Record(FromBE(s[4..12]), FromBE(s[12..20]), op, s[25..25 + keyLen], s[29 + keyLen..size]), size)
  }

  // ----- Where each field lies

  function Size(r: Record): nat {
    29 + |r.key| + |r.value|
  }

  lemma Layout(r: Record)
    ensures |Encode(r)| == Size(r)
    ensures var s := Encode(r); var k := |r.key|;
      && s[..4] == BE(Crc(Body(r)), 4) && s[4..] == Body(r)
      && s[4..12] == BE(r.term, 8) && s[12..20] == BE(r.index, 8) && s[20] == OpCode(r.op)
      && s[21..25] == BE(k, 4) && s[25..25 + k] == r.key
      && s[25 + k..29 + k] == BE(|r.value|, 4) && s[29 + k..] == r.value
  {
    hide BE, Crc;
  }

  lemma EncodedSize(r: Record)
    ensures |Encode(r)| == Size(r)
  {
    Layout(r);
  }

  /** A byte string that holds the fields of `r` is its encoding. */
  lemma Assembled(s: Bytes, r: Record)
    requires |s| == Size(r)
    requires var k := |r.key|;
      && s[..4] == BE(Crc(s[4..]), 4)
      && s[4..12] == BE(r.term, 8) && s[12..20] == BE(r.index, 8) && s[20] == OpCode(r.op)
      && s[21..25] == BE(k, 4) && s[25..25 + k] == r.key
      && s[25 + k..29 + k] == BE(|r.value|, 4) && s[29 + k..] == r.value
    ensures s == Encode(r)
  {
    hide BE, Crc;
    var k := |r.key|;
    assert s[4..] == s[4..12] + s[12..20] + [s[20]] + s[21..25] + s[25..25 + k] + s[25 + k..29 + k] + s[29 + k..];
    assert s == s[..4] + s[4..];
  }

  // ----- Reading what was written, and only that

  lemma FieldBack(value: nat, width: nat)
    requires (width == 4 && value < U32) || (width == 8 && value < U64)
    ensures FromBE(BE(value, width)) == value
  {
    Widths();
    ReadWritten(value, width);
  }

  /** A valid record is read back whole, whatever follows it. */
  lemma ReadsBack(r: Record, rest: Bytes)
    requires Valid(r)
    ensures ReadNext(Encode(r) + rest) == Got(r, |Encode(r)|)
  {
    hide Encode, Body, Crc, BE, FromBE;
    var e := Encode(r);
    var s := e + rest;
    Layout(r);
    FrontFields(e, rest, |r.key|, |r.value|);
    FieldBack(r.term, 8);
    FieldBack(r.index, 8);
    FieldBack(|r.key|, 4);
    FieldBack(|r.value|, 4);
    FieldBack(Crc(Body(r)), 4);
  }

  /** Bytes after a record do not change its fields. */
  lemma FrontFields(e: Bytes, rest: Bytes, k: nat, v: nat)
    requires |e| == 29 + k + v
    ensures var s := e + rest;
      && s[..4] == e[..4] && s[4..12] == e[4..12] && s[12..20] == e[12..20] && s[20] == e[20]
      && s[21..25] == e[21..25] && s[25..25 + k] == e[25..25 + k]
      && s[25 + k..29 + k] == e[25 + k..29 + k] && s[29 + k..29 + k + v] == e[29 + k..] && s[4..29 + k + v] == e[4..]
  {
  }

  /** Whatever the reader accepts is the encoding of the valid record it returns. */
  lemma GotIsEncoded(s: Bytes)
    requires ReadNext(s).Got?
    ensures var got := ReadNext(s);
      got.size <= |s| && Valid(got.record) && s[..got.size] == Encode(got.record)
  {
    hide Encode, Crc, BE, FromBE;
    var got := ReadNext(s);
    var r, e := got.record, s[..got.size];
    var k := |r.key|;
    assert e + s[got.size..] == s;
    FrontFields(e, s[got.size..], k, |r.value|);
    FieldFits(s[4..12], 8);
    FieldFits(s[12..20], 8);
    FieldFits(s[21..25], 4);
    FieldFits(s[25 + k..29 + k], 4);
    FieldFits(s[..4], 4);
    Assembled(e, r);
  }

  lemma FieldFits(f: Bytes, width: nat)
    requires |f| == width && (width == 4 || width == 8)
    ensures FromBE(f) < (if width == 4 then U32 else U64) && BE(FromBE(f), width) == f
  {
    Widths();
    FromBEBound(f);
    WriteRead(f);
  }

  /** The reader returns `r` exactly when the remaining bytes start with the encoding of a valid `r`. */
  lemma ReadIffEncoded(s: Bytes, r: Record)
    ensures ReadNext(s) == Got(r, Size(r)) <==> Valid(r) && Encode(r) <= s
  {
    hide ReadNext, Encode, Body, Valid;
    EncodedSize(r);
    if Valid(r) && Encode(r) <= s {
      ReadsBack(r, s[|Encode(r)|..]);
      assert s == Encode(r) + s[|Encode(r)|..];
    } else if ReadNext(s) == Got(r, Size(r)) {
      GotIsEncoded(s);
    }
  }

  // ----- A torn tail is not corruption

  /** However short a valid record is cut, the reader sees the end of the log. */
  lemma TornIsEnd(r: Record, cut: nat)
    requires Valid(r) && cut < |Encode(r)|
    ensures ReadNext(Encode(r)[..cut]) == End
  {
    hide Encode, Crc, BE, FromBE;
    Layout(r);
    FieldBack(|r.key|, 4);
    FieldBack(|r.value|, 4);
    var e, s, k := Encode(r), Encode(r)[..cut], |r.key|;
    if cut >= HEADER {
      assert s[21..25] == e[21..25];
      if cut >= 29 + k { assert s[25 + k..29 + k] == e[25 + k..29 + k]; }
    }
  }

  // ----- Corruption is detected

  /** `t` is `e` changed somewhere within the four bytes from `at` on, but in no length field. */
  ghost predicate Damaged(r: Record, t: Bytes, at: nat) {
    var e, k := Encode(r), |r.key|;
    && |t| == |e| == Size(r) && t != e
    && (forall i | 0 <= i < |e| && !(at <= i < at + 4) :: t[i] == e[i])
    && t[21..25] == e[21..25] && t[25 + k..29 + k] == e[25 + k..29 + k]
  }

  /** A change within four consecutive bytes, all under the checksum or all in it, is reported as
      corruption: never as another record, never as the end of the log. */
  lemma DamageDetected(r: Record, t: Bytes, at: nat, rest: Bytes)
    requires Valid(r) && Damaged(r, t, at) && (at == 0 || at >= 4)
    ensures ReadNext(t + rest) == Corrupt(Checksum)
  {
    hide Encode, Crc, BE, FromBE;
    Layout(r);
    FieldBack(|r.key|, 4);
    FieldBack(|r.value|, 4);
    FieldBack(Crc(Body(r)), 4);
    FrontFields(t, rest, |r.key|, |r.value|);
    var e := Encode(r);
    if at == 0 {
      assert t[4..] == e[4..];
      assert t[..4] != e[..4] by { assert t == t[..4] + t[4..] && e == e[..4] + e[4..]; }
      FieldFits(t[..4], 4);
      FieldFits(e[..4], 4);
    } else {
      assert t[..4] == e[..4];
      BodyDamaged(e, t, at);
    }
  }

  lemma BodyDamaged(e: Bytes, t: Bytes, at: nat)
    requires 4 <= at && |t| == |e| >= 4 && t != e
    requires forall i | 0 <= i < |e| && !(at <= i < at + 4) :: t[i] == e[i]
    ensures Crc(t[4..]) != Crc(e[4..])
  {
    hide Crc;
    assert exists i :: 0 <= i < |e| && t[i] != e[i];
    var to := if at + 4 <= |e| then at + 4 else |e|;
    var before, after := e[4..at], e[to..];
    assert t[4..at] == before && t[to..] == after;
    ThreeParts(e, at, to);
    ThreeParts(t, at, to);
    assert t[at..to] != e[at..to] by {
      assert e == e[..4] + e[4..] && t == e[..4] + t[4..];
    }
    BurstDetected(before, t[at..to], e[at..to], after);
  }

  lemma ThreeParts(s: Bytes, at: nat, to: nat)
    requires 4 <= at <= to <= |s|
    ensures s[4..] == s[4..at] + s[at..to] + s[to..]
  {
  }

  /** In particular for a single byte, anywhere outside the two length fields. */
  lemma ByteChangeDetected(r: Record, i: nat, b: Byte, rest: Bytes)
    requires Valid(r) && i < |Encode(r)| && b != Encode(r)[i]
    requires !(21 <= i < 25) && !(25 + |r.key| <= i < 29 + |r.key|)
    ensures ReadNext(Encode(r)[i := b] + rest) == Corrupt(Checksum)
  {
    hide Encode, ReadNext;
    Layout(r);
    DamageDetected(r, Encode(r)[i := b], if i < 4 then 0 else i, rest);
  }

  /** `t` takes the place of an encoded `r` and has the same two length fields. */
  ghost predicate KeepsLengths(r: Record, t: Bytes) {
    var e, k := Encode(r), |r.key|;
    |t| == |e| == Size(r) && t[21..25] == e[21..25] && t[25 + k..29 + k] == e[25 + k..29 + k]
  }

  /** The checksum that fits the changed record: the old register, altered by the syndrome. */
  ghost function Altered(r: Record, d: seq<Reg>): nat {
    Value(Mix(Register(INITIAL, Body(r)), Syndrome(d)))
  }

  /** Damage of any extent that spares the lengths fails the checksum, exactly unless the stored
      checksum was altered by the syndrome of the other changes. */
  lemma DamageSeenIff(r: Record, t: Bytes, rest: Bytes)
    requires Valid(r) && KeepsLengths(r, t)
    ensures |t| >= 4 && |t[4..]| == |Body(r)|
    ensures ReadNext(t + rest) == Corrupt(Checksum) <==> FromBE(t[..4]) != Altered(r, Changes(Body(r), t[4..]))
  {
    hide Encode, Body, Register, Value, Mix, Syndrome, Changes, BE, FromBE;
    Layout(r);
    FieldBack(|r.key|, 4);
    FieldBack(|r.value|, 4);
    FrontFields(t, rest, |r.key|, |r.value|);
    RegisterChanged(INITIAL, Body(r), t[4..]);
  }

  /** If the stored checksum was spared too, that depends on the changes alone, not on the record. */
  lemma BodyDamageSeenIff(r: Record, t: Bytes, rest: Bytes)
    requires Valid(r) && KeepsLengths(r, t) && t[..4] == Encode(r)[..4]
    ensures |t| >= 4 && |t[4..]| == |Body(r)|
    ensures ReadNext(t + rest) == Corrupt(Checksum) <==> Syndrome(Changes(Body(r), t[4..])) != Reg(0)
  {
    hide Encode, Body, Crc, Syndrome, Changes, BE, FromBE;
    Layout(r);
    FieldBack(|r.key|, 4);
    FieldBack(|r.value|, 4);
    FieldBack(Crc(Body(r)), 4);
    FrontFields(t, rest, |r.key|, |r.value|);
    SameChecksumIff(Body(r), t[4..]);
  }

  // ----- The length fields

  /** A length whose first byte is 3: within the reader's limit, and more than 48 MiB. */
  const LARGE := 0x300_0000

  lemma LargeField(f: Bytes)
    requires |f| == 4 && f[0] == 3
    ensures LARGE <= FromBE(f) < MAX_FIELD
  {
    assert FromBE(f) == FromBE(f[..3]) * 256 + f[3];
    assert f[..3][..2] == f[..2] && f[..2][..1] == f[..1] && f[..1] == [3] && [3][..0] == [];
    assert FromBE(f[..3]) == FromBE(f[..2]) * 256 + f[2] && FromBE(f[..2]) == FromBE(f[..1]) * 256 + f[1];
  }

  /** The first byte of a smaller length is not 3. */
  lemma SmallField(n: nat)
    requires n < LARGE
    ensures BE(n, 4)[0] != 3
  {
    if BE(n, 4)[0] == 3 {
      FieldBack(n, 4);
      LargeField(BE(n, 4));
    }
  }

  /** A changed key length can make any record but an enormous one look like a torn tail. */
  lemma KeyLengthLooksTorn(r: Record)
    requires Valid(r) && Size(r) < LARGE
    ensures |Encode(r)| == Size(r) && Encode(r)[21] != 3 && ReadNext(Encode(r)[21 := 3]) == End
  {
    hide Encode, Crc, BE, FromBE;
    Layout(r);
    SmallField(|r.key|);
    var e, t := Encode(r), Encode(r)[21 := 3];
    assert e[21] == e[21..25][0];
    LargeField(t[21..25]);
  }

  /** So can a changed value length, as long as the value itself is not enormous. */
  lemma ValueLengthLooksTorn(r: Record)
    requires Valid(r) && |r.value| < LARGE
    ensures var at := 25 + |r.key|;
      |Encode(r)| == Size(r) && Encode(r)[at] != 3 && ReadNext(Encode(r)[at := 3]) == End
  {
    hide Encode, Crc, BE, FromBE;
    Layout(r);
    SmallField(|r.value|);
    FieldBack(|r.key|, 4);
    var k := |r.key|;
    var e, t := Encode(r), Encode(r)[25 + k := 3];
    assert e[25 + k] == e[25 + k..29 + k][0];
    assert t[21..25] == e[21..25];
    LargeField(t[25 + k..29 + k]);
  }

  datatype Field = CrcField | TermField | IndexField | OpField | KeyLengthField | KeyField | ValueLengthField | ValueField

  /** The bytes of an encoded record that a field takes. */
  predicate InField(r: Record, f: Field, i: nat) {
    var k := |r.key|;
    match f
    case CrcField => i < 4
    case TermField => 4 <= i < 12
    case IndexField => 12 <= i < 20
    case OpField => i == 20
    case KeyLengthField => 21 <= i < 25
    case KeyField => 25 <= i < 25 + k
    case ValueLengthField => 25 + k <= i < 29 + k
    case ValueField => 29 + k <= i < Size(r)
  }

  /** Putting `b` at `i`, if that is a change, is reported as corruption with `rest` after the record. */
  ghost predicate Detected(r: Record, i: nat, b: Byte, rest: Bytes) {
    i < |Encode(r)| && b != Encode(r)[i] ==> ReadNext(Encode(r)[i := b] + rest).Corrupt?
  }

  /** Every change of one byte in the field is reported, whatever follows the record. */
  ghost predicate ChangesDetected(r: Record, f: Field) {
    forall i: nat, b: Byte, rest: Bytes | InField(r, f, i) :: Detected(r, i, b, rest)
  }

  /** One-byte changes in a field are all detected if and only if it is not one of the two lengths. */
  lemma ChangesDetectedIff(r: Record, f: Field)
    requires Valid(r) && Size(r) < LARGE
    ensures ChangesDetected(r, f) <==> f != KeyLengthField && f != ValueLengthField
  {
    hide Encode, ReadNext, Valid;
    EncodedSize(r);
    if f == KeyLengthField {
      KeyLengthLooksTorn(r);
      assert Encode(r)[21 := 3] + [] == Encode(r)[21 := 3];
      assert InField(r, f, 21) && !Detected(r, 21, 3, []);
    } else if f == ValueLengthField {
      ValueLengthLooksTorn(r);
      var at := 25 + |r.key|;
      assert Encode(r)[at := 3] + [] == Encode(r)[at := 3];
      assert InField(r, f, at) && !Detected(r, at, 3, []);
    } else {
      forall i: nat, b: Byte, rest: Bytes | InField(r, f, i) ensures Detected(r, i, b, rest) {
        if b != Encode(r)[i] { ByteChangeDetected(r, i, b, rest); }
      }
    }
  }
}

/** A change across the end of the checksum field that goes unnoticed. */
module CrcMiss {
  import opened Bytes
  import opened Crc32
  import opened CrcCheck
  import opened Logs
  import opened WalRecord

  const BEFORE := Record(0, 0, Set, [1], [1])
  const AFTER := Record(0x2600_0000_0000_0000, 0, Set, [1], [1])

  const ZEROS: Bytes := [0, 0, 0, 0, 0, 0, 0, 0]
  const TERM: Bytes := [38, 0, 0, 0, 0, 0, 0, 0]
  /** What follows term and index. */
  const TAIL: Bytes := [1, 0, 0, 0, 1, 1, 0, 0, 0, 1, 1]

  /** A byte in a register, from its halves. */
  lemma LowFrom(b: Byte, b1: nat, b2: nat, b3: nat, b4: nat, b5: nat, l: bv32)
    requires b1 == b / 2 && b2 == b1 / 2 && b3 == b2 / 2 && b4 == b3 / 2 && b5 == b4 / 2 < 2
    requires l == Bit(b % 2 == 1, 1) | Bit(b1 % 2 == 1, 2) | Bit(b2 % 2 == 1, 4) | Bit(b3 % 2 == 1, 8)
                  | Bit(b4 % 2 == 1, 16) | Bit(b5 == 1, 32)
    ensures Low(b) == l
  {
    assert b5 / 2 == 0;
  }

  lemma Lows()
    ensures Low(0) == 0 && Low(1) == 1 && Low(38) == 38
  {
    hide Low;
    LowFrom(0, 0, 0, 0, 0, 0, 0);
    LowFrom(1, 0, 0, 0, 0, 0, 1);
    LowFrom(38, 19, 9, 4, 2, 1, 38);
  }

  lemma XorZero(x: bv32)
    ensures Xor(x, 0) == x
  {
  }

  lemma ZeroTurn(x: bv32, y: bv32)
    requires Turn(x) == y
    ensures Turns(x, 0, y)
  {
    hide Low, Turn, Xor;
    Lows();
    XorZero(x);
  }

  lemma BeforeTerm()
    ensures Register(INITIAL, ZEROS) == Reg(0x9ADD2096)
  {
    hide Register, Turns;
    ZeroTurn(0xFFFFFFFF, 0x2DFD1072);
    ZeroTurn(0x2DFD1072, 0xBE26ED00);
    ZeroTurn(0xBE26ED00, 0x00BE26ED);
    ZeroTurn(0x00BE26ED, 0xDEBB20E3);
    ZeroTurn(0xDEBB20E3, 0x39DD08E2);
    ZeroTurn(0x39DD08E2, 0x4E3D5E5C);
    ZeroTurn(0x4E3D5E5C, 0x62932081);
    ZeroTurn(0x62932081, 0x9ADD2096);
    PathEnds(ZEROS, [Reg(0xFFFFFFFF), Reg(0x2DFD1072), Reg(0xBE26ED00), Reg(0x00BE26ED), Reg(0xDEBB20E3),
      Reg(0x39DD08E2), Reg(0x4E3D5E5C), Reg(0x62932081), Reg(0x9ADD2096)]);
  }

  lemma BeforeIndex()
    ensures Register(Reg(0x9ADD2096), ZEROS) == Reg(0x1344B4AA)
  {
    hide Register, Turns;
    ZeroTurn(0x9ADD2096, 0x19F6EB51);
    ZeroTurn(0x19F6EB51, 0x1C759789);
    ZeroTurn(0x1C759789, 0x94784E13);
    ZeroTurn(0x94784E13, 0x842A3990);
    ZeroTurn(0x842A3990, 0xF08BB97D);
    ZeroTurn(0xF08BB97D, 0x2E448638);
    ZeroTurn(0x2E448638, 0x282CFC18);
    ZeroTurn(0x282CFC18, 0x1344B4AA);
    PathEnds(ZEROS, [Reg(0x9ADD2096), Reg(0x19F6EB51), Reg(0x1C759789), Reg(0x94784E13), Reg(0x842A3990),
      Reg(0xF08BB97D), Reg(0x2E448638), Reg(0x282CFC18), Reg(0x1344B4AA)]);
  }

  lemma BeforeTail()
    ensures Register(Reg(0x1344B4AA), TAIL) == Reg(0x273CAB4A)
  {
    hide Register, Turns, Low;
    Lows();
    ByteTurn(0x1344B4AA, 1, 1, 0x1344B4AB, 0x41173ED4);
    ZeroTurn(0x41173ED4, 0x81FF01F3);
    ZeroTurn(0x81FF01F3, 0x24355CA7);
    ZeroTurn(0x24355CA7, 0x48960317);
    ByteTurn(0x48960317, 1, 1, 0x48960316, 0xF49C2352);
    ByteTurn(0xF49C2352, 1, 1, 0xF49C2353, 0xF2969C6D);
    ZeroTurn(0xF2969C6D, 0x33F18B79);
    ZeroTurn(0x33F18B79, 0x29EA3813);
    ZeroTurn(0x29EA3813, 0x8497ABE6);
    ByteTurn(0x8497ABE6, 1, 1, 0x8497ABE7, 0x3EEAE070);
    ByteTurn(0x3EEAE070, 1, 1, 0x3EEAE071, 0x273CAB4A);
    PathEnds(TAIL, [Reg(0x1344B4AA), Reg(0x41173ED4), Reg(0x81FF01F3), Reg(0x24355CA7), Reg(0x48960317),
      Reg(0xF49C2352), Reg(0xF2969C6D), Reg(0x33F18B79), Reg(0x29EA3813), Reg(0x8497ABE6),
      Reg(0x3EEAE070), Reg(0x273CAB4A)]);
  }

  lemma AfterTerm()
    ensures Register(INITIAL, TERM) == Reg(0xA5C44B47)
  {
    hide Register, Turns, Low;
    Lows();
    ByteTurn(0xFFFFFFFF, 38, 38, 0xFFFFFFD9, 0xFFF0958F);
    ZeroTurn(0xFFF0958F, 0x7DF86E24);
    ZeroTurn(0x7DF86E24, 0x3C7E1CBF);
    ZeroTurn(0x3C7E1CBF, 0x5BE2D001);
    ZeroTurn(0x5BE2D001, 0x775CD246);
    ZeroTurn(0x775CD246, 0x9FC8B877);
    ZeroTurn(0x9FC8B877, 0xCEFE2C27);
    ZeroTurn(0xCEFE2C27, 0xA5C44B47);
    PathEnds(TERM, [Reg(0xFFFFFFFF), Reg(0xFFF0958F), Reg(0x7DF86E24), Reg(0x3C7E1CBF), Reg(0x5BE2D001),
      Reg(0x775CD246), Reg(0x9FC8B877), Reg(0xCEFE2C27), Reg(0xA5C44B47)]);
  }

  lemma AfterIndex()
    ensures Register(Reg(0xA5C44B47), ZEROS) == Reg(0x57EAA633)
  {
    hide Register, Turns;
    ZeroTurn(0xA5C44B47, 0xE81D1078);
    ZeroTurn(0xE81D1078, 0x5E36E41E);
    ZeroTurn(0x5E36E41E, 0xFA510B87);
    ZeroTurn(0xFA510B87, 0x73264788);
    ZeroTurn(0x73264788, 0xE3102D55);
    ZeroTurn(0xE3102D55, 0x1BE2B556);
    ZeroTurn(0x1BE2B556, 0x82131674);
    ZeroTurn(0x82131674, 0x57EAA633);
    PathEnds(ZEROS, [Reg(0xA5C44B47), Reg(0xE81D1078), Reg(0x5E36E41E), Reg(0xFA510B87), Reg(0x73264788),
      Reg(0xE3102D55), Reg(0x1BE2B556), Reg(0x82131674), Reg(0x57EAA633)]);
  }

  lemma AfterTail()
    ensures Register(Reg(0x57EAA633), TAIL) == Reg(0x278CA027)
  {
    hide Register, Turns, Low;
    Lows();
    ByteTurn(0x57EAA633, 1, 1, 0x57EAA632, 0xC880BB26);
    ZeroTurn(0xC880BB26, 0xD2C50546);
    ZeroTurn(0xD2C50546, 0x9F6D21A0);
    ZeroTurn(0x9F6D21A0, 0xD649CEC9);
    ByteTurn(0xD649CEC9, 1, 1, 0xD649CEC8, 0x9569034C);
    ByteTurn(0x9569034C, 1, 1, 0x9569034D, 0x08F8542E);
    ZeroTurn(0x08F8542E, 0xDCDEF59B);
    ZeroTurn(0xDCDEF59B, 0x67019439);
    ZeroTurn(0x67019439, 0x5F62899C);
    ByteTurn(0x5F62899C, 1, 1, 0x5F62899D, 0x8EE18D70);
    ByteTurn(0x8EE18D70, 1, 1, 0x8EE18D71, 0x278CA027);
    PathEnds(TAIL, [Reg(0x57EAA633), Reg(0xC880BB26), Reg(0xD2C50546), Reg(0x9F6D21A0), Reg(0xD649CEC9),
      Reg(0x9569034C), Reg(0x08F8542E), Reg(0xDCDEF59B), Reg(0x67019439), Reg(0x5F62899C),
      Reg(0x8EE18D70), Reg(0x278CA027)]);
  }

  lemma Values()
    ensures Value(Reg(0x273CAB4A)) == 0xD8C354B5 && Value(Reg(0x278CA027)) == 0xD8735FD8
  {
  }

  lemma Checksums()
    ensures Crc(ZEROS + ZEROS + TAIL) == 0xD8C354B5 && Crc(TERM + ZEROS + TAIL) == 0xD8735FD8
  {
    hide Register, Value;
    BeforeTerm();
    BeforeIndex();
    BeforeTail();
    AfterTerm();
    AfterIndex();
    AfterTail();
    RegisterSplit(INITIAL, ZEROS, ZEROS);
    RegisterSplit(INITIAL, ZEROS + ZEROS, TAIL);
    RegisterSplit(INITIAL, TERM, ZEROS);
    RegisterSplit(INITIAL, TERM + ZEROS, TAIL);
    Values();
  }

  /** The fields of the two records. */
  lemma Numbers()
    ensures BE(0, 8) == ZEROS && BE(0x2600_0000_0000_0000, 8) == TERM && BE(1, 4) == [0, 0, 0, 1]
    ensures BE(0xD8C354B5, 4) == [0xD8, 0xC3, 0x54, 0xB5] && BE(0xD8735FD8, 4) == [0xD8, 0x73, 0x5F, 0xD8]
  {
    WriteRead([0, 0, 0, 1]);
  }

  lemma Spliced(front: Bytes, a: Bytes, b: Bytes, back: Bytes)
    requires |a| == |b| == 4 && a[0] != b[0]
    ensures var e, t := front + a + back, front + b + back;
      && |t| == |e| && t != e && (forall i | 0 <= i < |e| && !(|front| <= i < |front| + 4) :: t[i] == e[i])
      && forall i, j | |front| + 4 <= i <= j <= |e| :: t[i..j] == e[i..j]
  {
    var e, t := front + a + back, front + b + back;
    assert e[|front|] != t[|front|];
    forall i, j | |front| + 4 <= i <= j <= |e| ensures t[i..j] == e[i..j] {
    }
  }

  /** All that the two bodies share: everything but the first byte. */
  const SAME := ZEROS[1..] + ZEROS + TAIL

  lemma Bodies()
    ensures Body(BEFORE) == ZEROS + ZEROS + TAIL && Body(AFTER) == TERM + ZEROS + TAIL
  {
    hide BE;
    Numbers();
  }

  lemma Shared()
    ensures ZEROS + ZEROS + TAIL == [0] + SAME && TERM + ZEROS + TAIL == [38] + SAME
  {
  }

  lemma Shifted(r: Record, c: Byte, cs: Bytes, b: Byte, back: Bytes)
    requires BE(Crc(Body(r)), 4) == [c] + cs && Body(r) == [b] + back
    ensures Encode(r) == [c] + (cs + [b]) + back
  {
    hide BE, Crc, Body;
  }

  /** Two valid records whose encodings differ in the last three bytes of the checksum and the first
      of the term alone: the change makes the one read as the other. */
  lemma SpanMissed(rest: Bytes)
    ensures Valid(BEFORE) && Damaged(BEFORE, Encode(AFTER), 1)
    ensures ReadNext(Encode(AFTER) + rest) == Got(AFTER, Size(AFTER)) && AFTER != BEFORE
  {
    hide Encode, ReadNext, Body, Crc, BE;
    var x, y: Bytes := [0xC3, 0x54, 0xB5], [0x73, 0x5F, 0xD8];
    Numbers();
    Checksums();
    Bodies();
    Shared();
    Shifted(BEFORE, 0xD8, x, 0, SAME);
    Shifted(AFTER, 0xD8, y, 38, SAME);
    Spliced([0xD8], x + [0], y + [38], SAME);
    EncodedSize(BEFORE);
    ReadsBack(AFTER, rest);
    EncodedSize(AFTER);
  }
}

/** The published check value of CRC-32: the checksum of the ASCII digits "123456789". */
module CrcCheck {
  import opened Bytes
  import opened Crc32

  const DIGITS: Bytes := [49, 50, 51, 52, 53, 54, 55, 56, 57]

  predicate Turns(x: bv32, b: Byte, y: bv32) {
    Turn(Xor(x, Low(b))) == y
  }

  /** The registers `w` are those that the bytes `s` lead through. */
  ghost predicate Path(s: Bytes, w: seq<Reg>) {
    |w| == |s| + 1 && forall i | 0 <= i < |s| :: Turns(w[i].bits, s[i], w[i + 1].bits)
  }

  lemma {:induction false} PathEnds(s: Bytes, w: seq<Reg>)
    requires Path(s, w)
    ensures Register(w[0], s) == w[|s|]
  {
    hide Turn, Xor, Low;
    if s != [] {
      var n := |s| - 1;
      PathEnds(s[..n], w[..n + 1]);
      assert Turns(w[n].bits, s[n], w[n + 1].bits);
    }
  }

  lemma ByteTurn(x: bv32, b: Byte, l: bv32, mixed: bv32, y: bv32)
    requires Low(b) == l && Xor(x, l) == mixed && Turn(mixed) == y
    ensures Turns(x, b, y)
  {
    hide Low, Xor, Turn;
  }

  /** A byte from 48 to 63 in a register, from its halves and low bits. */
  lemma LowDigit(b: Byte, b1: nat, b2: nat, b3: nat, x0: bv32, x1: bv32, x2: bv32, x3: bv32)
    requires b1 == b / 2 && b2 == b1 / 2 && b3 == b2 / 2 && b3 / 2 == 3
    requires x0 == Bit(b % 2 == 1, 1) && x1 == Bit(b1 % 2 == 1, 2)
    requires x2 == Bit(b2 % 2 == 1, 4) && x3 == Bit(b3 % 2 == 1, 8)
    ensures Low(b) == x0 | x1 | x2 | x3 | 48
  {
    var b4 := b3 / 2; var b5 := b4 / 2; var b6 := b5 / 2;
  }

  lemma DigitBits()
    ensures Low(49) == 49 && Low(50) == 50 && Low(51) == 51 && Low(52) == 52 && Low(53) == 53
    ensures Low(54) == 54 && Low(55) == 55 && Low(56) == 56 && Low(57) == 57
  {
    hide Low;
    LowDigit(49, 24, 12, 6, 1, 0, 0, 0);
    LowDigit(50, 25, 12, 6, 0, 2, 0, 0);
    LowDigit(51, 25, 12, 6, 1, 2, 0, 0);
    LowDigit(52, 26, 13, 6, 0, 0, 4, 0);
    LowDigit(53, 26, 13, 6, 1, 0, 4, 0);
    LowDigit(54, 27, 13, 6, 0, 2, 4, 0);
    LowDigit(55, 27, 13, 6, 1, 2, 4, 0);
    LowDigit(56, 28, 14, 7, 0, 0, 0, 8);
    LowDigit(57, 28, 14, 7, 1, 0, 0, 8);
  }

  lemma DigitsFed()
    ensures Register(INITIAL, DIGITS) == Reg(0x340BC6D9)
  {
    hide Register, Turns, Low;
    DigitBits();
    ByteTurn(0xFFFFFFFF, 49, 49, 0xFFFFFFCE, 0x7C231048);
    ByteTurn(0x7C231048, 50, 50, 0x7C23107A, 0xB0ACBB32);
    ByteTurn(0xB0ACBB32, 51, 51, 0xB0ACBB01, 0x77B79C2D);
    ByteTurn(0x77B79C2D, 52, 52, 0x77B79C19, 0x641C1F5C);
    ByteTurn(0x641C1F5C, 53, 53, 0x641C1F69, 0x340AC5E3);
    ByteTurn(0x340AC5E3, 54, 54, 0x340AC5D5, 0xF68D2C9E);
    ByteTurn(0xF68D2C9E, 55, 55, 0xF68D2CA9, 0xAFFC9660);
    ByteTurn(0xAFFC9660, 56, 56, 0xAFFC9658, 0x651F2550);
    ByteTurn(0x651F2550, 57, 57, 0x651F2569, 0x340BC6D9);
    PathEnds(DIGITS, [Reg(0xFFFFFFFF), Reg(0x7C231048), Reg(0xB0ACBB32), Reg(0x77B79C2D), Reg(0x641C1F5C),
      Reg(0x340AC5E3), Reg(0xF68D2C9E), Reg(0xAFFC9660), Reg(0x651F2550), Reg(0x340BC6D9)]);
  }

  lemma FinalValue()
    ensures Value(Reg(0x340BC6D9)) == 0xCBF43926
  {
  }

  lemma CheckValue()
    ensures Crc(DIGITS) == 0xCBF43926
  {
    hide Register, Value;
    DigitsFed();
    FinalValue();
  }
}

/** The checksum detects every change confined to four consecutive bytes. */
module CrcBursts {
  import opened Bytes
  import opened Crc32
  import opened CrcSteps

  // ----- The register step where no bit falls off

  lemma TwoShifts(y: bv32)
    requires y & 3 == 0
    ensures Two(y) == y >> 2
  {
  }

  lemma FourShifts(y: bv32, y1: bv32)
    requires y & 15 == 0 && y1 == y >> 2
    ensures Four(y) == y >> 4
  {
    hide Two;
    TwoShifts(y);
    TwoShifts(y1);
  }

  lemma TurnShifts(y: bv32, y1: bv32)
    requires y & 0xFF == 0 && y1 == y >> 4
    ensures Turn(y) == y >> 8
  {
    hide Four;
    FourShifts(y, y >> 2);
    FourShifts(y1, y1 >> 2);
  }

  /** What a later byte changes can be moved before the turn. */
  lemma TurnXor(x: bv32, y: bv32, xy: bv32)
    requires y & 0xFF == 0 && xy == Xor(x, y)
    ensures Turn(xy) == Xor(Turn(x), y >> 8)
  {
    hide Turn, Xor;
    TurnLinear(x, y);
    TurnShifts(y, y >> 4);
  }

  // ----- Bytes in a register

  lemma LowSmall(b: Byte, l: bv32)
    requires l == Low(b)
    ensures l & 0xFF == l
  {
  }

  /** The bits of a byte, lowest first, as halvings leave them. */
  ghost predicate SameBits(a: Byte, b: Byte) {
    var a1, b1 := a / 2, b / 2;
    var a2, b2 := a1 / 2, b1 / 2;
    var a3, b3 := a2 / 2, b2 / 2;
    var a4, b4 := a3 / 2, b3 / 2;
    var a5, b5 := a4 / 2, b4 / 2;
    var a6, b6 := a5 / 2, b5 / 2;
    var a7, b7 := a6 / 2, b6 / 2;
    && a % 2 == b % 2 && a1 % 2 == b1 % 2 && a2 % 2 == b2 % 2 && a3 % 2 == b3 % 2
    && a4 % 2 == b4 % 2 && a5 % 2 == b5 % 2 && a6 % 2 == b6 % 2 && a7 % 2 == b7 % 2
  }

  lemma BitsDetermine(a: Byte, b: Byte)
    requires SameBits(a, b)
    ensures a == b
  {
    var a1, b1 := a / 2, b / 2;
    var a2, b2 := a1 / 2, b1 / 2;
    var a3, b3 := a2 / 2, b2 / 2;
    var a4, b4 := a3 / 2, b3 / 2;
    NibbleBits(a4, b4);
    assert a3 == b3;
    assert a2 == b2;
    assert a1 == b1;
  }

  lemma NibbleBits(a: nat, b: nat)
    requires a < 16 && b < 16 && a % 2 == b % 2 && a / 2 % 2 == b / 2 % 2
    requires a / 2 / 2 % 2 == b / 2 / 2 % 2 && a / 2 / 2 / 2 % 2 == b / 2 / 2 / 2 % 2
    ensures a == b
  {
    assert a / 2 / 2 / 2 == b / 2 / 2 / 2;
    assert a / 2 / 2 == b / 2 / 2;
  }

  lemma LowInjective(a: Byte, b: Byte)
    requires Low(a) == Low(b)
    ensures a == b
  {
    assert SameBits(a, b) by {
      hide Low;
      LowBits(a);
      LowBits(b);
    }
    BitsDetermine(a, b);
  }

  lemma LowBits(b: Byte)
    ensures var b1 := b / 2; var b2 := b1 / 2; var b3 := b2 / 2; var b4 := b3 / 2;
      var b5 := b4 / 2; var b6 := b5 / 2; var b7 := b6 / 2;
      && (Low(b) & 1 != 0) == (b % 2 == 1) && (Low(b) & 2 != 0) == (b1 % 2 == 1)
      && (Low(b) & 4 != 0) == (b2 % 2 == 1) && (Low(b) & 8 != 0) == (b3 % 2 == 1)
      && (Low(b) & 16 != 0) == (b4 % 2 == 1) && (Low(b) & 32 != 0) == (b5 % 2 == 1)
      && (Low(b) & 64 != 0) == (b6 % 2 == 1) && (Low(b) & 128 != 0) == (b7 % 2 == 1)
  {
  }

  // ----- Four bytes

  /** The lowest `n` bytes of a register. */
  function Mask(n: nat): bv32 {
    match n
    case 0 => 0
    case 1 => 0xFF
    case 2 => 0xFFFF
    case 3 => 0xFFFFFF
    case _ => 0xFFFFFFFF
  }

  /** `wide` is `mask` with one more byte below it. */
  predicate Wider(mask: bv32, wide: bv32) {
    wide == (mask << 8) | 0xFF
  }

  lemma MaskGrows(n: nat)
    requires n < 4
    ensures Wider(Mask(n), Mask(n + 1))
  {
  }

  /** `w` has no bits outside `mask`. */
  predicate Within(w: bv32, mask: bv32) {
    w & mask == w
  }

  function Up(w: bv32): bv32 {
    w << 8
  }

  /** The word `u` has bits in its lowest `n` bytes only. */
  predicate Fits(u: Reg, n: nat) {
    Within(u.bits, Mask(n))
  }

  /** The register with a word mixed in. */
  function Mix(r: Reg, u: Reg): Reg {
    Reg(Xor(r.bits, u.bits))
  }

  /** The word `u` with byte `b` below it. */
  function Push(b: Byte, u: Reg): Reg {
    Reg(Xor(Low(b), Up(u.bits)))
  }

  function Spin(r: Reg): Reg {
    Reg(Turn(r.bits))
  }

  lemma SpinInjective(a: Reg, b: Reg)
    requires Spin(a) == Spin(b)
    ensures a == b
  {
    hide Turn;
    TurnInjective(a.bits, b.bits);
  }

  lemma PushedFits(w: bv32, mask: bv32, wide: bv32, l: bv32)
    requires Within(w, mask) && Wider(mask, wide) && l & 0xFF == l
    ensures Within(Xor(l, Up(w)), wide)
  {
  }

  lemma PushFits(b: Byte, u: Reg, n: nat)
    requires n < 4 && Fits(u, n)
    ensures Fits(Push(b, u), n + 1)
  {
    hide Low, Mask, Xor, Up, Within, Wider;
    MaskGrows(n);
    LowSmall(b, Low(b));
    PushedFits(u.bits, Mask(n), Mask(n + 1), Low(b));
  }

  lemma PushedApart(w: bv32, v: bv32, l: bv32, m: bv32, mask: bv32)
    requires mask == 0xFFFFFF && Within(w, mask) && Within(v, mask)
    requires l & 0xFF == l && m & 0xFF == m && Xor(l, Up(w)) == Xor(m, Up(v))
    ensures l == m && w == v
  {
  }

  lemma PushInjective(x: Byte, y: Byte, u: Reg, v: Reg)
    requires Fits(u, 3) && Fits(v, 3) && Push(x, u) == Push(y, v)
    ensures x == y && u == v
  {
    hide Low, Xor, Up, Within;
    LowSmall(x, Low(x));
    LowSmall(y, Low(y));
    PushedApart(u.bits, v.bits, Low(x), Low(y), Mask(3));
    LowInjective(x, y);
  }

  lemma FitsWider(u: Reg, n: nat)
    requires n < 4 && Fits(u, n)
    ensures Fits(u, 3)
  {
  }

  lemma WordUp(w: bv32, mask: bv32)
    requires Within(w, mask) && mask == 0xFFFFFF
    ensures Up(w) & 0xFF == 0 && Up(w) >> 8 == w
  {
  }

  lemma TurnThenXor(w: bv32, w8: bv32, xl: bv32)
    requires w8 >> 8 == w && w8 & 0xFF == 0
    ensures Xor(Turn(xl), w) == Turn(Xor(xl, w8))
  {
    hide Turn;
    TurnXor(xl, w8, Xor(xl, w8));
  }

  /** Mixing a word in after a byte is the same as pushing the byte below it before the turn. */
  lemma FeedThenMix(r: Reg, b: Byte, u: Reg)
    requires Fits(u, 3)
    ensures Mix(Feed(r, b), u) == Spin(Mix(r, Push(b, u)))
  {
    hide Low, Turn, Xor, Up, Within;
    WordUp(u.bits, Mask(3));
    Regroup(r.bits, Low(b), Up(u.bits));
    TurnThenXor(u.bits, Up(u.bits), Xor(r.bits, Low(b)));
  }

  lemma MixInjective(r: Reg, u: Reg, v: Reg)
    requires Mix(r, u) == Mix(r, v)
    ensures u == v
  {
    hide Xor;
    XorSwaps(r.bits, u.bits);
    XorSwaps(r.bits, v.bits);
    XorCancels(u.bits, v.bits, r.bits);
  }

  lemma MixNothing(r: Reg, n: nat)
    ensures Mix(r, Reg(0)) == r && Fits(Reg(0), n)
  {
  }

  /** From one register, two different words of up to four bytes lead to different registers. */
  lemma {:induction false} WindowInjective(r: Reg, d: Bytes, e: Bytes, u: Reg, v: Reg)
    requires |d| == |e| <= 4 && Fits(u, 4 - |d|) && Fits(v, 4 - |d|)
    requires Mix(Register(r, d), u) == Mix(Register(r, e), v)
    ensures d == e && u == v
    decreases |d|
  {
    hide Feed, Fits, Mix, Push, Spin;
    if d == [] {
      MixInjective(r, u, v);
    } else {
      var n := |d| - 1;
      var a, b := Register(r, d[..n]), Register(r, e[..n]);
      FitsWider(u, 4 - |d|);
      FitsWider(v, 4 - |d|);
      FeedThenMix(a, d[n], u);
      FeedThenMix(b, e[n], v);
      SpinInjective(Mix(a, Push(d[n], u)), Mix(b, Push(e[n], v)));
      PushFits(d[n], u, 4 - |d|);
      PushFits(e[n], v, 4 - |d|);
      WindowInjective(r, d[..n], e[..n], Push(d[n], u), Push(e[n], v));
      PushInjective(d[n], e[n], u, v);
      assert d == d[..n] + [d[n]] && e == e[..n] + [e[n]];
    }
  }

  /** Any change confined to four consecutive bytes changes the checksum. */
  lemma BurstDetected(before: Bytes, d: Bytes, e: Bytes, after: Bytes)
    requires |d| == |e| <= 4 && d != e
    ensures Crc(before + d + after) != Crc(before + e + after)
  {
    hide Register, Value, Fits, Mix;
    if Crc(before + d + after) == Crc(before + e + after) {
      var r := Register(INITIAL, before);
      ValueInjective(Register(INITIAL, before + d + after), Register(INITIAL, before + e + after));
      RegisterSplit(INITIAL, before + d, after);
      RegisterSplit(INITIAL, before + e, after);
      RegisterInjective(Register(INITIAL, before + d), Register(INITIAL, before + e), after);
      RegisterSplit(INITIAL, before, d);
      RegisterSplit(INITIAL, before, e);
      MixNothing(Register(r, d), 4 - |d|);
      WindowInjective(r, d, e, Reg(0), Reg(0));
    }
  }
}

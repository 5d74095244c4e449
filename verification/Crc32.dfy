/** The reflected CRC-32 of IEEE 802.3, computed bit by bit, and the changes it must detect. */
module Crc32 {
  import opened Bytes

  /** The checksum register. */
  datatype Reg = Reg(bits: bv32)

  const INITIAL := Reg(0xFFFF_FFFF)

  /** One turn of the inner loop. */
  function Step(r: bv32): bv32 {
    if r & 1 != 0 then (r >> 1) ^ 0xEDB88320 else r >> 1
  }

  function Steps(r: bv32, n: nat): bv32 {
    if n == 0 then r else Step(Steps(r, n - 1))
  }

  function Two(r: bv32): bv32 {
    Step(Step(r))
  }

  function Four(r: bv32): bv32 {
    Two(Two(r))
  }

  /** All eight turns of the inner loop. */
  function Turn(r: bv32): bv32 {
    Four(Four(r))
  }

  lemma EightSteps(r: bv32)
    ensures Steps(r, 8) == Turn(r)
  {
    hide Two, Step;
    TwoMore(r, 0);
    TwoMore(r, 2);
    TwoMore(r, 4);
    TwoMore(r, 6);
  }

  lemma TwoMore(r: bv32, n: nat)
    ensures Steps(r, n + 2) == Two(Steps(r, n))
  {
    hide Step;
    assert Steps(r, n + 2) == Step(Steps(r, n + 1));
  }

  /** A register with at most one bit set. */
  function Bit(on: bool, place: bv32): bv32 {
    if on then place else 0
  }

  /** A byte as the low eight bits of a register. */
  function Low(b: Byte): bv32 {
    var b1 := b / 2; var b2 := b1 / 2; var b3 := b2 / 2; var b4 := b3 / 2;
    var b5 := b4 / 2; var b6 := b5 / 2; var b7 := b6 / 2;
    Bit(b % 2 == 1, 1) | Bit(b1 % 2 == 1, 2) | Bit(b2 % 2 == 1, 4) | Bit(b3 % 2 == 1, 8)
    | Bit(b4 % 2 == 1, 16) | Bit(b5 % 2 == 1, 32) | Bit(b6 % 2 == 1, 64) | Bit(b7 % 2 == 1, 128)
  }

  function Xor(a: bv32, b: bv32): bv32 {
    a ^ b
  }

  /** The register after one more byte. */
  function Feed(r: Reg, b: Byte): Reg {
    Reg(Turn(Xor(r.bits, Low(b))))
  }

  /** The register after all bytes. */
  function Register(r: Reg, s: Bytes): Reg {
    if s == [] then r else Feed(Register(r, s[..|s| - 1]), s[|s| - 1])
  }

  function Value(r: Reg): (c: nat)
    ensures c < U32
  {
    (!r.bits) as int
  }

  function Crc(s: Bytes): (c: nat)
    ensures c < U32
  {
    Value(Register(INITIAL, s))
  }

  /** The loop over the bytes. */
  method Compute(data: Bytes) returns (crc: nat)
    ensures crc == Crc(data)
  {
    hide Low, Turn, Xor;
    var r := INITIAL;
    for i := 0 to |data|
      invariant r == Register(INITIAL, data[..i])
    {
      assert data[..i + 1][..i] == data[..i];
      var bits := ShiftByte(Xor(r.bits, Low(data[i])));
      r := Reg(bits);
    }
    assert data[..|data|] == data;
    return Value(r);
  }

  method ShiftByte(bits: bv32) returns (r: bv32)
    ensures r == Turn(bits)
  {
    hide Turn;
    r := bits;
    for bit := 0 to 8
      invariant r == Steps(bits, bit)
    {
      r := if r & 1 != 0 then (r >> 1) ^ 0xEDB88320 else r >> 1;
    }
    EightSteps(bits);
  }

  // ----- The register step is a bijection

  lemma StepInjective(a: bv32, b: bv32)
    requires Step(a) == Step(b)
    ensures a == b
  {
  }

  lemma TwoInjective(a: bv32, b: bv32)
    requires Two(a) == Two(b)
    ensures a == b
  {
    hide Step;
    StepInjective(Step(a), Step(b));
    StepInjective(a, b);
  }

  lemma FourInjective(a: bv32, b: bv32)
    requires Four(a) == Four(b)
    ensures a == b
  {
    hide Two;
    TwoInjective(Two(a), Two(b));
    TwoInjective(a, b);
  }

  lemma TurnInjective(a: bv32, b: bv32)
    requires Turn(a) == Turn(b)
    ensures a == b
  {
    hide Four;
    FourInjective(Four(a), Four(b));
    FourInjective(a, b);
  }

  lemma XorCancels(a: bv32, b: bv32, c: bv32)
    requires Xor(a, c) == Xor(b, c)
    ensures a == b
  {
    assert a == (a ^ c) ^ c;
  }

  /** Different registers stay different, whatever byte follows. */
  lemma FeedInjective(a: Reg, b: Reg, e: Byte)
    requires Feed(a, e) == Feed(b, e)
    ensures a == b
  {
    hide Turn, Low, Xor;
    TurnInjective(Xor(a.bits, Low(e)), Xor(b.bits, Low(e)));
    XorCancels(a.bits, b.bits, Low(e));
  }

  lemma {:induction false} RegisterInjective(a: Reg, b: Reg, s: Bytes)
    requires Register(a, s) == Register(b, s)
    ensures a == b
  {
    hide Feed;
    if s != [] {
      FeedInjective(Register(a, s[..|s| - 1]), Register(b, s[..|s| - 1]), s[|s| - 1]);
      RegisterInjective(a, b, s[..|s| - 1]);
    }
  }

  lemma ValueInjective(a: Reg, b: Reg)
    requires Value(a) == Value(b)
    ensures a == b
  {
    hide Value;
    ValueBits(a);
    ValueBits(b);
    ComplementInjective(a.bits, b.bits);
  }

  lemma ValueBits(r: Reg)
    ensures Value(r) == (!r.bits) as int
  {
  }

  lemma ComplementInjective(a: bv32, b: bv32)
    requires (!a) as int == (!b) as int
    ensures a == b
  {
    AsIntInjective(!a, !b);
    NotInjective(a, b);
  }

  lemma AsIntInjective(a: bv32, b: bv32)
    requires a as int == b as int
    ensures a == b
  {
    assert (a as int) as bv32 == a && (b as int) as bv32 == b;
  }

  lemma NotInjective(a: bv32, b: bv32)
    requires !a == !b
    ensures a == b
  {
  }

  lemma {:induction false} RegisterSplit(r: Reg, s: Bytes, t: Bytes)
    ensures Register(r, s + t) == Register(Register(r, s), t)
    decreases |t|
  {
    hide Feed;
    if t == [] {
      assert s + t == s;
    } else {
      var init := t[..|t| - 1];
      assert (s + t)[..|s + t| - 1] == s + init;
      RegisterSplit(r, s, init);
    }
  }
}

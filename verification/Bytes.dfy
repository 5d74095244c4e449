/** Byte strings and the big-endian fields that every format in the system is built from. */
module Bytes {
  type Byte = x: int | 0 <= x < 256
  type Bytes = seq<Byte>

  const U32 := 0x1_0000_0000
  const U64 := 0x1_0000_0000_0000_0000

  function Pow256(n: nat): (p: nat)
    ensures p > 0
  {
    if n == 0 then 1 else 256 * Pow256(n - 1)
  }

  lemma Widths()
    ensures Pow256(1) == 256 && Pow256(2) == 0x1_0000 && Pow256(4) == U32 && Pow256(8) == U64
  {
    assert Pow256(3) == 256 * Pow256(2) && Pow256(4) == 256 * Pow256(3);
    assert Pow256(5) == 256 * Pow256(4) && Pow256(6) == 256 * Pow256(5) && Pow256(7) == 256 * Pow256(6);
  }

  /** The low `width` bytes of `value`, most significant first. */
  function BE(value: nat, width: nat): (s: Bytes)
    ensures |s| == width
  {
    if width == 0 then [] else BE(value / 256, width - 1) + [value % 256]
  }

  function FromBE(s: Bytes): nat {
    if s == [] then 0 else FromBE(s[..|s| - 1]) * 256 + s[|s| - 1]
  }

  lemma {:induction false} FromBEBound(s: Bytes)
    ensures FromBE(s) < Pow256(|s|)
  {
    if s != [] { FromBEBound(s[..|s| - 1]); }
  }

  /** Reading back what was written gives the value, if it fits the field. */
  lemma {:induction false} ReadWritten(value: nat, width: nat)
    requires value < Pow256(width)
    ensures FromBE(BE(value, width)) == value
  {
    if width > 0 {
      ReadWritten(value / 256, width - 1);
      assert BE(value, width)[..width - 1] == BE(value / 256, width - 1);
    }
  }

  /** Every field content is what writing its value gives. */
  lemma {:induction false} WriteRead(s: Bytes)
    ensures BE(FromBE(s), |s|) == s
  {
    if s != [] {
      WriteRead(s[..|s| - 1]);
      assert s == s[..|s| - 1] + [s[|s| - 1]];
    }
  }

  /** Which byte of the value is where: the most significant one first. */
  lemma {:induction false} BigEndian(value: nat, width: nat, i: nat)
    requires i < width
    ensures BE(value, width)[i] == value / Pow256(width - 1 - i) % 256
    decreases width
  {
    if i < width - 1 {
      BigEndian(value / 256, width - 1, i);
      DivideTwice(value, Pow256(width - 2 - i));
    }
  }

  lemma DivideTwice(v: nat, b: nat)
    requires b > 0
    ensures v / 256 / b == v / (256 * b)
  {
    var q, r := v / 256, v % 256;
    var q2, r2 := q / b, q % b;
    var p := b * q2;
    assert q == p + r2;
    Associates(b, q2);
    Quotient(v, 256 * b, q2, 256 * r2 + r);
  }

  lemma Associates(b: nat, q: nat)
    ensures (256 * b) * q == 256 * (b * q)
  {
  }

  lemma Multiplies(a: nat, x: int, y: int)
    requires x <= y
    ensures a * x <= a * y
  {
  }

  lemma Quotient(v: nat, d: nat, q: nat, r: nat)
    requires d > 0 && v == d * q + r && r < d
    ensures v / d == q
  {
    if v / d < q {
      Multiplies(d, v / d + 1, q);
    } else if v / d > q {
      Multiplies(d, q + 1, v / d);
    }
  }

  // ----- The loops that write and read fields

  /** `value` shifted right by `n` bytes. */
  function ShiftRight(value: nat, n: nat): nat {
    if n == 0 then value else ShiftRight(value, n - 1) / 256
  }

  /** Push the low `width` bytes of `value`, from the highest shift down to zero. */
  method WriteBE(out: Bytes, value: nat, width: nat) returns (r: Bytes)
    ensures r == out + BE(value, width)
  {
    r := out;
    var shift := width;
    while shift > 0
      invariant 0 <= shift <= width
      invariant r == out + BE(ShiftRight(value, shift), width - shift)
    {
      shift := shift - 1;
      r := r + [ShiftRight(value, shift) % 256];
    }
  }

  /** Shift in byte after byte. */
  method ReadBE(s: Bytes) returns (value: nat)
    ensures value == FromBE(s)
  {
    value := 0;
    for i := 0 to |s|
      invariant value == FromBE(s[..i])
    {
      assert s[..i + 1][..i] == s[..i];
      value := value * 256 + s[i];
    }
    assert s[..|s|] == s;
  }
}

/** The checksum is linear: how it changes depends on what was changed and on nothing else. */
module CrcLinear {
  import opened Bytes
  import opened Crc32
  import opened CrcSteps
  import opened CrcBursts

  // ----- Changed bytes

  /** What has to be mixed into one byte to get the other. */
  function Change(a: Byte, b: Byte): Reg {
    Reg(Xor(Low(a), Low(b)))
  }

  function Changes(a: Bytes, b: Bytes): (d: seq<Reg>)
    requires |a| == |b|
    ensures |d| == |a|
  {
    if a == [] then [] else Changes(a[..|a| - 1], b[..|b| - 1]) + [Change(a[|a| - 1], b[|b| - 1])]
  }

  /** The register that the changes alone lead to, from an empty one. */
  function Syndrome(d: seq<Reg>): Reg {
    if d == [] then Reg(0) else Spin(Mix(Syndrome(d[..|d| - 1]), d[|d| - 1]))
  }

  lemma SyndromeNext(d: seq<Reg>, w: Reg)
    ensures Syndrome(d + [w]) == Spin(Mix(Syndrome(d), w))
  {
    hide Spin, Mix;
    assert (d + [w])[..|d|] == d;
  }

  lemma Cancels(x: bv32, s: bv32, a: bv32, b: bv32)
    ensures Xor(Xor(x, a), Xor(s, Xor(a, b))) == Xor(Xor(x, s), b)
  {
    hide Xor;
    XorSwaps(a, b);
    XorLater(s, b, a);
    XorAgain(x, Xor(s, b), a);
    XorLater(x, s, b);
  }

  lemma FeedChanged(x: Reg, s: Reg, a: Byte, b: Byte)
    ensures Feed(Mix(x, s), b) == Mix(Feed(x, a), Spin(Mix(s, Change(a, b))))
  {
    hide Low, Turn, Xor;
    Cancels(x.bits, s.bits, Low(a), Low(b));
    TurnLinear(Xor(x.bits, Low(a)), Xor(s.bits, Xor(Low(a), Low(b))));
  }

  /** Changed bytes change the register by their syndrome, whatever the bytes were. */
  lemma {:induction false} RegisterChanged(r: Reg, a: Bytes, b: Bytes)
    requires |a| == |b|
    ensures Register(r, b) == Mix(Register(r, a), Syndrome(Changes(a, b)))
    decreases |a|
  {
    hide Feed, Mix, Spin, Change, Syndrome;
    if a == [] {
      NoChange(r);
    } else {
      var n := |a| - 1;
      var d := Changes(a[..n], b[..n]);
      RegisterChanged(r, a[..n], b[..n]);
      SyndromeNext(d, Change(a[n], b[n]));
      FeedChanged(Register(r, a[..n]), Syndrome(d), a[n], b[n]);
    }
  }

  lemma NoChange(r: Reg)
    ensures Mix(r, Syndrome([])) == r
  {
    MixNothing(r, 0);
  }

  /** Two byte strings of one length have the same checksum exactly if their changes have the
      syndrome zero. */
  lemma SameChecksumIff(a: Bytes, b: Bytes)
    requires |a| == |b|
    ensures Crc(a) == Crc(b) <==> Syndrome(Changes(a, b)) == Reg(0)
  {
    hide Register, Value, Syndrome, Mix;
    var r := Register(INITIAL, a);
    RegisterChanged(INITIAL, a, b);
    MixNothing(r, 0);
    if Crc(a) == Crc(b) {
      ValueInjective(r, Register(INITIAL, b));
      MixInjective(r, Syndrome(Changes(a, b)), Reg(0));
    }
  }
}

/** The turns of the checksum register are linear. */
module CrcSteps {
  import opened Crc32

  function Half(a: bv32): bv32 {
    a >> 1
  }

  predicate Odd(a: bv32) {
    a & 1 != 0
  }

  lemma StepIs(a: bv32)
    ensures Step(a) == if Odd(a) then Xor(Half(a), 0xEDB88320) else Half(a)
  {
  }

  lemma OddXor(a: bv32, b: bv32)
    ensures Odd(Xor(a, b)) <==> Odd(a) != Odd(b)
  {
  }

  lemma HalfXor(a: bv32, b: bv32)
    ensures Half(Xor(a, b)) == Xor(Half(a), Half(b))
  {
  }

  lemma Regroup(x: bv32, l: bv32, w8: bv32)
    ensures Xor(x, Xor(l, w8)) == Xor(Xor(x, l), w8)
  {
  }

  lemma XorSwaps(a: bv32, b: bv32)
    ensures Xor(a, b) == Xor(b, a)
  {
  }

  lemma XorTwice(a: bv32, c: bv32)
    ensures Xor(Xor(a, c), c) == a
  {
  }

  lemma XorLater(a: bv32, b: bv32, c: bv32)
    ensures Xor(a, Xor(b, c)) == Xor(Xor(a, b), c) && Xor(Xor(a, c), b) == Xor(Xor(a, b), c)
  {
    hide Xor;
    Regroup(a, b, c);
    Regroup(a, c, b);
    XorSwaps(b, c);
  }

  lemma XorAgain(a: bv32, b: bv32, c: bv32)
    ensures Xor(Xor(a, c), Xor(b, c)) == Xor(a, b)
  {
    hide Xor;
    XorLater(Xor(a, c), b, c);
    XorLater(a, b, c);
    XorTwice(Xor(a, b), c);
  }

  lemma StepLinear(a: bv32, b: bv32)
    ensures Step(Xor(a, b)) == Xor(Step(a), Step(b))
  {
    hide Step, Odd, Half, Xor;
    StepIs(a);
    StepIs(b);
    StepIs(Xor(a, b));
    OddXor(a, b);
    HalfXor(a, b);
    XorAgain(Half(a), Half(b), 0xEDB88320);
    XorLater(Half(a), Half(b), 0xEDB88320);
  }

  lemma TurnLinear(a: bv32, b: bv32)
    ensures Turn(Xor(a, b)) == Xor(Turn(a), Turn(b))
  {
    hide Four, Xor;
    FourLinear(a, b);
    FourLinear(Four(a), Four(b));
  }

  lemma FourLinear(a: bv32, b: bv32)
    ensures Four(Xor(a, b)) == Xor(Four(a), Four(b))
  {
    hide Two, Xor;
    TwoLinear(a, b);
    TwoLinear(Two(a), Two(b));
  }

  lemma TwoLinear(a: bv32, b: bv32)
    ensures Two(Xor(a, b)) == Xor(Two(a), Two(b))
  {
    hide Step, Xor;
    StepLinear(a, b);
    StepLinear(Step(a), Step(b));
  }
}

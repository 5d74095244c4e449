/** The two building blocks of every message: fixed-width numbers and length-prefixed strings, each
    read off the front of the remaining bytes. */
module Wire {
  import opened Bytes
  import opened Options

  /** A `width`-byte number and what follows it. */
  function Num(s: Bytes, width: nat): Option<(nat, Bytes)> {
    if |s| < width then None else Some((FromBE(s[..width]), s[width..]))
  }

  /** `n` raw bytes and what follows them. */
  function Take(s: Bytes, n: nat): Option<(Bytes, Bytes)> {
    if |s| < n then None else Some((s[..n], s[n..]))
  }

  /** A string with its length in four bytes before it. */
  function Prefixed(b: Bytes): Bytes {
    BE(|b|, 4) + b
  }

  function Blob(s: Bytes): Option<(Bytes, Bytes)> {
    var (n, rest) :- Num(s, 4);
    Take(rest, n)
  }

  /** What was written is read back, and the rest is left. */
  lemma NumBack(v: nat, width: nat, rest: Bytes)
    requires v < Pow256(width)
    ensures Num(BE(v, width) + rest, width) == Some((v, rest))
  {
    ReadWritten(v, width);
    assert (BE(v, width) + rest)[..width] == BE(v, width);
  }

  /** Whatever was read is what writing would have put there. */
  lemma NumOnly(s: Bytes, width: nat)
    requires Num(s, width).Some?
    ensures var (v, rest) := Num(s, width).value; v < Pow256(width) && s == BE(v, width) + rest
  {
    FromBEBound(s[..width]);
    WriteRead(s[..width]);
  }

  lemma BlobBack(b: Bytes, rest: Bytes)
    requires |b| < U32
    ensures Blob(Prefixed(b) + rest) == Some((b, rest))
  {
    hide BE, FromBE;
    Widths();
    NumBack(|b|, 4, b + rest);
    assert Prefixed(b) + rest == BE(|b|, 4) + (b + rest);
  }

  lemma BlobOnly(s: Bytes)
    requires Blob(s).Some?
    ensures var (b, rest) := Blob(s).value; |b| < U32 && s == Prefixed(b) + rest
  {
    hide BE, FromBE;
    Widths();
    NumOnly(s, 4);
    var (b, rest) := Blob(s).value;
    assert Num(s, 4).value.1 == b + rest;
  }

  /** A cursor over a message body with bounds-checked reads. */
  class Reader {
    const data: Bytes
    var offset: nat

    ghost predicate Valid()
      reads this
    {
      offset <= |data|
    }

    ghost function Rest(): Bytes
      requires Valid()
      reads this
    {
      data[offset..]
    }

    constructor (data: Bytes)
      ensures Valid() && this.data == data && Rest() == data
    {
      this.data, offset := data, 0;
    }

    method ReadNum(width: nat) returns (v: Option<nat>)
      requires Valid()
      modifies this
      ensures Valid() && match Num(old(Rest()), width)
        case None => v == None && offset == old(offset)
        case Some((n, rest)) => v == Some(n) && Rest() == rest
    {
      if offset + width > |data| { return None; }
      var n := ReadBE(data[offset..offset + width]);
      assert data[offset..offset + width] == data[offset..][..width];
      offset := offset + width;
      return Some(n);
    }

    method ReadBytes(n: nat) returns (b: Option<Bytes>)
      requires Valid()
      modifies this
      ensures Valid() && match Take(old(Rest()), n)
        case None => b == None && offset == old(offset)
        case Some((taken, rest)) => b == Some(taken) && Rest() == rest
    {
      if offset + n > |data| { return None; }
      assert data[offset..offset + n] == data[offset..][..n];
      b := Some(data[offset..offset + n]);
      offset := offset + n;
    }

    /** A length and that many bytes. */
    method ReadBlob() returns (b: Option<Bytes>)
      requires Valid()
      modifies this
      ensures Valid() && match Blob(old(Rest()))
        case None => b == None
        case Some((taken, rest)) => b == Some(taken) && Rest() == rest
    {
      var n := ReadNum(4);
      if n.None? { return None; }
      b := ReadBytes(n.value);
    }

    method AtEnd() returns (end: bool)
      requires Valid()
      ensures end <==> Rest() == []
    {
      return offset == |data|;
    }
  }
}

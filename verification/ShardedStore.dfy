/** The in-memory store: 256 shards, each holding the keys that hash to it, seen as one map. */
module ShardedStore {
  import opened Bytes
  import opened Logs
  import opened Store

  const SHARD_COUNT := 256

  datatype Status = Ok | InvalidArgument | NotFound

  datatype Lookup = Found(value: Bytes) | Missing(why: Status)

  class ShardedKV {
    const hash: Bytes -> nat
    const shards: array<Contents>

    function ShardFor(key: Bytes): (i: nat)
      ensures i < SHARD_COUNT
    {
      hash(key) % SHARD_COUNT
    }

    /** Every key is non-empty and in the shard it hashes to. */
    ghost predicate Valid()
      reads shards
    {
      shards.Length == SHARD_COUNT && forall i | 0 <= i < SHARD_COUNT :: Placed(shards[i], i)
    }

    ghost predicate Placed(shard: Contents, i: nat) {
      forall k | k in shard :: k != [] && ShardFor(k) == i
    }

    /** The shards as one map. */
    ghost function Contents(): Contents
      requires Valid()
      reads shards
    {
      map k | k in Keys(shards[..]) :: shards[ShardFor(k)][k]
    }

    lemma ContentsAt(k: Bytes)
      requires Valid()
      ensures k in Contents() <==> k in shards[ShardFor(k)]
      ensures k in Contents() ==> Contents()[k] == shards[ShardFor(k)][k]
    {
      assert shards[..][ShardFor(k)] == shards[ShardFor(k)];
    }

    constructor (hash: Bytes -> nat)
      ensures Valid() && fresh(shards) && Contents() == map[] && this.hash == hash
    {
      this.hash := hash;
      shards := new Contents[SHARD_COUNT](_ => map[]);
    }

    method Set(key: Bytes, value: Bytes) returns (status: Status)
      requires Valid()
      modifies shards
      ensures Valid() && Contents() == if key == [] then old(Contents()) else old(Contents())[key := value]
      ensures status == if key == [] then InvalidArgument else Ok
    {
      hide Contents;
      if key == [] { return InvalidArgument; }
      ghost var was := Contents();
      var i := ShardFor(key);
      ContentsEverywhere();
      shards[i] := shards[i][key := value];
      ghost var now := was[key := value];
      forall k ensures Agrees(now, k) { assert old(Agrees(was, k)); }
      SameContents(now);
      return Ok;
    }

    /** `m` says about `k` what the shard of `k` says. */
    ghost predicate Agrees(m: Contents, k: Bytes)
      requires shards.Length == SHARD_COUNT
      reads shards
    {
      var shard := shards[ShardFor(k)];
      (k in m <==> k in shard) && (k in m ==> m[k] == shard[k])
    }

    lemma ContentsEverywhere()
      requires Valid()
      ensures forall k :: Agrees(Contents(), k)
    {
      forall k ensures Agrees(Contents(), k) { ContentsAt(k); }
    }

    /** A map that agrees with every shard is the contents. */
    lemma SameContents(m: Contents)
      requires Valid() && forall k :: Agrees(m, k)
      ensures m == Contents()
    {
      hide Contents;
      ContentsEverywhere();
      assert forall k :: Agrees(m, k) && Agrees(Contents(), k) ==> (k in m <==> k in Contents());
      assert forall k | k in m :: Agrees(m, k) && Agrees(Contents(), k) ==> m[k] == Contents()[k];
    }

    method Get(key: Bytes) returns (r: Lookup)
      requires Valid()
      ensures key == [] ==> r == Missing(InvalidArgument)
      ensures key != [] ==> r == if key in Contents() then Found(Contents()[key]) else Missing(NotFound)
    {
      if key == [] { return Missing(InvalidArgument); }
      ContentsAt(key);
      var shard := shards[ShardFor(key)];
      if key !in shard { return Missing(NotFound); }
      return Found(shard[key]);
    }

    method Delete(key: Bytes) returns (status: Status)
      requires Valid()
      modifies shards
      ensures Valid() && Contents() == map k | k in old(Contents()) && k != key :: old(Contents())[k]
      ensures status == if key == [] then InvalidArgument else if key in old(Contents()) then Ok else NotFound
    {
      hide Contents;
      ghost var was := Contents();
      ContentsEverywhere();
      if key == [] {
        NoEmptyKey();
        assert Erase(was, key) == was;
        return InvalidArgument;
      }
      var i := ShardFor(key);
      if key !in shards[i] {
        assert Agrees(was, key);
        assert Erase(was, key) == was;
        return NotFound;
      }
      shards[i] := Erase(shards[i], key);
      forall k ensures Agrees(Erase(was, key), k) { assert old(Agrees(was, k)); }
      SameContents(Erase(was, key));
      assert old(Agrees(was, key));
      return Ok;
    }

    lemma NoEmptyKey()
      requires Valid()
      ensures [] !in Contents()
    {
      ContentsAt([]);
      assert Placed(shards[ShardFor([])], ShardFor([]));
    }

    /** The sum of the shard sizes is the number of keys. */
    method Size() returns (total: nat)
      requires Valid()
      ensures total == |Contents()|
    {
      total := 0;
      for i := 0 to SHARD_COUNT
        invariant total == |Keys(shards[..i])|
      {
        KeysNext(shards[..], i);
        assert shards[..][..i] == shards[..i] && shards[..][..i + 1] == shards[..i + 1];
        assert Keys(shards[..i]) !! shards[i].Keys by {
          forall k | k in Keys(shards[..i]) ensures k !in shards[i] {
            var j :| 0 <= j < i && k in shards[..i][j];
            assert shards[j] == shards[..i][j] && Placed(shards[j], j) && Placed(shards[i], i);
          }
        }
        total := total + |shards[i]|;
      }
      assert shards[..SHARD_COUNT] == shards[..];
      assert Contents().Keys == Keys(shards[..]);
    }
  }

  ghost function Keys(shards: seq<Contents>): set<Bytes> {
    set i, k | 0 <= i < |shards| && k in shards[i] :: k
  }

  lemma KeysNext(shards: seq<Contents>, i: nat)
    requires i < |shards|
    ensures Keys(shards[..i + 1]) == Keys(shards[..i]) + shards[i].Keys
  {
    forall k | k in Keys(shards[..i]) + shards[i].Keys ensures k in Keys(shards[..i + 1]) {
      if k in shards[i] {
        assert shards[..i + 1][i] == shards[i];
      } else {
        var j :| 0 <= j < i && k in shards[..i][j];
        assert shards[..i + 1][j] == shards[..i][j];
      }
    }
    forall k | k in Keys(shards[..i + 1]) ensures k in Keys(shards[..i]) + shards[i].Keys {
      var j :| 0 <= j < i + 1 && k in shards[..i + 1][j];
      if j < i { assert shards[..i][j] == shards[..i + 1][j]; }
    }
  }
}

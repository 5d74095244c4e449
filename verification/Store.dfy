/** What a key-value store holds after a sequence of commands. */
module Store {
  import opened Bytes
  import opened Logs

  type Contents = map<Bytes, Bytes>

  /** One command: a SET or DELETE on an empty key is refused and changes nothing. */
  function Apply(kv: Contents, op: Op, key: Bytes, value: Bytes): Contents {
    if key == [] then kv
    else match op
      case Set => kv[key := value]
      case Delete => Erase(kv, key)
  }

  function Erase(kv: Contents, key: Bytes): Contents {
    map k | k in kv && k != key :: kv[k]
  }

  function ApplyEntry(kv: Contents, e: Entry): Contents {
    Apply(kv, e.op, e.key, e.value)
  }

  function Replay(log: Log): Contents {
    if log == [] then map[] else ApplyEntry(Replay(log[..|log| - 1]), log[|log| - 1])
  }

  /** What a store that holds `kv` holds after the commands of `log`. */
  function ReplayOn(kv: Contents, log: Log): Contents {
    if log == [] then kv else ApplyEntry(ReplayOn(kv, log[..|log| - 1]), log[|log| - 1])
  }

  lemma ReplayOnNext(kv: Contents, log: Log, k: nat, n: nat)
    requires k <= n < |log|
    ensures ReplayOn(kv, log[k..n + 1]) == ApplyEntry(ReplayOn(kv, log[k..n]), log[n])
  {
    hide ApplyEntry;
    assert log[k..n + 1][..n - k] == log[k..n];
  }

  /** Replaying a log is replaying its rest on its beginning. */
  lemma {:induction false} ReplaySplit(log: Log, k: nat, n: nat)
    requires k <= n <= |log|
    ensures Replay(log[..n]) == ReplayOn(Replay(log[..k]), log[k..n])
    decreases n
  {
    hide ApplyEntry;
    if k < n {
      assert log[..n][..n - 1] == log[..n - 1] && log[k..n][..n - 1 - k] == log[k..n - 1];
      ReplaySplit(log, k, n - 1);
    }
  }

  // ----- What a reader finds

  /** Entry `i` is the last command on key `k`. */
  ghost predicate LastOn(log: Log, k: Bytes, i: nat) {
    i < |log| && log[i].key == k && forall j | i < j < |log| :: log[j].key != k
  }

  /** Some command is on key `k`. */
  ghost predicate Touched(log: Log, k: Bytes) {
    exists i :: 0 <= i < |log| && log[i].key == k
  }

  /** A key that no command is on keeps what it had. */
  lemma {:induction false} Untouched(kv: Contents, log: Log, k: Bytes)
    requires !Touched(log, k)
    ensures k in ReplayOn(kv, log) <==> k in kv
    ensures k in kv ==> ReplayOn(kv, log)[k] == kv[k]
  {
    if log != [] {
      var init, last := log[..|log| - 1], log[|log| - 1];
      assert forall i | 0 <= i < |init| :: init[i] == log[i];
      assert last.key != k;
      Untouched(kv, init, k);
    }
  }

  /** Any other key holds what the last command on it says; commands on the empty key do nothing. */
  lemma {:induction false} LastDecides(kv: Contents, log: Log, k: Bytes, i: nat)
    requires LastOn(log, k, i) && k != []
    ensures k in ReplayOn(kv, log) <==> log[i].op == Set
    ensures log[i].op == Set ==> ReplayOn(kv, log)[k] == log[i].value
    decreases |log|
  {
    var init, last := log[..|log| - 1], log[|log| - 1];
    if i < |init| {
      assert LastOn(init, k, i);
      LastDecides(kv, init, k, i);
    }
  }

  /** A key is in the replayed store exactly if it is not empty and the last command on it is a SET, and
      then it has that command's value. */
  lemma {:induction false} ReplayMeans(log: Log, k: Bytes)
    ensures k in Replay(log) <==> k != [] && exists i: nat :: LastOn(log, k, i) && log[i].op == Set
    ensures forall i: nat | LastOn(log, k, i) && k != [] && log[i].op == Set :: Replay(log)[k] == log[i].value
  {
    hide Replay, ReplayOn;
    FromEmpty(log);
    if k == [] {
      NeverEmpty(log);
    } else if Touched(log, k) {
      var i := FindLast(log, k);
      LastDecides(map[], log, k, i);
      forall j: nat | LastOn(log, k, j) ensures j == i {}
    } else {
      Untouched(map[], log, k);
      assert forall i: nat :: !LastOn(log, k, i);
    }
  }

  lemma FromEmpty(log: Log)
    ensures Replay(log) == ReplayOn(map[], log)
  {
    assert log[..|log|] == log && log[0..|log|] == log && log[..0] == [];
    ReplaySplit(log, 0, |log|);
  }

  lemma {:induction false} NeverEmpty(log: Log)
    ensures [] !in Replay(log)
  {
    if log != [] { NeverEmpty(log[..|log| - 1]); }
  }

  lemma {:induction false} FindLast(log: Log, k: Bytes) returns (i: nat)
    requires Touched(log, k)
    ensures LastOn(log, k, i)
  {
    var init := log[..|log| - 1];
    if log[|log| - 1].key == k {
      i := |log| - 1;
    } else {
      var j :| 0 <= j < |log| && log[j].key == k;
      assert init[j].key == k;
      i := FindLast(init, k);
    }
  }
}

/** Raft logs as values: agreement of prefixes, the up-to-date order used for votes,
    and the entry-by-entry merge that a follower performs on an AppendEntries request. */
module Logs {
  import opened Bytes

  datatype Op = Set | Delete

  /** One replicated command. Its index is its position plus one. */
  datatype Entry = Entry(term: nat, op: Op, key: Bytes, value: Bytes)

  type Log = seq<Entry>

  /** Both logs are at least `k` long and hold the same first `k` entries. */
  predicate Agree(a: Log, b: Log, k: int) {
    0 <= k <= |a| && k <= |b| && forall j | 0 <= j < k :: a[j] == b[j]
  }

  function LastTerm(log: Log): nat {
    if log == [] then 0 else log[|log| - 1].term
  }

  /** The candidate's log is at least as up to date as the voter's. */
  predicate UpToDate(candidate: Log, voter: Log) {
    || LastTerm(candidate) > LastTerm(voter)
    || (LastTerm(candidate) == LastTerm(voter) && |candidate| >= |voter|)
  }

  /** Wherever the two logs hold the same term at the same index, they hold the same entry there. */
  ghost predicate TermsDecide(a: Log, b: Log) {
    forall i | 0 <= i < |a| && i < |b| && a[i].term == b[i].term :: a[i] == b[i]
  }

  /** Two logs related by log matching: the same term at an index means the same log up to there. */
  ghost predicate Matching(a: Log, b: Log) {
    forall i | 0 <= i < |a| && i < |b| && a[i].term == b[i].term :: Agree(a, b, i + 1)
  }

  /** The follower's append loop: skip entries already held (same term), otherwise drop the
      tail from the conflict on and append. `at` is the zero-based position of `entries[0]`. */
  function Merge(log: Log, at: nat, entries: seq<Entry>): (r: Log)
    requires at <= |log|
    decreases |entries|
  {
    if entries == [] then log
    else if at < |log| && log[at].term == entries[0].term then Merge(log, at + 1, entries[1..])
    else Merge(log[..at] + [entries[0]], at + 1, entries[1..])
  }

  lemma MergeStep(log: Log, at: nat, entries: seq<Entry>)
    requires at <= |log|
    ensures Merge(log, at, entries) ==
      if entries == [] then log
      else if at < |log| && log[at].term == entries[0].term then Merge(log, at + 1, entries[1..])
      else Merge(log[..at] + [entries[0]], at + 1, entries[1..])
  {
  }

  /** Merging a slice of `leader` that starts inside the agreed prefix brings the log into
      agreement with `leader` up to the end of the slice, never loses a prefix the two logs
      shared, and leaves either the old log or exactly the leader's prefix. */
  lemma {:induction false} MergeFollowsLeader(log: Log, at: nat, entries: seq<Entry>, leader: Log)
    requires at + |entries| <= |leader| && entries == leader[at..at + |entries|]
    requires Agree(log, leader, at)
    requires TermsDecide(log, leader)
    ensures var r := Merge(log, at, entries);
      && Agree(r, leader, at + |entries|)
      && (r == log || r == leader[..at + |entries|])
      && forall k | Agree(log, leader, k) :: Agree(r, leader, k)
    decreases |entries|
  {
    MergeStep(log, at, entries);
    hide Merge;
    if entries != [] {
      var rest := entries[1..];
      assert rest == leader[at + 1..at + 1 + |rest|];
      assert entries[0] == leader[at];
      if at < |log| && log[at].term == entries[0].term {
        MergeFollowsLeader(log, at + 1, rest, leader);
      } else {
        var cut := log[..at] + [entries[0]];
        assert cut == leader[..at + 1];
        MergeFollowsLeader(cut, at + 1, rest, leader);
        forall k | Agree(log, leader, k) ensures Agree(Merge(log, at, entries), leader, k) {
          assert k <= at;
          assert Agree(cut, leader, k);
        }
      }
    }
  }

  /** Delivering the same request a second time changes nothing. */
  lemma {:induction false} MergeTwice(log: Log, at: nat, entries: seq<Entry>)
    requires at <= |log|
    ensures at <= |Merge(log, at, entries)|
    ensures Merge(Merge(log, at, entries), at, entries) == Merge(log, at, entries)
  {
    MergeTerms(log, at, entries);
    MergeHeld(Merge(log, at, entries), at, entries);
  }

  /** After a merge every merged position holds the term of the entry sent for it. */
  lemma {:induction false} MergeTerms(log: Log, at: nat, entries: seq<Entry>)
    requires at <= |log|
    ensures var r := Merge(log, at, entries);
      && at + |entries| <= |r|
      && r[..at] == log[..at]
      && (forall i | 0 <= i < |entries| :: r[at + i].term == entries[i].term)
    decreases |entries|
  {
    if entries != [] {
      var rest := entries[1..];
      var r := Merge(log, at, entries);
      var base := if at < |log| && log[at].term == entries[0].term then log else log[..at] + [entries[0]];
      MergeTerms(base, at + 1, rest);
      assert r[..at + 1] == base[..at + 1];
      assert r[at] == r[..at + 1][at] == base[at];
      assert r[..at] == r[..at + 1][..at] == base[..at + 1][..at] == log[..at];
      forall i | 0 <= i < |entries| ensures r[at + i].term == entries[i].term {
        if i > 0 {
          assert entries[i] == rest[i - 1];
          assert r[at + 1 + (i - 1)].term == rest[i - 1].term;
        }
      }
    }
  }

  /** A log that already holds every sent term is returned unchanged. */
  lemma {:induction false} MergeHeld(log: Log, at: nat, entries: seq<Entry>)
    requires at + |entries| <= |log|
    requires forall i | 0 <= i < |entries| :: log[at + i].term == entries[i].term
    ensures Merge(log, at, entries) == log
    decreases |entries|
  {
    if entries != [] {
      assert log[at + 0].term == entries[0].term;
      forall i | 0 <= i < |entries[1..]| ensures log[at + 1 + i].term == entries[1..][i].term {
        assert log[at + (i + 1)].term == entries[i + 1].term;
      }
      MergeHeld(log, at + 1, entries[1..]);
    }
  }
}

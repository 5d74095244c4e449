/** The index that a majority has reached. The reference definition searches downwards for it;
    the code sorts the known indices and picks one by position. */
module QuorumIndex {

  function CountAtLeast(s: seq<nat>, x: nat): nat {
    if s == [] then 0 else CountAtLeast(s[..|s| - 1], x) + (if s[|s| - 1] >= x then 1 else 0)
  }

  /** A majority of the listed indices is at least `x`, and no larger index has that property. */
  ghost predicate IsQuorumIndex(s: seq<nat>, x: nat) {
    && CountAtLeast(s, x) >= |s| / 2 + 1
    && forall y | y > x :: CountAtLeast(s, y) < |s| / 2 + 1
  }

  lemma QuorumIndexUnique(s: seq<nat>, x: nat, y: nat)
    requires IsQuorumIndex(s, x) && IsQuorumIndex(s, y)
    ensures x == y
  {
  }

  function Bound(s: seq<nat>): nat {
    if s == [] then 0 else Bound(s[..|s| - 1]) + s[|s| - 1]
  }

  lemma {:induction false} NoneBeyondBound(s: seq<nat>, x: nat)
    requires x > Bound(s)
    ensures CountAtLeast(s, x) == 0
  {
    if s != [] { NoneBeyondBound(s[..|s| - 1], x); }
  }

  lemma {:induction false} AllReachZero(s: seq<nat>)
    ensures CountAtLeast(s, 0) == |s|
  {
    if s != [] { AllReachZero(s[..|s| - 1]); }
  }

  /** The largest index a majority has reached. */
  function QuorumIndexOf(s: seq<nat>): (x: nat)
    requires |s| > 0
    ensures IsQuorumIndex(s, x)
  {
    assert forall y | y > Bound(s) :: CountAtLeast(s, y) < |s| / 2 + 1 by {
      forall y | y > Bound(s) ensures CountAtLeast(s, y) < |s| / 2 + 1 { NoneBeyondBound(s, y); }
    }
    SearchDown(s, Bound(s))
  }

  function SearchDown(s: seq<nat>, from: nat): (x: nat)
    requires |s| > 0
    requires forall y | y > from :: CountAtLeast(s, y) < |s| / 2 + 1
    ensures IsQuorumIndex(s, x)
  {
    if CountAtLeast(s, from) >= |s| / 2 + 1 then from
    else
      AllReachZero(s);
      SearchDown(s, from - 1)
  }

  // ----- The sorted list

  ghost predicate Sorted(s: seq<nat>) {
    forall i, j | 0 <= i <= j < |s| :: s[i] <= s[j]
  }

  /** The two lists have the same elements, each as often as in the other. */
  ghost predicate Permuted(s: seq<nat>, t: seq<nat>) {
    |s| == |t| && forall x :: CountAtLeast(s, x) == CountAtLeast(t, x)
  }

  lemma {:induction false} CountAppend(s: seq<nat>, e: nat, x: nat)
    ensures CountAtLeast(s + [e], x) == CountAtLeast(s, x) + (if e >= x then 1 else 0)
  {
    assert (s + [e])[..|s|] == s;
  }

  lemma {:induction false} CountInsert(s: seq<nat>, j: nat, e: nat, x: nat)
    requires j <= |s|
    ensures CountAtLeast(s[..j] + [e] + s[j..], x) == CountAtLeast(s, x) + (if e >= x then 1 else 0)
    decreases |s|
  {
    if j == |s| {
      assert s[..j] + [e] + s[j..] == s + [e];
      CountAppend(s, e, x);
    } else {
      var init, last := s[..|s| - 1], s[|s| - 1];
      assert s[..j] + [e] + s[j..] == (init[..j] + [e] + init[j..]) + [last];
      CountAppend(init[..j] + [e] + init[j..], last, x);
      CountInsert(init, j, e, x);
    }
  }

  /** Insertion sort, standing in for the library sort. */
  method Sort(s: seq<nat>) returns (r: seq<nat>)
    ensures Sorted(r) && Permuted(r, s)
  {
    r := [];
    for k := 0 to |s|
      invariant Sorted(r) && Permuted(r, s[..k])
    {
      var j := |r|;
      while j > 0 && r[j - 1] > s[k]
        invariant 0 <= j <= |r|
        invariant forall i | j <= i < |r| :: r[i] > s[k]
      {
        j := j - 1;
      }
      InsertSorted(r, j, s[k], s[..k]);
      assert s[..k + 1] == s[..k] + [s[k]];
      r := r[..j] + [s[k]] + r[j..];
    }
    assert s[..|s|] == s;
  }

  lemma InsertSorted(r: seq<nat>, j: nat, e: nat, s: seq<nat>)
    requires Sorted(r) && Permuted(r, s) && j <= |r|
    requires j > 0 ==> r[j - 1] <= e
    requires forall i | j <= i < |r| :: r[i] > e
    ensures Sorted(r[..j] + [e] + r[j..])
    ensures Permuted(r[..j] + [e] + r[j..], s + [e])
  {
    forall x: nat ensures CountAtLeast(r[..j] + [e] + r[j..], x) == CountAtLeast(s + [e], x) {
      CountInsert(r, j, e, x);
      CountAppend(s, e, x);
    }
  }

  lemma {:induction false} CountFrom(s: seq<nat>, x: nat, k: nat)
    requires k <= |s| && forall i | k <= i < |s| :: s[i] >= x
    ensures CountAtLeast(s, x) >= |s| - k
    decreases |s|
  {
    if k < |s| { CountFrom(s[..|s| - 1], x, k); }
  }

  lemma {:induction false} CountBelow(s: seq<nat>, x: nat, k: nat)
    requires k <= |s| && forall i | 0 <= i < k :: s[i] < x
    ensures CountAtLeast(s, x) <= |s| - k
    decreases |s|
  {
    if s != [] { CountBelow(s[..|s| - 1], x, if k < |s| then k else |s| - 1); }
  }

  /** The element the code picks is exactly the largest index a majority has reached. */
  method FindQuorumIndex(indices: seq<nat>) returns (x: nat)
    requires |indices| > 0
    ensures IsQuorumIndex(indices, x)
    ensures x == QuorumIndexOf(indices)
  {
    var sorted := Sort(indices);
    var majority := |sorted| / 2 + 1;
    var k := |sorted| - majority;
    x := sorted[k];
    CountFrom(sorted, x, k);
    forall y | y > x ensures CountAtLeast(indices, y) < |indices| / 2 + 1 {
      CountBelow(sorted, y, k + 1);
    }
    QuorumIndexUnique(indices, x, QuorumIndexOf(indices));
  }
}

/** The single-key linearizability checker, and what exactly a passing history is. */
module Linearizability {
  import opened Bytes

  datatype Kind = SetOp | GetOp

  /** One operation: what it wrote or saw, whether it succeeded, and its real-time interval. */
  datatype Operation = Operation(client: int, kind: Kind, value: Bytes, ok: bool, start: nat, end: nat)

  type History = seq<Operation>

  datatype Verdict = Consistent | NeverWritten(at: nat) | Stale(at: nat)

  predicate OkSet(h: History, i: nat) {
    i < |h| && h[i].kind == SetOp && h[i].ok
  }

  predicate OkGet(h: History, i: nat) {
    i < |h| && h[i].kind == GetOp && h[i].ok
  }

  predicate Written(h: History, value: Bytes) {
    exists s | 0 <= s < |h| :: OkSet(h, s) && h[s].value == value
  }

  /** Write `w` may have taken effect before `g` returned. */
  predicate Candidate(w: Operation, g: Operation) {
    w.end <= g.start || (w.start < g.end && w.end > g.start)
  }

  /** Some other write came wholly between `w` and `g`. */
  predicate Superseded(h: History, w: nat, g: nat)
    requires w < |h| && g < |h|
  {
    exists w2 | 0 <= w2 < |h| :: OkSet(h, w2) && w2 != w && h[w].end <= h[w2].start && h[w2].end <= h[g].start
  }

  /** Write `w` explains read `g`. */
  predicate Explains(h: History, w: nat, g: nat) {
    && OkSet(h, w) && g < |h| && h[w].value == h[g].value
    && Candidate(h[w], h[g]) && !Superseded(h, w, g)
  }

  predicate ReadFits(h: History, g: nat) {
    exists w | 0 <= w < |h| :: Explains(h, w, g)
  }

  ghost predicate Passes(h: History) {
    forall g | OkGet(h, g) :: ReadFits(h, g)
  }

  // ----- The checker

  class Checker {
    var history: History

    constructor ()
      ensures history == []
    {
      history := [];
    }

    method Record(op: Operation)
      modifies this
      ensures history == old(history) + [op]
    {
      history := history + [op];
    }

    /** The nested loops over the recorded operations. */
    method Check() returns (verdict: Verdict)
      ensures verdict == Consistent <==> Passes(history)
      ensures verdict.NeverWritten? ==> OkGet(history, verdict.at) && !Written(history, history[verdict.at].value)
      ensures verdict.Stale? ==>
        OkGet(history, verdict.at) && Written(history, history[verdict.at].value) && !ReadFits(history, verdict.at)
    {
      var h := history;
      var sets := CollectSets();
      for g := 0 to |h|
        invariant forall j | 0 <= j < g && OkGet(h, j) :: ReadFits(h, j)
      {
        if h[g].kind != GetOp || !h[g].ok { continue; }
        var everWritten := false;
        for i := 0 to |sets|
          invariant !everWritten && forall j | 0 <= j < i :: h[sets[j]].value != h[g].value
        {
          if h[sets[i]].value == h[g].value {
            everWritten := true;
            break;
          }
        }
        if !everWritten {
          assert OkGet(h, g) && !ReadFits(h, g);
          return NeverWritten(g);
        }
        var valid := FindWrite(sets, g);
        if !valid {
          assert OkGet(h, g) && !ReadFits(h, g);
          return Stale(g);
        }
      }
      return Consistent;
    }

    method CollectSets() returns (sets: seq<nat>)
      ensures forall s: nat :: s in sets <==> OkSet(history, s)
      ensures forall j | 0 <= j < |sets| :: OkSet(history, sets[j])
    {
      sets := [];
      for i := 0 to |history|
        invariant forall s: nat :: s in sets <==> s < i && OkSet(history, s)
      {
        if history[i].kind == SetOp && history[i].ok { sets := sets + [i]; }
      }
    }

    /** Look for a write that explains read `g`. */
    method FindWrite(sets: seq<nat>, g: nat) returns (valid: bool)
      requires g < |history| && forall s: nat :: s in sets <==> OkSet(history, s)
      requires forall j | 0 <= j < |sets| :: OkSet(history, sets[j])
      ensures valid == ReadFits(history, g)
    {
      var h := history;
      for i := 0 to |sets|
        invariant forall j | 0 <= j < i :: !Explains(h, sets[j], g)
      {
        var w := sets[i];
        if h[w].value != h[g].value { continue; }
        if !(h[w].end <= h[g].start || (h[w].start < h[g].end && h[w].end > h[g].start)) { continue; }
        var superseded := false;
        for k := 0 to |sets|
          invariant !superseded
          invariant forall j | 0 <= j < k ::
            !(sets[j] != w && h[w].end <= h[sets[j]].start && h[sets[j]].end <= h[g].start)
        {
          var w2 := sets[k];
          if w2 == w { continue; }
          if h[w].end <= h[w2].start && h[w2].end <= h[g].start {
            superseded := true;
            break;
          }
        }
        if !superseded {
          assert !Superseded(h, w, g);
          assert Explains(h, w, g);
          return true;
        }
      }
      return false;
    }
  }

  // ----- Linearizations

  /** The operations `a` and `b` do not have to be the other way round. */
  predicate MayPrecede(a: Operation, b: Operation) {
    !(b.end <= a.start)
  }

  /** The read at position `p` sees the last write before it. */
  ghost predicate SeesLatest(h: History, order: seq<nat>, p: nat)
    requires p < |order| && forall k | 0 <= k < |order| :: order[k] < |h|
  {
    exists s | 0 <= s < p ::
      && h[order[s]].kind == SetOp && h[order[s]].value == h[order[p]].value
      && forall k | s < k < p :: h[order[k]].kind != SetOp
  }

  /** `order` puts exactly the operations `ops` one after the other, in keeping with real time, so
      that every read sees the last write before it. */
  ghost predicate Linearizes(h: History, ops: set<nat>, order: seq<nat>) {
    && (forall i :: i in order <==> i in ops)
    && (forall k | 0 <= k < |order| :: order[k] < |h|)
    && (forall p, q | 0 <= p < q < |order| :: order[p] != order[q] && MayPrecede(h[order[p]], h[order[q]]))
    && (forall p | 0 <= p < |order| && h[order[p]].kind == GetOp :: SeesLatest(h, order, p))
  }

  ghost function OkSets(h: History): set<nat> {
    set i | 0 <= i < |h| && OkSet(h, i)
  }

  ghost function OkOps(h: History): set<nat> {
    set i | 0 <= i < |h| && h[i].ok
  }

  /** In a linearization of all writes and more, the write a read sees explains it. */
  lemma LinearizedReadFits(h: History, ops: set<nat>, order: seq<nat>, g: nat)
    requires Linearizes(h, ops, order) && OkSets(h) <= ops && ops <= OkOps(h) && g in ops && OkGet(h, g)
    ensures ReadFits(h, g)
  {
    var p :| 0 <= p < |order| && order[p] == g;
    assert SeesLatest(h, order, p);
    var s :| 0 <= s < p && h[order[s]].kind == SetOp && h[order[s]].value == h[order[p]].value
      && forall k | s < k < p :: h[order[k]].kind != SetOp;
    var w := order[s];
    assert OkSet(h, w) by { assert w in ops; }
    assert MayPrecede(h[w], h[g]);
    forall w2 | 0 <= w2 < |h| && OkSet(h, w2) && w2 != w
      ensures !(h[w].end <= h[w2].start && h[w2].end <= h[g].start)
    {
      assert w2 in order;
      var q :| 0 <= q < |order| && order[q] == w2;
      assert q < s || q > p;
      assert q < s ==> MayPrecede(h[w2], h[w]);
      assert q > p ==> MayPrecede(h[g], h[w2]);
    }
    assert Explains(h, w, g);
  }

  /** The checker raises no false alarm: a history whose successful operations can be linearized
      passes. */
  lemma NoFalseAlarm(h: History, order: seq<nat>)
    requires Linearizes(h, OkOps(h), order)
    ensures Passes(h)
  {
    forall g | OkGet(h, g) ensures ReadFits(h, g) {
      LinearizedReadFits(h, OkOps(h), order, g);
    }
  }

  // ----- What passing means exactly

  /** Every successful operation takes time. */
  ghost predicate Timed(h: History) {
    forall i | 0 <= i < |h| && h[i].ok :: h[i].start < h[i].end
  }

  /** The given operations in order of completion. */
  ghost predicate ByEnd(h: History, ops: set<nat>, order: seq<nat>) {
    && (forall i :: i in order <==> i in ops)
    && (forall k | 0 <= k < |order| :: order[k] < |h|)
    && (forall p, q | 0 <= p < q < |order| :: order[p] != order[q] && h[order[p]].end <= h[order[q]].end)
  }

  lemma {:induction false} SortByEnd(h: History, ops: set<nat>) returns (order: seq<nat>)
    requires forall i | i in ops :: i < |h|
    ensures ByEnd(h, ops, order)
    decreases |ops|
  {
    order := [];
    if ops != {} {
      var last := Latest(h, ops);
      var front := SortByEnd(h, ops - {last});
      order := front + [last];
      forall i ensures i in order <==> i in ops { assert i in front <==> i in ops - {last}; }
      forall p, q | 0 <= p < q < |order| ensures order[p] != order[q] && h[order[p]].end <= h[order[q]].end {
        assert order[p] == front[p] && front[p] in front;
      }
    }
  }

  lemma {:induction false} Latest(h: History, ops: set<nat>) returns (last: nat)
    requires ops != {} && forall i | i in ops :: i < |h|
    ensures last in ops && forall i | i in ops :: h[i].end <= h[last].end
    decreases |ops|
  {
    var one :| one in ops;
    last := one;
    if ops - {one} != {} {
      var other := Latest(h, ops - {one});
      if h[other].end > h[one].end { last := other; }
    }
    assert forall i | i in ops :: i == one || i in ops - {one};
  }

  /** The writes that have to come before `w` or before `g`. */
  ghost function Earlier(h: History, w: nat, g: nat): set<nat>
    requires w < |h| && g < |h|
  {
    set i | i in OkSets(h) && i != w && (h[i].end <= h[g].start || h[i].end <= h[w].start)
  }

  /** All writes and one read, with the write that explains the read right before it. */
  lemma ExplainedReadLinearizes(h: History, w: nat, g: nat) returns (order: seq<nat>)
    requires Timed(h) && OkGet(h, g) && Explains(h, w, g)
    ensures Linearizes(h, OkSets(h) + {g}, order)
  {
    var early := Earlier(h, w, g);
    var front := SortByEnd(h, early);
    var back := SortByEnd(h, OkSets(h) - early - {w});
    order := front + [w, g] + back;
    forall i ensures i in order <==> i in OkSets(h) + {g} {
      assert i in order <==> i in front || i == w || i == g || i in back;
    }
    Parts(h, front, w, g, back);
  }

  /** Where an operation goes: the earlier writes, then `w`, then `g`, then the other writes. */
  ghost function Zone(h: History, w: nat, g: nat, i: nat): nat
    requires w < |h| && g < |h|
  {
    if i in Earlier(h, w, g) then 0 else if i == w then 1 else if i == g then 2 else 3
  }

  /** Real time never asks for the opposite order of two zones. */
  lemma ZonesInOrder(h: History, w: nat, g: nat, a: nat, b: nat)
    requires Timed(h) && OkGet(h, g) && Explains(h, w, g)
    requires a in OkSets(h) + {g} && b in OkSets(h) + {g} && Zone(h, w, g, a) < Zone(h, w, g, b)
    ensures a != b && MayPrecede(h[a], h[b])
  {
    if a in Earlier(h, w, g) && b == w && h[a].end <= h[g].start {
      assert !(h[w].end <= h[a].start);
    }
  }

  lemma Parts(h: History, front: seq<nat>, w: nat, g: nat, back: seq<nat>)
    requires Timed(h) && OkGet(h, g) && Explains(h, w, g)
    requires ByEnd(h, Earlier(h, w, g), front) && ByEnd(h, OkSets(h) - Earlier(h, w, g) - {w}, back)
    ensures var order := front + [w, g] + back;
      && (forall k | 0 <= k < |order| :: order[k] < |h|)
      && (forall p, q | 0 <= p < q < |order| :: order[p] != order[q] && MayPrecede(h[order[p]], h[order[q]]))
      && (forall p | 0 <= p < |order| && h[order[p]].kind == GetOp :: SeesLatest(h, order, p))
  {
    var order := front + [w, g] + back;
    var n := |front|;
    assert order[n] == w && order[n + 1] == g;
    forall k | 0 <= k < |order|
      ensures order[k] in OkSets(h) + {g}
      ensures Zone(h, w, g, order[k]) == if k < n then 0 else if k == n then 1 else if k == n + 1 then 2 else 3
    {
      if k < n {
        assert order[k] == front[k] && front[k] in front;
      } else if k > n + 1 {
        assert order[k] == back[k - n - 2] && back[k - n - 2] in back;
      }
    }
    forall p, q | 0 <= p < q < |order| ensures order[p] != order[q] && MayPrecede(h[order[p]], h[order[q]]) {
      if Zone(h, w, g, order[p]) < Zone(h, w, g, order[q]) {
        ZonesInOrder(h, w, g, order[p], order[q]);
      } else if q < n {
        assert order[p] == front[p] && order[q] == front[q];
      } else {
        assert order[p] == back[p - n - 2] && order[q] == back[q - n - 2];
      }
    }
    assert SeesLatest(h, order, n + 1);
  }

  /** A history passes exactly if every successful read, taken alone with all the successful writes,
      can be linearized. */
  lemma PassesIffEachReadLinearizes(h: History)
    requires Timed(h)
    ensures Passes(h) <==> forall g | OkGet(h, g) :: exists order :: Linearizes(h, OkSets(h) + {g}, order)
  {
    forall g | OkGet(h, g)
      ensures ReadFits(h, g) <==> exists order :: Linearizes(h, OkSets(h) + {g}, order)
    {
      if ReadFits(h, g) {
        var w :| 0 <= w < |h| && Explains(h, w, g);
        var order := ExplainedReadLinearizes(h, w, g);
      } else if exists order :: Linearizes(h, OkSets(h) + {g}, order) {
        var order :| Linearizes(h, OkSets(h) + {g}, order);
        LinearizedReadFits(h, OkSets(h) + {g}, order, g);
      }
    }
  }

  // ----- Two limits

  const A: Bytes := [97]
  const B: Bytes := [98]

  /** Two overlapping writes, then one read of each value in turn. */
  const FLICKER: History := [
    Operation(1, SetOp, A, true, 0, 2),
    Operation(2, SetOp, B, true, 1, 3),
    Operation(3, GetOp, A, true, 4, 5),
    Operation(3, GetOp, B, true, 6, 7)]

  /** A passing history need not be linearizable as a whole, since each read is judged alone. */
  lemma PassingIsNotLinearizable()
    ensures Passes(FLICKER) && !exists order :: Linearizes(FLICKER, OkOps(FLICKER), order)
  {
    var h := FLICKER;
    assert Explains(h, 0, 2) && Explains(h, 1, 3);
    forall order ensures !Linearizes(h, OkOps(h), order) {
      FlickerHasNoOrder(order);
    }
  }

  lemma FlickerHasNoOrder(order: seq<nat>)
    ensures !Linearizes(FLICKER, OkOps(FLICKER), order)
  {
    if Linearizes(FLICKER, OkOps(FLICKER), order) {
      assert 0 in order && 1 in order && 2 in order && 3 in order;
      var a :| 0 <= a < |order| && order[a] == 0;
      var b :| 0 <= b < |order| && order[b] == 1;
      var g :| 0 <= g < |order| && order[g] == 2;
      var k :| 0 <= k < |order| && order[k] == 3;
      Before(order, a, g);
      Before(order, b, g);
      Before(order, g, k);
      SawLatest(order, g, a, b);
      SawLatest(order, k, b, a);
      assert false;
    }
  }

  lemma Before(order: seq<nat>, p: nat, q: nat)
    requires Linearizes(FLICKER, OkOps(FLICKER), order) && p < |order| && q < |order| && p != q
    requires FLICKER[order[p]].end <= FLICKER[order[q]].start
    ensures p < q
  {
    assert q < p ==> MayPrecede(FLICKER[order[q]], FLICKER[order[p]]);
  }

  /** A read of the value of write `s` has the other write before it. */
  lemma SawLatest(order: seq<nat>, p: nat, s: nat, other: nat)
    requires Linearizes(FLICKER, OkOps(FLICKER), order) && s < p < |order| && other < p && order[p] >= 2
    requires (order[s] == 0 && order[other] == 1) || (order[s] == 1 && order[other] == 0)
    requires FLICKER[order[p]].value == FLICKER[order[s]].value
    ensures other < s
  {
    assert SeesLatest(FLICKER, order, p);
    var l :| 0 <= l < p && FLICKER[order[l]].kind == SetOp && FLICKER[order[l]].value == FLICKER[order[p]].value
      && forall k | l < k < p :: FLICKER[order[k]].kind != SetOp;
    assert order[l] == order[s];
    assert l == s;
  }

  // ----- Operations without a reply

  function Remove(h: History, i: nat): History
    requires i < |h|
  {
    h[..i] + h[i + 1..]
  }

  /** Where position `j` of the shorter history lies in the longer one. */
  function Place(i: nat, j: nat): nat {
    if j < i then j else j + 1
  }

  lemma PlaceOf(h: History, i: nat, j: nat)
    requires i < |h| && j < |Remove(h, i)|
    ensures Place(i, j) < |h| && Remove(h, i)[j] == h[Place(i, j)] && Place(i, j) != i
  {
  }

  /** Every other position is the place of some position. */
  function PlacedFrom(h: History, i: nat, k: nat): (j: nat)
    requires i < |h| && k < |h| && k != i
    ensures j < |Remove(h, i)| && Place(i, j) == k
  {
    if k < i then k else k - 1
  }

  lemma SupersededSame(h: History, i: nat, w: nat, g: nat)
    requires i < |h| && !h[i].ok && w < |Remove(h, i)| && g < |Remove(h, i)|
    ensures Place(i, w) < |h| && Place(i, g) < |h|
    ensures Superseded(Remove(h, i), w, g) <==> Superseded(h, Place(i, w), Place(i, g))
  {
    var k := Remove(h, i);
    PlaceOf(h, i, w);
    PlaceOf(h, i, g);
    if Superseded(k, w, g) {
      var w2 :| 0 <= w2 < |k| && OkSet(k, w2) && w2 != w && k[w].end <= k[w2].start && k[w2].end <= k[g].start;
      PlaceOf(h, i, w2);
      assert OkSet(h, Place(i, w2));
    }
    if Superseded(h, Place(i, w), Place(i, g)) {
      var w2 :| 0 <= w2 < |h| && OkSet(h, w2) && w2 != Place(i, w)
        && h[Place(i, w)].end <= h[w2].start && h[w2].end <= h[Place(i, g)].start;
      var j := PlacedFrom(h, i, w2);
      PlaceOf(h, i, j);
      assert OkSet(k, j);
    }
  }

  lemma ReadFitsSame(h: History, i: nat, g: nat)
    requires i < |h| && !h[i].ok && g < |Remove(h, i)|
    ensures ReadFits(Remove(h, i), g) <==> ReadFits(h, Place(i, g))
  {
    hide Superseded;
    var k := Remove(h, i);
    PlaceOf(h, i, g);
    if ReadFits(k, g) {
      var w :| 0 <= w < |k| && Explains(k, w, g);
      PlaceOf(h, i, w);
      SupersededSame(h, i, w, g);
      assert Explains(h, Place(i, w), Place(i, g));
    }
    if ReadFits(h, Place(i, g)) {
      var v :| 0 <= v < |h| && Explains(h, v, Place(i, g));
      var w := PlacedFrom(h, i, v);
      PlaceOf(h, i, w);
      SupersededSame(h, i, w, g);
      assert Explains(k, w, g);
    }
  }

  /** The checker ignores every operation without a reply, in particular a write that may have taken
      effect: a read of a value that no other write wrote raises an alarm. */
  lemma NoReplyIsIgnored(h: History, i: nat)
    requires i < |h| && !h[i].ok
    ensures Passes(Remove(h, i)) <==> Passes(h)
    ensures forall g: nat | OkGet(h, g) && h[g].value == h[i].value && !Written(h, h[i].value) :: !Passes(h)
  {
    forall g: nat | OkGet(h, g) && h[g].value == h[i].value && !Written(h, h[i].value) ensures !Passes(h) {
      assert !ReadFits(h, g);
    }
    hide ReadFits;
    var k := Remove(h, i);
    forall g: nat | g < |k| ensures Place(i, g) < |h| && (OkGet(k, g) <==> OkGet(h, Place(i, g)))
      && (ReadFits(k, g) <==> ReadFits(h, Place(i, g)))
    {
      PlaceOf(h, i, g);
      ReadFitsSame(h, i, g);
    }
    if Passes(k) {
      forall g | OkGet(h, g) ensures ReadFits(h, g) { assert OkGet(k, PlacedFrom(h, i, g)); }
    }
  }
}

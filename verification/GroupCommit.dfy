/** Durable writes by many threads: append, group commit, and the barrier that applies writes in
    log order. Each step is one region of code that holds the writer's or the apply mutex. */
module GroupCommit {
  import opened Bytes
  import opened Logs
  import opened Options
  import opened Store
  import opened WalRecord
  import opened WalLog
  import W = WalWriter
  import opened RaftLog

  type ThreadId = nat

  /** Why a thread is in Sync: for a write of its own, or called directly. */
  datatype Job = Write(entry: Entry) | SyncOnly

  datatype Thread =
    | Arriving(index: nat, job: Job)
    | Waiting(index: nat, job: Job)
    | Batching(index: nat, job: Job, observed: nat, turns: nat)
    | Returned(index: nat, job: Job, lastThen: nat, syncedThen: nat)

  datatype State = State(
    records: seq<Record>,
    synced: nat,
    flushing: bool,
    applied: nat,
    kv: Contents,
    threads: map<ThreadId, Thread>,
    // Acknowledged writes; no step reads them
    acked: set<(nat, Entry)>)

  datatype Step =
    | Append(t: ThreadId, op: Op, key: Bytes, value: Bytes)
    | CallSync(t: ThreadId, index: nat)
    | Enter(t: ThreadId, late: bool)
    | Wake(t: ThreadId, late: bool)
    | Tick(t: ThreadId, late: bool)
    | Apply(t: ThreadId)
    | Leave(t: ThreadId)

  function Init(found: seq<Record>): State {
    State(found, |found|, false, |found|, Replay(Entries(found)), map[], {})
  }

  predicate Enabled(s: State, step: Step) {
    match step
    case Append(t, op, key, value) => t !in s.threads && key != [] && (op == Set ==> value != [])
    case CallSync(t, _) => t !in s.threads
    case Enter(t, _) => t in s.threads && s.threads[t].Arriving?
    case Wake(t, _) => t in s.threads && s.threads[t].Waiting? && (s.synced >= s.threads[t].index || !s.flushing)
    case Tick(t, _) => t in s.threads && s.threads[t].Batching?
    case Apply(t) =>
      && t in s.threads && s.threads[t].Returned? && s.threads[t].job.Write?
      && s.threads[t].index == s.applied + 1
    case Leave(t) => t in s.threads && s.threads[t].Returned? && s.threads[t].job.SyncOnly?
  }

  function After(s: State, step: Step): State
    requires Enabled(s, step)
  {
    match step
    case Append(t, op, key, value) =>
      var index := |s.records| + 1;
      s.(records := s.records + [Record(0, index, op, key, value)],
         threads := s.threads[t := Arriving(index, Write(Entry(0, op, key, value)))])
    case CallSync(t, index) => s.(threads := s.threads[t := Arriving(index, SyncOnly)])
    case Enter(t, late) =>
      var th := s.threads[t];
      if s.synced >= th.index then Return(s, t, th)
      else if s.flushing then s.(threads := s.threads[t := Waiting(th.index, th.job)])
      else Lead(s, t, th, late)
    case Wake(t, late) =>
      var th := s.threads[t];
      if s.synced >= th.index then Return(s, t, th) else Lead(s, t, th, late)
    case Tick(t, late) =>
      var th := s.threads[t];
      if |s.records| == th.observed then Flush(s, t, th) else Window(s, t, th, late, th.turns + 1)
    case Apply(t) =>
      var th := s.threads[t];
      s.(kv := ApplyEntry(s.kv, th.job.entry), applied := th.index, threads := Without(s.threads, t),
         acked := s.acked + {(th.index, th.job.entry)})
    case Leave(t) => s.(threads := Without(s.threads, t))
  }

  function Return(s: State, t: ThreadId, th: Thread): State {
    s.(threads := s.threads[t := Returned(th.index, th.job, |s.records|, s.synced)])
  }

  /** Become the batch leader. */
  function Lead(s: State, t: ThreadId, th: Thread, late: bool): State {
    Window(s.(flushing := true), t, th, late, 1)
  }

  /** The head of the window loop: wait another tick, or flush. */
  function Window(s: State, t: ThreadId, th: Thread, late: bool, turns: nat): State {
    if |s.records| - s.synced < W.MAX_BATCH && !late then
      s.(threads := s.threads[t := Batching(th.index, th.job, |s.records|, turns)])
    else Flush(s, t, th)
  }

  /** One fsync for everything written so far. */
  function Flush(s: State, t: ThreadId, th: Thread): State {
    Return(s.(synced := |s.records|, flushing := false), t, th)
  }

  function Without(threads: map<ThreadId, Thread>, t: ThreadId): map<ThreadId, Thread> {
    map k | k in threads && k != t :: threads[k]
  }

  /** The state after the given steps, if each is enabled where it is taken. */
  function Run(found: seq<Record>, steps: seq<Step>): Option<State> {
    if steps == [] then Some(Init(found))
    else
      match Run(found, steps[..|steps| - 1])
      case None => None
      case Some(s) => if Enabled(s, steps[|steps| - 1]) then Some(After(s, steps[|steps| - 1])) else None
  }

  // ----- What every step keeps

  /** What holds of one thread. */
  ghost predicate ThreadOk(s: State, th: Thread) {
    && (th.job.Write? ==>
      s.applied < th.index <= |s.records| && EntryOf(s.records[th.index - 1]) == th.job.entry)
    && match th
       case Arriving(_, _) => true
       case Waiting(index, job) => job.Write? ==> s.flushing || s.synced >= index
       case Batching(index, job, observed, turns) =>
         && s.flushing && s.synced <= observed <= |s.records| && observed < s.synced + W.MAX_BATCH
         && 0 < turns <= observed - s.synced + (if job.Write? then 0 else 1)
         && (job.Write? ==> index <= observed)
       case Returned(index, job, lastThen, syncedThen) =>
         && syncedThen <= s.synced && lastThen <= |s.records|
         && (syncedThen >= index <==> lastThen >= index)
         && (job.Write? ==> index <= s.synced)
  }

  /** Two threads never share a record, and never batch together. */
  ghost predicate PairOk(a: Thread, b: Thread) {
    && (a.job.Write? && b.job.Write? ==> a.index != b.index)
    && !(a.Batching? && b.Batching?)
  }

  /** Some thread is writing record `j`. */
  ghost predicate Owned(s: State, j: nat) {
    exists t :: t in s.threads && s.threads[t].job.Write? && s.threads[t].index == j
  }

  ghost predicate Inv(s: State) {
    && Numbered(s.records) && s.applied <= s.synced <= |s.records|
    && s.kv == Replay(Entries(s.records[..s.applied]))
    && (forall t {:trigger s.threads[t]} | t in s.threads :: ThreadOk(s, s.threads[t]))
    && (forall t, u {:trigger s.threads[t], s.threads[u]} | t in s.threads && u in s.threads && t != u :: PairOk(s.threads[t], s.threads[u]))
    && (s.flushing ==> exists t :: t in s.threads && s.threads[t].Batching?)
    && (forall j {:trigger Owned(s, j)} | s.applied < j <= |s.records| :: Owned(s, j))
    && (forall a | a in s.acked :: 0 < a.0 <= s.applied && EntryOf(s.records[a.0 - 1]) == a.1)
  }

  lemma InitInv(found: seq<Record>)
    requires Numbered(found)
    ensures Inv(Init(found))
  {
    assert found[..|found|] == found;
  }

  lemma AppendKeeps(s: State, t: ThreadId, op: Op, key: Bytes, value: Bytes)
    requires Inv(s) && Enabled(s, Append(t, op, key, value))
    ensures Inv(After(s, Append(t, op, key, value)))
  {
    hide Replay, Entries, ThreadOk, PairOk;
    var d := After(s, Append(t, op, key, value));
    assert d.records[..d.applied] == s.records[..s.applied];
    forall u | u in d.threads ensures ThreadOk(d, d.threads[u]) {
      AppendedOk(s, d, t, u);
    }
    forall u, v | u in d.threads && v in d.threads && u != v ensures PairOk(d.threads[u], d.threads[v]) {
      if u == t { AppendedApart(s, d.threads[t], s.threads[v]); }
      if v == t { AppendedApart(s, d.threads[t], s.threads[u]); }
    }
    forall j | d.applied < j <= |d.records| ensures Owned(d, j) {
      if j == |d.records| {
        assert d.threads[t].index == j;
      } else {
        assert Owned(s, j);
        var u :| u in s.threads && s.threads[u].job.Write? && s.threads[u].index == j;
        assert d.threads[u] == s.threads[u];
      }
    }
    StillBatching(s, d);
  }

  lemma AppendedOk(s: State, d: State, t: ThreadId, u: ThreadId)
    requires u in d.threads && |d.records| == |s.records| + 1 && s.records == d.records[..|s.records|]
    requires s.applied <= |s.records| && t in d.threads && d.threads[t].Arriving? && d.threads[t].index == |d.records|
    requires d.threads[t].job == Write(EntryOf(d.records[|s.records|]))
    requires d.applied == s.applied && d.synced == s.synced && d.flushing == s.flushing
    requires u != t ==> ThreadOk(s, d.threads[u])
    ensures ThreadOk(d, d.threads[u])
  {
    if u != t && d.threads[u].job.Write? {
      assert s.records[d.threads[u].index - 1] == d.records[d.threads[u].index - 1];
    }
  }

  lemma AppendedApart(s: State, a: Thread, b: Thread)
    requires a.Arriving? && a.index == |s.records| + 1 && ThreadOk(s, b)
    ensures PairOk(a, b) && PairOk(b, a)
  {
  }

  /** One thread moves on with the same job, and the flags with it. */
  ghost predicate Moves(s: State, d: State, t: ThreadId, th: Thread) {
    && t in s.threads && th.index == s.threads[t].index && th.job == s.threads[t].job
    && d == s.(threads := s.threads[t := th], synced := d.synced, flushing := d.flushing)
    && s.synced <= d.synced <= |s.records|
  }

  /** Such a move keeps the invariant if the thread fits its new place, no one else is batching when
      it starts or ends a batch, and waiting writers stay covered. */
  lemma MoveKeeps(s: State, d: State, t: ThreadId, th: Thread)
    requires Inv(s) && Moves(s, d, t, th) && ThreadOk(d, th)
    requires d.synced != s.synced || d.flushing != s.flushing || th.Batching? ==>
      forall u | u in s.threads && u != t :: !s.threads[u].Batching?
    requires d.flushing ==> th.Batching? || (s.flushing && !s.threads[t].Batching?)
    requires s.flushing && !d.flushing ==> d.synced == |s.records|
    ensures Inv(d)
  {
    hide Replay, Entries, ThreadOk;
    forall u | u in d.threads ensures ThreadOk(d, d.threads[u]) {
      if u != t { BystanderOk(s, d, s.threads[u]); }
    }
    forall u, v | u in d.threads && v in d.threads && u != v ensures PairOk(d.threads[u], d.threads[v]) {
      assert PairOk(s.threads[u], s.threads[v]);
    }
    forall j | d.applied < j <= |d.records| ensures Owned(d, j) {
      assert Owned(s, j);
      var u :| u in s.threads && s.threads[u].job.Write? && s.threads[u].index == j;
      assert d.threads[u].job.Write? && d.threads[u].index == j;
    }
    if d.flushing {
      if th.Batching? {
        assert d.threads[t].Batching?;
      } else {
        var u :| u in s.threads && s.threads[u].Batching?;
        assert d.threads[u] == s.threads[u];
      }
    }
  }

  lemma BystanderOk(s: State, d: State, th: Thread)
    requires ThreadOk(s, th) && d.records == s.records && d.applied == s.applied
    requires s.synced <= d.synced <= |s.records| && (s.flushing && !d.flushing ==> d.synced == |s.records|)
    requires th.Batching? ==> d.synced == s.synced && d.flushing == s.flushing
    ensures ThreadOk(d, th)
  {
  }

  lemma OthersIdle(s: State, t: ThreadId)
    requires Inv(s) && t in s.threads && (!s.flushing || s.threads[t].Batching?)
    ensures forall u | u in s.threads && u != t :: !s.threads[u].Batching?
  {
    forall u | u in s.threads && u != t ensures !s.threads[u].Batching? {
      assert ThreadOk(s, s.threads[u]) && PairOk(s.threads[t], s.threads[u]);
    }
  }

  lemma EnterKeeps(s: State, t: ThreadId, late: bool)
    requires Inv(s) && Enabled(s, Enter(t, late))
    ensures Inv(After(s, Enter(t, late)))
  {
    hide Inv;
    var th, d := s.threads[t], After(s, Enter(t, late));
    AtThread(s, t);
    if s.synced >= th.index || s.flushing {
      MoveKeeps(s, d, t, d.threads[t]);
    } else {
      OthersIdle(s, t);
      MoveKeeps(s, d, t, d.threads[t]);
    }
  }

  lemma AtThread(s: State, t: ThreadId)
    requires Inv(s) && t in s.threads
    ensures ThreadOk(s, s.threads[t]) && s.applied <= s.synced <= |s.records|
  {
  }

  /** A writer that was waiting is always covered when it wakes: the flush it waited for was taken
      after its record was written. Only a direct caller can wake uncovered. */
  lemma WokenWriterIsCovered(s: State, t: ThreadId, late: bool)
    requires Inv(s) && Enabled(s, Wake(t, late)) && s.threads[t].job.Write?
    ensures s.synced >= s.threads[t].index
  {
    AtThread(s, t);
  }

  lemma WakeKeeps(s: State, t: ThreadId, late: bool)
    requires Inv(s) && Enabled(s, Wake(t, late))
    ensures Inv(After(s, Wake(t, late)))
  {
    hide Inv;
    var th, d := s.threads[t], After(s, Wake(t, late));
    AtThread(s, t);
    if s.synced < th.index { OthersIdle(s, t); }
    MoveKeeps(s, d, t, d.threads[t]);
  }

  lemma TickKeeps(s: State, t: ThreadId, late: bool)
    requires Inv(s) && Enabled(s, Tick(t, late))
    ensures Inv(After(s, Tick(t, late)))
  {
    hide Inv;
    var d := After(s, Tick(t, late));
    AtThread(s, t);
    OthersIdle(s, t);
    MoveKeeps(s, d, t, d.threads[t]);
  }

  lemma ApplyKeeps(s: State, t: ThreadId)
    requires Inv(s) && Enabled(s, Apply(t))
    ensures Inv(After(s, Apply(t)))
  {
    hide Replay, Entries, PairOk;
    var th, d := s.threads[t], After(s, Apply(t));
    assert ThreadOk(s, th);
    assert s.records[..d.applied] == s.records[..s.applied] + [s.records[s.applied]];
    ReplayRecord(s.records[..s.applied], s.records[s.applied]);
    forall u | u in d.threads ensures ThreadOk(d, d.threads[u]) {
      ApplyOk(s, t, u);
    }
    hide ThreadOk;
    StillOwned(s, d);
    StillBatching(s, d);
  }

  lemma ApplyOk(s: State, t: ThreadId, u: ThreadId)
    requires Inv(s) && Enabled(s, Apply(t)) && u in After(s, Apply(t)).threads
    ensures ThreadOk(After(s, Apply(t)), After(s, Apply(t)).threads[u])
  {
    hide Replay, Entries;
    assert ThreadOk(s, s.threads[t]) && ThreadOk(s, s.threads[u]) && PairOk(s.threads[t], s.threads[u]);
  }

  lemma CallSyncKeeps(s: State, t: ThreadId, index: nat)
    requires Inv(s) && Enabled(s, CallSync(t, index))
    ensures Inv(After(s, CallSync(t, index)))
  {
    hide Replay, Entries, ThreadOk, PairOk;
    var d, th := After(s, CallSync(t, index)), Arriving(index, SyncOnly);
    forall u | u in d.threads ensures ThreadOk(d, d.threads[u]) {
      ArrivingOk(s, d, t, u, th);
    }
    forall u, v | u in d.threads && v in d.threads && u != v ensures PairOk(d.threads[u], d.threads[v]) {
      ArrivingApart(th, d.threads[u], d.threads[v]);
    }
    StillOwned(s, d);
    StillBatching(s, d);
  }

  lemma ArrivingOk(s: State, d: State, t: ThreadId, u: ThreadId, th: Thread)
    requires th.Arriving? && th.job.SyncOnly? && d == s.(threads := s.threads[t := th]) && u in d.threads
    requires u != t ==> ThreadOk(s, s.threads[u])
    ensures ThreadOk(d, d.threads[u])
  {
  }

  lemma ArrivingApart(th: Thread, a: Thread, b: Thread)
    requires th.Arriving? && th.job.SyncOnly? && (a == th || b == th || PairOk(a, b))
    ensures PairOk(a, b)
  {
  }

  lemma LeaveKeeps(s: State, t: ThreadId)
    requires Inv(s) && Enabled(s, Leave(t))
    ensures Inv(After(s, Leave(t)))
  {
    hide Replay, Entries, PairOk;
    var d := After(s, Leave(t));
    forall u | u in d.threads ensures ThreadOk(d, d.threads[u]) {
      assert ThreadOk(s, s.threads[u]);
    }
    StillOwned(s, d);
    StillBatching(s, d);
  }

  /** Writers that are still there still own their records. */
  lemma StillOwned(s: State, d: State)
    requires forall j {:trigger Owned(s, j)} | s.applied < j <= |s.records| :: Owned(s, j)
    requires s.applied <= d.applied && |d.records| == |s.records|
    requires forall u | u in s.threads && s.threads[u].job.Write? && s.threads[u].index > d.applied ::
      u in d.threads && d.threads[u] == s.threads[u]
    ensures forall j {:trigger Owned(d, j)} | d.applied < j <= |d.records| :: Owned(d, j)
  {
    forall j | d.applied < j <= |d.records| ensures Owned(d, j) {
      assert Owned(s, j);
      var u :| u in s.threads && s.threads[u].job.Write? && s.threads[u].index == j;
      assert d.threads[u] == s.threads[u];
    }
  }

  lemma StillBatching(s: State, d: State)
    requires s.flushing ==> exists t :: t in s.threads && s.threads[t].Batching?
    requires d.flushing ==> s.flushing
    requires forall u | u in s.threads && s.threads[u].Batching? :: u in d.threads && d.threads[u] == s.threads[u]
    ensures d.flushing ==> exists t :: t in d.threads && d.threads[t].Batching?
  {
    if d.flushing {
      var u :| u in s.threads && s.threads[u].Batching?;
      assert d.threads[u] == s.threads[u];
    }
  }

  lemma StepKeeps(s: State, step: Step)
    requires Inv(s) && Enabled(s, step)
    ensures Inv(After(s, step))
  {
    hide Inv, After, Enabled;
    match step
    case Append(t, op, key, value) => AppendKeeps(s, t, op, key, value);
    case Enter(t, late) => EnterKeeps(s, t, late);
    case Wake(t, late) => WakeKeeps(s, t, late);
    case Tick(t, late) => TickKeeps(s, t, late);
    case Apply(t) => ApplyKeeps(s, t);
    case CallSync(t, index) => CallSyncKeeps(s, t, index);
    case Leave(t) => LeaveKeeps(s, t);
  }

  lemma {:induction false} RunInv(found: seq<Record>, steps: seq<Step>)
    requires Numbered(found) && Run(found, steps).Some?
    ensures Inv(Run(found, steps).value)
  {
    hide Inv, After, Enabled;
    if steps == [] {
      InitInv(found);
    } else {
      RunInv(found, steps[..|steps| - 1]);
      StepKeeps(Run(found, steps[..|steps| - 1]).value, steps[|steps| - 1]);
    }
  }
}

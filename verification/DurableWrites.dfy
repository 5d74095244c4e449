/** What every interleaving of durable writers guarantees. */
module DurableWrites {
  import opened Bytes
  import opened Logs
  import opened Options
  import opened Store
  import opened WalRecord
  import opened WalLog
  import W = WalWriter
  import opened RaftLog
  import opened GroupCommit

  ghost predicate IsRun(found: seq<Record>, steps: seq<Step>) {
    Numbered(found) && Run(found, steps).Some?
  }

  /** Nothing is applied before it is durable, nothing is durable before it is written, and memory is
      the replay of exactly the applied records, in log order. */
  lemma ApplyOrder(found: seq<Record>, steps: seq<Step>)
    requires IsRun(found, steps)
    ensures var s := Run(found, steps).value;
      s.applied <= s.synced <= |s.records| && s.kv == Replay(Entries(s.records[..s.applied]))
  {
    hide Run, Replay, Entries;
    RunInv(found, steps);
  }

  /** Written and flushed only grow: what was once in the file or durable stays so. */
  lemma StepGrows(s: State, step: Step)
    requires GroupCommit.Inv(s) && Enabled(s, step)
    ensures var d := After(s, step); s.records <= d.records && s.synced <= d.synced && s.acked <= d.acked
  {
    hide GroupCommit.Inv, Replay, Entries;
    SyncedWithin(s);
  }

  lemma SyncedWithin(s: State)
    requires GroupCommit.Inv(s)
    ensures s.synced <= |s.records|
  {
  }

  /** What a run starts from and what it writes is within the reader's limits. */
  ghost predicate WithinLimits(found: seq<Record>, steps: seq<Step>) {
    && AllValid(found) && |found| + |steps| < U64
    && forall s | s in steps && s.Append? :: |s.key| <= MAX_FIELD && |s.value| <= MAX_FIELD
  }

  lemma {:induction false} RecordsValid(found: seq<Record>, steps: seq<Step>)
    requires IsRun(found, steps) && WithinLimits(found, steps)
    ensures AllValid(Run(found, steps).value.records)
    ensures |Run(found, steps).value.records| <= |found| + |steps|
    decreases |steps|
  {
    hide Replay, Entries;
    if steps != [] {
      var before, s := steps[..|steps| - 1], steps[|steps| - 1];
      RecordsValid(found, before);
      StepValid(Run(found, before).value, s);
    }
  }

  lemma StepValid(s: State, step: Step)
    requires Enabled(s, step) && AllValid(s.records) && |s.records| + 1 < U64
    requires step.Append? ==> |step.key| <= MAX_FIELD && |step.value| <= MAX_FIELD
    ensures AllValid(After(s, step).records) && |After(s, step).records| <= |s.records| + 1
  {
    hide Replay, Entries;
  }

  /** What was acknowledged stays acknowledged. */
  lemma {:induction false} AcknowledgedStays(found: seq<Record>, steps: seq<Step>, more: seq<Step>)
    requires IsRun(found, steps + more)
    ensures IsRun(found, steps) && Run(found, steps).value.acked <= Run(found, steps + more).value.acked
    decreases |more|
  {
    hide GroupCommit.Inv, After, Enabled, Init;
    if more == [] {
      assert steps + more == steps;
    } else {
      var most, s := more[..|more| - 1], more[|more| - 1];
      assert (steps + more)[..|steps + more| - 1] == steps + most && (steps + more)[|steps + more| - 1] == s;
      AcknowledgedStays(found, steps, most);
      RunInv(found, steps + most);
      StepGrows(Run(found, steps + most).value, s);
    }
  }

  /** An acknowledged write survives every crash: at any later moment, whatever part of the file beyond
      the flushed records is lost, recovery finds the write at its index. */
  lemma AcknowledgedSurvives(found: seq<Record>, steps: seq<Step>, more: seq<Step>, index: nat, entry: Entry, cut: nat)
    requires IsRun(found, steps + more) && WithinLimits(found, steps + more)
    requires Run(found, steps).Some? && (index, entry) in Run(found, steps).value.acked
    requires var s := Run(found, steps + more).value;
      |s.records| >= s.synced && |EncodeAll(s.records[..s.synced])| <= cut <= |EncodeAll(s.records)|
    ensures var after := Scan(EncodeAll(Run(found, steps + more).value.records)[..cut]);
      after.clean && 0 < index <= |after.records| && EntryOf(after.records[index - 1]) == entry
  {
    hide Run, Replay, Entries, Scan, EncodeAll, WithinLimits;
    AcknowledgedStays(found, steps, more);
    RunInv(found, steps + more);
    RecordsValid(found, steps + more);
    var s := Run(found, steps + more).value;
    CutAnywhere(s.records, cut);
    WholeCovers(s.records, s.synced, cut);
  }

  /** Whatever was written: recovery finds the log up to an acknowledged write if and only if every
      record up to it is within the reader's limits. */
  lemma AcknowledgedFoundIff(found: seq<Record>, steps: seq<Step>, more: seq<Step>, index: nat, entry: Entry, cut: nat)
    requires IsRun(found, steps + more)
    requires Run(found, steps).Some? && (index, entry) in Run(found, steps).value.acked
    requires var s := Run(found, steps + more).value;
      |s.records| >= s.synced && |EncodeAll(s.records[..s.synced])| <= cut <= |EncodeAll(s.records)|
    ensures var s := Run(found, steps + more).value;
      && 0 < index <= |s.records| && EntryOf(s.records[index - 1]) == entry
      && (s.records[..index] <= Scan(EncodeAll(s.records)[..cut]).records <==> AllValid(s.records[..index]))
  {
    hide Run, Replay, Entries, Scan, EncodeAll, Valid;
    AcknowledgedStays(found, steps, more);
    RunInv(found, steps + more);
    var s := Run(found, steps + more).value;
    FoundIff(s.records, index, s.synced, cut);
  }

  lemma FoundIff(rs: seq<Record>, index: nat, n: nat, cut: nat)
    requires index <= n <= |rs| && |EncodeAll(rs[..n])| <= cut <= |EncodeAll(rs)|
    ensures rs[..index] <= Scan(EncodeAll(rs)[..cut]).records <==> AllValid(rs[..index])
  {
    hide Scan, EncodeAll, Valid;
    var file := EncodeAll(rs)[..cut];
    var first := EncodeAll(rs[..index]);
    assert rs == rs[..n] + rs[n..] && rs[..n] == rs[..index] + rs[index..n];
    EncodeAllSplit(rs[..n], rs[n..]);
    EncodeAllSplit(rs[..index], rs[index..n]);
    assert file == first + file[|first|..];
    ScanSound(file);
    if AllValid(rs[..index]) {
      ScanReadsBack(rs[..index], file[|first|..]);
    }
  }

  /** If the first `n` records fit into the cut, they are among the whole ones. */
  lemma WholeCovers(rs: seq<Record>, n: nat, cut: nat)
    requires n <= |rs| && |EncodeAll(rs[..n])| <= cut
    ensures n <= Whole(rs, cut)
  {
    hide EncodeAll;
    var m := Whole(rs, cut);
    WholeIsLongest(rs, cut);
    if m < n {
      var more := rs[..n][m + 1..];
      assert rs[..n] == rs[..m + 1] + more;
      EncodeAllSplit(rs[..m + 1], more);
    }
  }

  // ----- Sync

  /** At most one thread is in the batching window. */
  lemma OneBatchLeader(found: seq<Record>, steps: seq<Step>, t: ThreadId, u: ThreadId)
    requires IsRun(found, steps)
    requires var s := Run(found, steps).value;
      t in s.threads && u in s.threads && s.threads[t].Batching? && s.threads[u].Batching?
    ensures t == u
  {
    hide Run, Replay, Entries;
    RunInv(found, steps);
    var s := Run(found, steps).value;
    assert t != u ==> PairOk(s.threads[t], s.threads[u]);
  }

  /** Sync reports success for every call; the called index is durable exactly if it had been written
      by then. For a write's own index it always is. */
  lemma SyncDurableIffWritten(found: seq<Record>, steps: seq<Step>, t: ThreadId)
    requires IsRun(found, steps)
    requires var s := Run(found, steps).value; t in s.threads && s.threads[t].Returned?
    ensures var s := Run(found, steps).value;
      var th := s.threads[t];
      && (th.syncedThen >= th.index <==> th.lastThen >= th.index)
      && (th.job.Write? ==> th.index <= s.synced)
  {
    hide Run, Replay, Entries;
    RunInv(found, steps);
    AtThread(Run(found, steps).value, t);
  }

  /** So a direct call for an index that has not been written reports success all the same. */
  lemma UnwrittenSyncSucceeds(s: State, t: ThreadId, index: nat)
    requires GroupCommit.Inv(s) && t !in s.threads && !s.flushing && index > |s.records|
    ensures Enabled(s, CallSync(t, index)) && Enabled(After(s, CallSync(t, index)), Enter(t, true))
    ensures var th := After(After(s, CallSync(t, index)), Enter(t, true)).threads[t];
      th.Returned? && th.index == index && th.lastThen == |s.records| && th.syncedThen < index
  {
    hide Replay, Entries;
  }

  /** For instance on an empty log. */
  lemma UnwrittenSyncRun()
    ensures var steps := [CallSync(0, 1), Enter(0, true)];
      && IsRun([], steps) && 0 in Run([], steps).value.threads
      && Run([], steps).value.threads[0] == Returned(1, SyncOnly, 0, 0)
  {
    hide Replay, Entries;
    var steps := [CallSync(0, 1), Enter(0, true)];
    assert steps[..1] == [CallSync(0, 1)] && steps[..1][..0] == [];
    assert Run([], steps[..1]) == Some(After(Init([]), CallSync(0, 1)));
  }

  /** The window loop makes at most 16 turns, and at most 15 for a write's own Sync. */
  lemma WindowIsShort(found: seq<Record>, steps: seq<Step>, t: ThreadId)
    requires IsRun(found, steps)
    requires var s := Run(found, steps).value; t in s.threads && s.threads[t].Batching?
    ensures var th := Run(found, steps).value.threads[t];
      th.turns <= W.MAX_BATCH && (th.job.Write? ==> th.turns < W.MAX_BATCH)
  {
    hide Run, Replay, Entries;
    RunInv(found, steps);
    AtThread(Run(found, steps).value, t);
  }

  /** Every turn but the last of a window sees strictly more pending records than the one before. */
  lemma TurnRaisesPending(s: State, t: ThreadId, late: bool)
    requires GroupCommit.Inv(s) && Enabled(s, Tick(t, late)) && After(s, Tick(t, late)).threads[t].Batching?
    ensures var d := After(s, Tick(t, late));
      && d.threads[t].observed - d.synced > s.threads[t].observed - s.synced
      && d.threads[t].turns == s.threads[t].turns + 1
  {
    hide Replay, Entries;
    AtThread(s, t);
  }

  // ----- What each step does

  /** In some run the state is `s` after `steps`, and `d` after one more. */
  ghost predicate Goes(found: seq<Record>, steps: seq<Step>, step: Step, s: State, d: State) {
    IsRun(found, steps + [step]) && Run(found, steps) == Some(s) && Run(found, steps + [step]) == Some(d)
  }

  lemma Taken(found: seq<Record>, steps: seq<Step>, step: Step, s: State, d: State)
    requires Goes(found, steps, step, s, d)
    ensures GroupCommit.Inv(s) && Enabled(s, step) && d == After(s, step)
  {
    hide GroupCommit.Inv, After, Enabled, Init;
    RunInv(found, steps);
    assert (steps + [step])[..|steps|] == steps;
  }

  /** Everything written is flushed and `t` returns. */
  ghost predicate Flushes(s: State, d: State, t: ThreadId)
    requires t in s.threads
  {
    d == s.(synced := |s.records|, flushing := false,
            threads := s.threads[t := Returned(s.threads[t].index, s.threads[t].job, |s.records|, |s.records|)])
  }

  /** `t` returns without a flush, its index being flushed already. */
  ghost predicate Covered(s: State, d: State, t: ThreadId)
    requires t in s.threads
  {
    && s.threads[t].index <= s.synced
    && d == s.(threads := s.threads[t := Returned(s.threads[t].index, s.threads[t].job, |s.records|, s.synced)])
  }

  /** `t` waits for more records to join its flush. */
  ghost predicate Gathers(s: State, d: State, t: ThreadId, turn: nat)
    requires t in s.threads
  {
    && |s.records| < s.synced + 16
    && d == s.(flushing := true,
               threads := s.threads[t := Batching(s.threads[t].index, s.threads[t].job, |s.records|, turn)])
  }

  /** A Sync returns at once if its index is flushed, waits if another's flush is under way, and otherwise
      leads: it gathers unless 16 records are pending already or it is late, and then flushes. */
  lemma SyncDecided(found: seq<Record>, steps: seq<Step>, t: ThreadId, late: bool, s: State, d: State)
    requires Goes(found, steps, Enter(t, late), s, d)
    ensures t in s.threads && s.threads[t].Arriving?
    ensures var th := s.threads[t];
      if th.index <= s.synced then Covered(s, d, t)
      else if s.flushing then d == s.(threads := s.threads[t := Waiting(th.index, th.job)])
      else if |s.records| < s.synced + 16 && !late then Gathers(s, d, t, 1)
      else Flushes(s, d, t)
  {
    hide GroupCommit.Inv, Run;
    Taken(found, steps, Enter(t, late), s, d);
  }

  /** A thread that waited goes on once its index is flushed or no flush is under way. A writer's index is
      flushed then; a direct caller's may not be, and it leads. */
  lemma WokenDecided(found: seq<Record>, steps: seq<Step>, t: ThreadId, late: bool, s: State, d: State)
    requires Goes(found, steps, Wake(t, late), s, d)
    ensures t in s.threads && s.threads[t].Waiting? && (s.threads[t].index <= s.synced || !s.flushing)
    ensures var th := s.threads[t];
      if th.job.Write? || th.index <= s.synced then Covered(s, d, t)
      else if |s.records| < s.synced + 16 && !late then Gathers(s, d, t, 1)
      else Flushes(s, d, t)
  {
    hide GroupCommit.Inv, Run;
    Taken(found, steps, Wake(t, late), s, d);
    if s.threads[t].job.Write? { WokenWriterIsCovered(s, t, late); }
  }

  /** A window goes on exactly if a record joined in the last turn, fewer than 16 are pending, and it is
      not late; otherwise one flush covers everything written. */
  lemma TurnDecided(found: seq<Record>, steps: seq<Step>, t: ThreadId, late: bool, s: State, d: State)
    requires Goes(found, steps, Tick(t, late), s, d)
    ensures t in s.threads && s.threads[t].Batching? && s.flushing && s.threads[t].observed <= |s.records|
    ensures var th := s.threads[t];
      if |s.records| > th.observed && |s.records| < s.synced + 16 && !late then Gathers(s, d, t, th.turns + 1)
      else Flushes(s, d, t)
  {
    hide GroupCommit.Inv, Run;
    Taken(found, steps, Tick(t, late), s, d);
    AtThread(s, t);
  }

  /** A write is given the next index and its record goes to the end of the log. */
  lemma WriteNumbered(found: seq<Record>, steps: seq<Step>, t: ThreadId, op: Op, key: Bytes, value: Bytes, s: State, d: State)
    requires Goes(found, steps, Append(t, op, key, value), s, d)
    ensures t !in s.threads && key != [] && (op == Set ==> value != [])
    ensures var index := |s.records| + 1;
      d == s.(records := s.records + [Record(0, index, op, key, value)],
              threads := s.threads[t := Arriving(index, Write(Entry(0, op, key, value)))])
  {
    hide GroupCommit.Inv, Run;
    Taken(found, steps, Append(t, op, key, value), s, d);
  }

  /** A write passes the barrier when it is the next record and durable; what it applies and acknowledges
      is what that record says. */
  lemma WriteApplied(found: seq<Record>, steps: seq<Step>, t: ThreadId, s: State, d: State)
    requires Goes(found, steps, Apply(t), s, d)
    ensures t in s.threads && s.threads[t].index == s.applied + 1 <= s.synced <= |s.records|
    ensures var entry := EntryOf(s.records[s.applied]);
      && d.applied == s.applied + 1 && d.kv == ApplyEntry(s.kv, entry) && d.acked == s.acked + {(s.applied + 1, entry)}
      && d.threads == (map k | k in s.threads && k != t :: s.threads[k])
      && d == s.(applied := d.applied, kv := d.kv, acked := d.acked, threads := d.threads)
  {
    hide GroupCommit.Inv, Run, ApplyEntry;
    Taken(found, steps, Apply(t), s, d);
    AtThread(s, t);
  }

  // ----- No deadlock

  /** As long as a write is under way, some thread can take a step: neither the wait for another's
      flush nor the apply barrier blocks for ever. */
  lemma NoDeadlock(found: seq<Record>, steps: seq<Step>, w: ThreadId) returns (step: Step)
    requires IsRun(found, steps)
    requires var s := Run(found, steps).value; w in s.threads && s.threads[w].job.Write?
    ensures Enabled(Run(found, steps).value, step)
    ensures step.t in Run(found, steps).value.threads
  {
    hide Run, Replay, Entries;
    RunInv(found, steps);
    var s := Run(found, steps).value;
    AtThread(s, w);
    assert Owned(s, s.applied + 1);
    var t :| t in s.threads && s.threads[t].job.Write? && s.threads[t].index == s.applied + 1;
    match s.threads[t]
    case Arriving(_, _) => step := Enter(t, false);
    case Batching(_, _, _, _) => step := Tick(t, false);
    case Returned(_, _, _, _) => step := Apply(t);
    case Waiting(index, _) =>
      if s.synced >= index || !s.flushing {
        step := Wake(t, false);
      } else {
        var u :| u in s.threads && s.threads[u].Batching?;
        step := Tick(u, false);
      }
  }
}

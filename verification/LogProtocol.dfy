/** The log store under its callers: the /v1/log handlers, the ack dispatch
    loop and the re-send timers, in every interleaving. A stopped timer may
    still fire late, so every timer ever armed may try to take its batch. */
module LogProtocol {
  import opened RunOrder
  import opened Sums
  import opened LogRetention

  /** One armed timer, for ever: its run and the time from which it may fire. */
  datatype Armed = Armed(run: string, due: int)

  datatype World = World(
    store: Store,
    calls: map<nat, LogChunk>,   // handlers between reserve and commit
    nextCall: nat,
    slots: map<nat, Armed>,      // every timer armed so far, by identity
    nextSlot: nat,
    now: int)

  datatype Step =
    | Tick(d: nat)
    | Post(chunk: LogChunk)
    | SendOk(call: nat)
    | SendFail(call: nat)
    | FinalAck(run: string, seqNo: int)                 // STORED or REJECTED
    | BusyAck(run: string, seqNo: int, pauseMs: int)
    | Fire(slot: nat)

  function CallBytes(c: LogChunk): int { |c.data| }

  function PauseOf(pauseMs: int): int {
    (if pauseMs <= 0 then DEFAULT_BUSY_PAUSE_MS else pauseMs) * MILLISECOND
  }

  function Initial(maxBytes: int, now: int): World {
    World(Store(map[], map[], 0, maxBytes, map[], map[], map[]), map[], 0, map[], 0, now)
  }

  /** A timer fires only at or after the time it was armed for. */
  predicate CanFire(w: World, slot: nat) {
    slot in w.slots && w.slots[slot].due <= w.now
  }

  predicate TakesBatch(w: World, step: Step, run: string) {
    step.Fire? && CanFire(w, step.slot) && w.slots[step.slot].run == run && IsArmed(w.store, run, step.slot)
  }

  ghost function Next(w: World, step: Step): World {
    match step
    case Tick(d) => w.(now := w.now + d)
    case Post(chunk) =>
      var (s, ok) := LogRetention.Reserve(w.store, |chunk.data|);
      if ok then w.(store := s, calls := w.calls[w.nextCall := chunk], nextCall := w.nextCall + 1) else w
    case SendOk(c) =>
      if c in w.calls then
        w.(store := Commit(w.store, w.calls[c], |w.calls[c].data|), calls := w.calls - {c})
      else w
    case SendFail(c) =>
      if c in w.calls then
        w.(store := w.store.(totalBytes := w.store.totalBytes - |w.calls[c].data|), calls := w.calls - {c})
      else w
    case FinalAck(run, seqNo) => w.(store := Release(w.store, run, seqNo))
    case BusyAck(run, seqNo, pauseMs) =>
      var s := ScheduleResend(w.store, run, seqNo, w.now, PauseOf(pauseMs), w.nextSlot);
      w.(store := s, slots := w.slots[w.nextSlot := Armed(run, s.pausedUntil[run])], nextSlot := w.nextSlot + 1)
    case Fire(slot) =>
      if CanFire(w, slot) then w.(store := TakeRefused(w.store, w.slots[slot].run, slot)) else w
  }

  ghost function Run(w: World, steps: seq<Step>): World
    decreases |steps|
  {
    if steps == [] then w else Next(Run(w, steps[..|steps| - 1]), steps[|steps| - 1])
  }

  // --- The invariant of every interleaving ---

  ghost predicate Accounted(w: World) {
    && w.store.totalBytes == w.store.RetainedBytes() + SumBy(w.calls, CallBytes)
    && w.store.totalBytes <= w.store.maxBytes
    && w.store.Indexed()
    && (forall c | c in w.calls :: c < w.nextCall)
  }

  /** Refused runs and armed timers are the same runs, and each armed timer is
      due exactly at the end of its run's pause window. */
  ghost predicate Armable(w: World) {
    && w.store.busySeqs.Keys == w.store.resendTimers.Keys
    && (forall id | id in w.slots :: id < w.nextSlot)
    && (forall r | r in w.store.resendTimers ::
          var slot := w.store.resendTimers[r];
          && slot.id in w.slots && w.slots[slot.id] == Armed(r, slot.due)
          && r in w.store.pausedUntil && w.store.pausedUntil[r] == slot.due)
  }

  lemma StepKeepsAccounted(w: World, step: Step)
    requires Accounted(w)
    ensures Accounted(Next(w, step))
  {
    match step
    case Post(chunk) => SumPut(w.calls, CallBytes, w.nextCall, chunk);
    case SendOk(c) =>
      if c in w.calls {
        CommitIndexed(w.store, w.calls[c], |w.calls[c].data|);
        SumDrop(w.calls, CallBytes, c);
        SumPut(w.store.byKey, ChunkBytes, ChunkKey(w.calls[c]), RetainedChunk(w.calls[c], |w.calls[c].data|));
      }
    case SendFail(c) => SumDrop(w.calls, CallBytes, c);
    case FinalAck(run, seqNo) =>
      ReleaseIndexed(w.store, run, seqNo);
      FreedNonNegative(w.store, run, seqNo);
    case _ =>
  }

  lemma FreedNonNegative(s: Store, run: string, seqNo: int)
    requires s.Indexed()
    ensures Freed(s, run, seqNo) >= 0
  {
    SubsetSum(s.byKey, Uncovered(s.byKey, run, seqNo));
  }

  lemma {:induction false} SubsetSum(m: map<Key, RetainedChunk>, part: map<Key, RetainedChunk>)
    requires forall k | k in part :: k in m && m[k] == part[k]
    requires forall k | k in m :: m[k].bytes >= 0
    ensures SumBy(part, ChunkBytes) <= SumBy(m, ChunkBytes)
    decreases |part|
  {
    if part == map[] {
      SumNonNegative(m, ChunkBytes);
    } else {
      var k :| k in part;
      SumSplit(part, ChunkBytes, k);
      SumSplit(m, ChunkBytes, k);
      SubsetSum(m - {k}, part - {k});
    }
  }

  lemma StepKeepsArmable(w: World, step: Step)
    requires Armable(w)
    ensures Armable(Next(w, step))
  {
  }

  /** Over every run: exact accounting within the cap, and the timer shape. */
  lemma {:induction false} EveryRunSound(w: World, steps: seq<Step>)
    requires Accounted(w) && Armable(w)
    ensures Accounted(Run(w, steps)) && Armable(Run(w, steps))
    decreases |steps|
  {
    if steps != [] {
      var prefix := steps[..|steps| - 1];
      EveryRunSound(w, prefix);
      StepKeepsAccounted(Run(w, prefix), steps[|steps| - 1]);
      StepKeepsArmable(Run(w, prefix), steps[|steps| - 1]);
    }
  }

  lemma InitialSound(maxBytes: nat, now: int)
    ensures Accounted(Initial(maxBytes, now)) && Armable(Initial(maxBytes, now))
  {
  }

  // --- Pauses and re-send batches ---

  lemma StepKeepsPauses(w: World, step: Step, run: string)
    requires run in w.store.pausedUntil
    ensures run in Next(w, step).store.pausedUntil
    ensures w.store.pausedUntil[run] <= Next(w, step).store.pausedUntil[run]
  {
  }

  /** A pause end never moves earlier, and covers every BUSY ack so far. */
  lemma {:induction false} PauseCoversEveryBusy(w: World, steps: seq<Step>, i: nat)
    requires i < |steps| && steps[i].BusyAck?
    ensures var run := steps[i].run;
            && run in Run(w, steps).store.pausedUntil
            && Run(w, steps[..i]).now + PauseOf(steps[i].pauseMs) <= Run(w, steps).store.pausedUntil[run]
    decreases |steps|
  {
    var n := |steps| - 1;
    if i < n {
      PauseCoversEveryBusy(w, steps[..n], i);
      assert steps[..n][..i] == steps[..i];
      StepKeepsPauses(Run(w, steps[..n]), steps[n], steps[i].run);
    }
  }

  /** A batch is taken only by the run's current timer, and only once every
      pause any BUSY ack of the run asked for has passed. */
  lemma BatchRespectsEveryPause(maxBytes: nat, t0: int, steps: seq<Step>, slot: nat, i: nat)
    requires i < |steps| && steps[i].BusyAck?
    requires TakesBatch(Run(Initial(maxBytes, t0), steps), Fire(slot), steps[i].run)
    ensures var w := Run(Initial(maxBytes, t0), steps);
            && w.store.resendTimers[steps[i].run].id == slot
            && Run(Initial(maxBytes, t0), steps[..i]).now + PauseOf(steps[i].pauseMs) <= w.now
  {
    InitialSound(maxBytes, t0);
    EveryRunSound(Initial(maxBytes, t0), steps);
    PauseCoversEveryBusy(Initial(maxBytes, t0), steps, i);
  }

  /** The BUSY ack at i still stands at the end of the run: no later final ack
      covers its sequence and no later timer took the run's batch. */
  ghost predicate Stands(w: World, steps: seq<Step>, i: nat, run: string, seqNo: int) {
    && i < |steps| && steps[i].BusyAck? && steps[i].run == run && steps[i].seqNo == seqNo
    && (forall j | i < j < |steps| ::
          && !(steps[j].FinalAck? && Covered(Key(run, seqNo), steps[j].run, steps[j].seqNo))
          && !TakesBatch(Run(w, steps[..j]), steps[j], run))
  }

  ghost predicate IsRefused(s: Store, run: string, seqNo: int) {
    run in s.busySeqs && seqNo in s.busySeqs[run]
  }

  lemma StepRefuses(w: World, step: Step, run: string, seqNo: int)
    requires Armable(w)
    ensures IsRefused(Next(w, step).store, run, seqNo)
            <==> (step.BusyAck? && step.run == run && step.seqNo == seqNo)
                 || (&& IsRefused(w.store, run, seqNo)
                     && !(step.FinalAck? && Covered(Key(run, seqNo), step.run, step.seqNo))
                     && !TakesBatch(w, step, run))
  {
  }

  /** A sequence is refused exactly when some BUSY ack of it still stands. */
  lemma {:induction false} RefusedExactly(maxBytes: nat, t0: int, steps: seq<Step>, run: string, seqNo: int)
    ensures var w := Initial(maxBytes, t0);
            IsRefused(Run(w, steps).store, run, seqNo) <==> exists i: nat :: Stands(w, steps, i, run, seqNo)
    decreases |steps|
  {
    var w := Initial(maxBytes, t0);
    if steps != [] {
      var n := |steps| - 1;
      var prefix, last := steps[..n], steps[n];
      InitialSound(maxBytes, t0);
      EveryRunSound(w, prefix);
      RefusedExactly(maxBytes, t0, prefix, run, seqNo);
      StepRefuses(Run(w, prefix), last, run, seqNo);
      forall i: nat ensures Stands(w, steps, i, run, seqNo) <==>
          (i == n && last.BusyAck? && last.run == run && last.seqNo == seqNo)
          || (&& Stands(w, prefix, i, run, seqNo)
              && !(last.FinalAck? && Covered(Key(run, seqNo), last.run, last.seqNo))
              && !TakesBatch(Run(w, prefix), last, run))
      {
        StandsStep(w, steps, i, run, seqNo);
      }
      assert last.BusyAck? && last.run == run && last.seqNo == seqNo ==> Stands(w, steps, n, run, seqNo);
    }
  }

  lemma StandsStep(w: World, steps: seq<Step>, i: nat, run: string, seqNo: int)
    requires steps != []
    ensures var n := |steps| - 1;
            var prefix, last := steps[..n], steps[n];
            Stands(w, steps, i, run, seqNo) <==>
              (i == n && last.BusyAck? && last.run == run && last.seqNo == seqNo)
              || (&& Stands(w, prefix, i, run, seqNo)
                  && !(last.FinalAck? && Covered(Key(run, seqNo), last.run, last.seqNo))
                  && !TakesBatch(Run(w, prefix), last, run))
  {
    var n := |steps| - 1;
    assert forall j | 0 <= j < n :: steps[..n][j] == steps[j] && steps[..n][..j] == steps[..j];
  }

  /** Every refused sequence is waiting for a timer of its run, due at the end
      of the pause: nothing refused is forgotten. */
  lemma RefusedIsArmed(w: World, steps: seq<Step>, run: string, seqNo: int)
    requires Accounted(w) && Armable(w) && IsRefused(Run(w, steps).store, run, seqNo)
    ensures var s := Run(w, steps).store;
            && run in s.resendTimers && run in s.pausedUntil
            && s.resendTimers[run].due == s.pausedUntil[run]
            && s.resendTimers[run].id in Run(w, steps).slots
            && Run(w, steps).slots[s.resendTimers[run].id] == Armed(run, s.pausedUntil[run])
  {
    EveryRunSound(w, steps);
  }
}

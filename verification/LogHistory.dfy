/** The log store read off the history of a run: which chunks are admitted, in
    flight and retained, and how long a run is paused, all said by the steps
    that happened. */
module LogHistory {
  import opened RunOrder
  import opened Sums
  import opened LogRetention
  import opened LogProtocol

  // --- Admission ---

  /** The chunk fits under the cap beside the retained and the in-flight ones. */
  ghost predicate Fits(w: World, chunk: LogChunk) {
    SumBy(w.store.byKey, ChunkBytes) + SumBy(w.calls, CallBytes) + |chunk.data| <= w.store.maxBytes
  }

  /** A chunk is admitted exactly when it fits; a refused one changes nothing. */
  lemma PostExactly(w: World, chunk: LogChunk)
    requires Accounted(w)
    ensures var v := Next(w, Post(chunk));
            if Fits(w, chunk)
            then v.calls == w.calls[w.nextCall := chunk] && w.nextCall !in w.calls && v.nextCall == w.nextCall + 1
                 && v.store.byKey == w.store.byKey
            else v == w
  {
  }

  // --- Chunks in flight ---

  /** The handler c whose chunk the step at h posts goes on to send. */
  ghost predicate Enters(w: World, steps: seq<Step>, h: nat, c: nat) {
    && h < |steps| && steps[h].Post?
    && Fits(Run(w, steps[..h]), steps[h].chunk) && c == Run(w, steps[..h]).nextCall
  }

  predicate Ends(step: Step, c: nat) {
    (step.SendOk? || step.SendFail?) && step.call == c
  }

  ghost predicate InFlight(w: World, steps: seq<Step>, h: nat, c: nat) {
    Enters(w, steps, h, c) && forall j | h < j < |steps| :: !Ends(steps[j], c)
  }

  lemma CallStep(w: World, step: Step, c: nat)
    requires Accounted(w)
    ensures var v := Next(w, step);
            var gives := step.Post? && Fits(w, step.chunk) && c == w.nextCall;
            && (c in v.calls <==> gives || (c in w.calls && !Ends(step, c)))
            && (gives ==> v.calls[c] == step.chunk)
            && (c in w.calls && c in v.calls ==> v.calls[c] == w.calls[c])
  {
    match step
    case Post(chunk) => PostExactly(w, chunk);
    case _ =>
  }

  lemma PrefixInFlight(w: World, steps: seq<Step>, h: nat, c: nat)
    requires steps != [] && h < |steps| - 1
    ensures var n := |steps| - 1;
            InFlight(w, steps, h, c) <==> InFlight(w, steps[..n], h, c) && !Ends(steps[n], c)
  {
    var n := |steps| - 1;
    assert forall j | 0 <= j < n :: steps[..n][j] == steps[j] && steps[..n][..j] == steps[..j];
  }

  /** The chunk is in flight as the post at h brought it in. */
  lemma InFlightHeld(w: World, steps: seq<Step>, h: nat, c: nat)
    requires steps != [] && Accounted(Run(w, steps[..|steps| - 1])) && InFlight(w, steps, h, c)
    requires var u := Run(w, steps[..|steps| - 1]);
             InFlight(w, steps[..|steps| - 1], h, c) ==> c in u.calls && u.calls[c] == steps[h].chunk
    ensures c in Run(w, steps).calls && Run(w, steps).calls[c] == steps[h].chunk
  {
    var n := |steps| - 1;
    CallStep(Run(w, steps[..n]), steps[n], c);
    if h < n { PrefixInFlight(w, steps, h, c); }
  }

  lemma HeldIsInFlight(w: World, steps: seq<Step>, c: nat) returns (h: nat)
    requires steps != [] && Accounted(Run(w, steps[..|steps| - 1])) && c in Run(w, steps).calls
    requires var prefix := steps[..|steps| - 1];
             c in Run(w, prefix).calls ==> exists h: nat :: InFlight(w, prefix, h, c)
    ensures InFlight(w, steps, h, c)
  {
    var n := |steps| - 1;
    CallStep(Run(w, steps[..n]), steps[n], c);
    if Enters(w, steps, n, c) {
      h := n;
    } else {
      h :| InFlight(w, steps[..n], h, c);
      PrefixInFlight(w, steps, h, c);
    }
  }

  /** In every run the chunks in flight are exactly those a fitting post brought
      in and no send has ended since. */
  lemma {:induction false} InFlightExactly(maxBytes: nat, t0: int, steps: seq<Step>, c: nat)
    ensures var w := Initial(maxBytes, t0);
            && (c in Run(w, steps).calls <==> exists h: nat :: InFlight(w, steps, h, c))
            && (forall h: nat | InFlight(w, steps, h, c) :: Run(w, steps).calls[c] == steps[h].chunk)
    decreases |steps|
  {
    var w := Initial(maxBytes, t0);
    if steps != [] {
      var n := |steps| - 1;
      InFlightExactly(maxBytes, t0, steps[..n], c);
      InitialSound(maxBytes, t0);
      EveryRunSound(w, steps[..n]);
      forall h: nat | InFlight(w, steps, h, c)
        ensures c in Run(w, steps).calls && Run(w, steps).calls[c] == steps[h].chunk
      {
        assert h < n ==> steps[..n][h] == steps[h];
        InFlightHeld(w, steps, h, c);
      }
      if c in Run(w, steps).calls { var h := HeldIsInFlight(w, steps, c); }
    }
  }

  // --- Retained chunks ---

  ghost predicate Commits(w: World, step: Step, key: Key) {
    step.SendOk? && step.call in w.calls && ChunkKey(w.calls[step.call]) == key
  }

  predicate Covers(step: Step, key: Key) {
    step.FinalAck? && step.run == key.run && key.seqNo <= step.seqNo
  }

  lemma RetainStep(w: World, step: Step, key: Key)
    ensures var v := Next(w, step);
            && (key in v.store.byKey <==> Commits(w, step, key) || (key in w.store.byKey && !Covers(step, key)))
            && (Commits(w, step, key) ==>
                  var chunk := w.calls[step.call]; v.store.byKey[key] == RetainedChunk(chunk, |chunk.data|))
            && (key in v.store.byKey && !Commits(w, step, key) ==> v.store.byKey[key] == w.store.byKey[key])
  {
  }

  /** The chunk posted at h is committed at i. */
  ghost predicate DeliveredAt(w: World, steps: seq<Step>, h: nat, i: nat) {
    h < i < |steps| && steps[i].SendOk? && InFlight(w, steps[..i], h, steps[i].call)
  }

  lemma CommitsExactly(maxBytes: nat, t0: int, steps: seq<Step>, i: nat, key: Key)
    requires i < |steps|
    ensures var w := Initial(maxBytes, t0);
            Commits(Run(w, steps[..i]), steps[i], key)
            <==> exists h: nat :: DeliveredAt(w, steps, h, i) && ChunkKey(steps[h].chunk) == key
  {
    var w, before := Initial(maxBytes, t0), steps[..i];
    if steps[i].SendOk? {
      InFlightExactly(maxBytes, t0, before, steps[i].call);
      if Commits(Run(w, before), steps[i], key) {
        var h: nat :| InFlight(w, before, h, steps[i].call);
        assert DeliveredAt(w, steps, h, i) && before[h] == steps[h];
      }
    }
  }

  /** No later ack of the run reaches the key's sequence. */
  ghost predicate Stands(w: World, steps: seq<Step>, i: nat, key: Key) {
    && i < |steps| && Commits(Run(w, steps[..i]), steps[i], key)
    && forall j | i < j < |steps| :: !Covers(steps[j], key)
  }

  lemma StandsStep(w: World, steps: seq<Step>, i: nat, key: Key)
    requires steps != []
    ensures var n := |steps| - 1;
            Stands(w, steps, i, key) <==>
              || (i == n && Commits(Run(w, steps[..n]), steps[n], key))
              || (Stands(w, steps[..n], i, key) && !Covers(steps[n], key))
  {
    var n := |steps| - 1;
    assert forall j | 0 <= j < n :: steps[..n][j] == steps[j] && steps[..n][..j] == steps[..j];
  }

  lemma {:induction false} StandingExactly(w: World, steps: seq<Step>, key: Key)
    requires w.store.byKey == map[]
    ensures key in Run(w, steps).store.byKey <==> exists i: nat :: Stands(w, steps, i, key)
    decreases |steps|
  {
    if steps != [] {
      var n := |steps| - 1;
      StandingExactly(w, steps[..n], key);
      RetainStep(Run(w, steps[..n]), steps[n], key);
      forall i: nat ensures Stands(w, steps, i, key) <==>
          || (i == n && Commits(Run(w, steps[..n]), steps[n], key))
          || (Stands(w, steps[..n], i, key) && !Covers(steps[n], key))
      {
        StandsStep(w, steps, i, key);
      }
      assert Commits(Run(w, steps[..n]), steps[n], key) ==> Stands(w, steps, n, key);
    }
  }

  /** In every run a chunk is retained exactly when some delivery of its run and
      sequence has no later STORED or REJECTED ack of its run at or above it. */
  lemma RetainedExactly(maxBytes: nat, t0: int, steps: seq<Step>, key: Key)
    ensures var w := Initial(maxBytes, t0);
            key in Run(w, steps).store.byKey <==>
              exists h: nat, i: nat ::
                && DeliveredAt(w, steps, h, i) && ChunkKey(steps[h].chunk) == key
                && forall j | i < j < |steps| :: !Covers(steps[j], key)
  {
    var w := Initial(maxBytes, t0);
    StandingExactly(w, steps, key);
    if i: nat :| Stands(w, steps, i, key) { CommitsExactly(maxBytes, t0, steps, i, key); }
    if h: nat, i: nat :| DeliveredAt(w, steps, h, i) && ChunkKey(steps[h].chunk) == key
                         && forall j | i < j < |steps| :: !Covers(steps[j], key) {
      CommitsExactly(maxBytes, t0, steps, i, key);
      assert Stands(w, steps, i, key);
    }
  }

  /** The last delivery of its key, with no later ack that covers it. */
  ghost predicate LastDelivery(w: World, steps: seq<Step>, h: nat, i: nat) {
    && DeliveredAt(w, steps, h, i)
    && var key := ChunkKey(steps[h].chunk);
       forall j | i < j < |steps| :: !Covers(steps[j], key) && !Commits(Run(w, steps[..j]), steps[j], key)
  }

  /** In every run the entry retained for a key is the very chunk of its last
      delivery, charged with the length of its data. */
  lemma {:induction false} RetainedContent(maxBytes: nat, t0: int, steps: seq<Step>, h: nat, i: nat)
    requires LastDelivery(Initial(maxBytes, t0), steps, h, i)
    ensures var s, chunk := Run(Initial(maxBytes, t0), steps).store, steps[h].chunk;
            ChunkKey(chunk) in s.byKey && s.byKey[ChunkKey(chunk)] == RetainedChunk(chunk, |chunk.data|)
    decreases |steps|
  {
    var w, n, key := Initial(maxBytes, t0), |steps| - 1, ChunkKey(steps[h].chunk);
    RetainStep(Run(w, steps[..n]), steps[n], key);
    if i == n {
      InFlightExactly(maxBytes, t0, steps[..n], steps[n].call);
      assert steps[..n][h] == steps[h];
    } else {
      assert forall j | 0 <= j < n :: steps[..n][j] == steps[j] && steps[..n][..j] == steps[..j];
      RetainedContent(maxBytes, t0, steps[..n], h, i);
    }
  }

  // --- Pauses ---

  /** The end of the pause the BUSY ack at i asks for: its milliseconds from
      then on, or one second when it names none. */
  ghost function AskedEnd(w: World, steps: seq<Step>, i: nat): int
    requires i < |steps| && steps[i].BusyAck?
  {
    Run(w, steps[..i]).now + (if steps[i].pauseMs > 0 then steps[i].pauseMs else 1000) * 1_000_000
  }

  ghost predicate Busies(steps: seq<Step>, i: nat, run: string) {
    i < |steps| && steps[i].BusyAck? && steps[i].run == run
  }

  /** In every run a job run is paused exactly when some BUSY ack named it, and
      until the latest end any of them asked for. */
  lemma {:induction false} PausedExactly(maxBytes: nat, t0: int, steps: seq<Step>, run: string)
    ensures var w := Initial(maxBytes, t0);
            var paused := Run(w, steps).store.pausedUntil;
            && (run in paused <==> exists i: nat :: Busies(steps, i, run))
            && (run in paused ==> exists i: nat :: Busies(steps, i, run) && paused[run] == AskedEnd(w, steps, i))
            && (forall i: nat | Busies(steps, i, run) :: paused[run] >= AskedEnd(w, steps, i))
    decreases |steps|
  {
    var w := Initial(maxBytes, t0);
    if steps != [] {
      var n := |steps| - 1;
      var prefix, last := steps[..n], steps[n];
      PausedExactly(maxBytes, t0, prefix, run);
      PauseStep(Run(w, prefix), last, run);
      forall i: nat | i < n ensures Busies(steps, i, run) <==> Busies(prefix, i, run)
        ensures Busies(steps, i, run) ==> AskedEnd(w, steps, i) == AskedEnd(w, prefix, i)
      {
        assert prefix[i] == steps[i] && prefix[..i] == steps[..i];
      }
      if Busies(steps, n, run) {
        assert AskedEnd(w, steps, n) == BusyEnd(Run(w, prefix), last);
      }
      if run in Run(w, steps).store.pausedUntil { PauseWitness(w, steps, run); }
    }
  }

  function BusyEnd(w: World, step: Step): int
    requires step.BusyAck?
  {
    w.now + (if step.pauseMs > 0 then step.pauseMs else 1000) * 1_000_000
  }

  lemma PauseStep(w: World, step: Step, run: string)
    ensures var before, after := w.store.pausedUntil, Next(w, step).store.pausedUntil;
            if step.BusyAck? && step.run == run
            then var end := BusyEnd(w, step);
                 run in after && after[run] == if run in before && before[run] > end then before[run] else end
            else (run in after <==> run in before) && (run in after ==> after[run] == before[run])
  {
  }

  lemma PauseWitness(w: World, steps: seq<Step>, run: string)
    requires steps != [] && run in Run(w, steps).store.pausedUntil
    requires var prefix := steps[..|steps| - 1];
             var before := Run(w, prefix).store.pausedUntil;
             run in before ==> exists i: nat :: Busies(prefix, i, run) && before[run] == AskedEnd(w, prefix, i)
    ensures exists i: nat :: Busies(steps, i, run) && Run(w, steps).store.pausedUntil[run] == AskedEnd(w, steps, i)
  {
    var n := |steps| - 1;
    var prefix, last := steps[..n], steps[n];
    PauseStep(Run(w, prefix), last, run);
    var before, after := Run(w, prefix).store.pausedUntil, Run(w, steps).store.pausedUntil;
    if run in before && after[run] == before[run] {
      var i: nat :| Busies(prefix, i, run) && before[run] == AskedEnd(w, prefix, i);
      assert prefix[i] == steps[i] && prefix[..i] == steps[..i];
      assert Busies(steps, i, run);
    } else {
      assert Busies(steps, n, run) && AskedEnd(w, steps, n) == BusyEnd(Run(w, prefix), last);
    }
  }

  // --- Which timer takes a batch ---

  ghost function BusyCount(steps: seq<Step>): nat {
    if steps == [] then 0 else BusyCount(steps[..|steps| - 1]) + if steps[|steps| - 1].BusyAck? then 1 else 0
  }

  lemma {:induction false} SlotsAreCounted(maxBytes: nat, t0: int, steps: seq<Step>)
    ensures Run(Initial(maxBytes, t0), steps).nextSlot == BusyCount(steps)
    decreases |steps|
  {
    if steps != [] { SlotsAreCounted(maxBytes, t0, steps[..|steps| - 1]); }
  }

  /** The BUSY ack at i is the run's latest, and no timer took the batch since. */
  ghost predicate ArmedBy(w: World, steps: seq<Step>, i: nat, run: string) {
    && Busies(steps, i, run)
    && forall j | i < j < |steps| :: !Busies(steps, j, run) && !TakesBatch(Run(w, steps[..j]), steps[j], run)
  }

  lemma TimerStep(w: World, step: Step, run: string, slot: nat)
    ensures IsArmed(Next(w, step).store, run, slot) <==>
              if step.BusyAck? && step.run == run then slot == w.nextSlot
              else IsArmed(w.store, run, slot) && !TakesBatch(w, step, run)
  {
  }

  lemma ArmedByStep(w: World, steps: seq<Step>, i: nat, run: string)
    requires steps != []
    ensures var n := |steps| - 1;
            ArmedBy(w, steps, i, run) <==>
              if Busies(steps, n, run) then i == n
              else i < n && ArmedBy(w, steps[..n], i, run) && !TakesBatch(Run(w, steps[..n]), steps[n], run)
  {
    var n := |steps| - 1;
    assert forall j | 0 <= j < n :: steps[..n][j] == steps[j] && steps[..n][..j] == steps[..j];
    assert forall j: nat | j < n :: Busies(steps[..n], j, run) <==> Busies(steps, j, run);
  }

  /** A run's timer is that of its latest BUSY ack, until it takes the batch. */
  lemma {:induction false} TimerExactly(maxBytes: nat, t0: int, steps: seq<Step>, run: string, slot: nat)
    ensures var w := Initial(maxBytes, t0);
            IsArmed(Run(w, steps).store, run, slot) <==>
              exists i: nat :: ArmedBy(w, steps, i, run) && slot == BusyCount(steps[..i])
    decreases |steps|
  {
    var w := Initial(maxBytes, t0);
    if steps != [] {
      var n := |steps| - 1;
      var prefix := steps[..n];
      TimerExactly(maxBytes, t0, prefix, run, slot);
      TimerStep(Run(w, prefix), steps[n], run, slot);
      SlotsAreCounted(maxBytes, t0, prefix);
      if IsArmed(Run(w, steps).store, run, slot) {
        if Busies(steps, n, run) {
          ArmedByStep(w, steps, n, run);
        } else {
          var i: nat :| ArmedBy(w, prefix, i, run) && slot == BusyCount(prefix[..i]);
          ArmedByStep(w, steps, i, run);
          assert prefix[..i] == steps[..i];
        }
      }
      if i: nat :| ArmedBy(w, steps, i, run) && slot == BusyCount(steps[..i]) {
        ArmedByStep(w, steps, i, run);
        if i < n { assert prefix[..i] == steps[..i]; }
      }
    }
  }

  /** Every pause that BUSY acks of the run asked for has passed. */
  ghost predicate PausesOver(w: World, steps: seq<Step>, run: string) {
    forall k: nat | Busies(steps, k, run) :: AskedEnd(w, steps, k) <= Run(w, steps).now
  }

  /** A firing timer takes the run's batch exactly when it belongs to the latest
      BUSY ack, no timer took the batch since, and every pause asked for is
      over, the end of the pause included. */
  lemma BatchExactly(maxBytes: nat, t0: int, steps: seq<Step>, run: string, slot: nat)
    ensures var w := Initial(maxBytes, t0);
            TakesBatch(Run(w, steps), Fire(slot), run) <==>
              && (exists i: nat :: ArmedBy(w, steps, i, run) && slot == BusyCount(steps[..i]))
              && PausesOver(w, steps, run)
  {
    var w := Initial(maxBytes, t0);
    InitialSound(maxBytes, t0);
    EveryRunSound(w, steps);
    TimerExactly(maxBytes, t0, steps, run, slot);
    if IsArmed(Run(w, steps).store, run, slot) { WindowIsOver(maxBytes, t0, steps, run); }
  }

  lemma WindowIsOver(maxBytes: nat, t0: int, steps: seq<Step>, run: string)
    requires run in Run(Initial(maxBytes, t0), steps).store.pausedUntil
    ensures var v := Run(Initial(maxBytes, t0), steps);
            v.store.pausedUntil[run] <= v.now <==> PausesOver(Initial(maxBytes, t0), steps, run)
  {
    PausedExactly(maxBytes, t0, steps, run);
  }
}

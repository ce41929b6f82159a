/** What the event protocol guarantees over whole runs, and where it does not. */
module EventTheorems {
  import opened RunOrder
  import opened Sums
  import opened EventRetention
  import opened EventProtocol

  // --- A superseded reservation never acts again ---

  lemma {:induction false} ClosedForever(w: World, steps: seq<Step>, id: nat)
    requires Sound(w) && id <= w.store.nextId && id !in w.store.pending
    ensures Sound(Run(w, steps)) && id !in Run(w, steps).store.pending
    decreases |steps|
  {
    if steps != [] {
      StepKeepsSound(w, steps[0]);
      StaysClosed(w, steps[0], id);
      ClosedForever(Next(w, steps[0]), steps[1..], id);
    }
  }

  lemma StaysClosed(w: World, step: Step, id: nat)
    requires w.store.Inverse() && id <= w.store.nextId && id !in w.store.pending
    ensures id !in Next(w, step).store.pending && w.store.nextId <= Next(w, step).store.nextId
  {
    match step
    case Post(evt) => ReserveEffect(w.store, KeyOf(evt), evt.size);
    case _ =>
  }

  /** Once another post takes the key, even one refused at the cap, the older
      reservation's commit or rollback changes nothing at any later time. */
  lemma SupersededNeverActs(w: World, id: nat, evt: BuildEvent, steps: seq<Step>)
    requires Sound(w) && id in w.store.pending && w.store.pending[id].key == KeyOf(evt)
    ensures var v := Run(Next(w, Post(evt)), steps);
            && Next(v, SendOk(id)).store == v.store && Next(v, SendOk(id)).gauge == v.gauge
            && Next(v, SendFail(id)).store == v.store && Next(v, SendFail(id)).gauge == v.gauge
  {
    StepKeepsSound(w, Post(evt));
    PostCloses(w, id, evt);
    ClosedForever(Next(w, Post(evt)), steps, id);
    ClosedIsNoOp(Run(Next(w, Post(evt)), steps), id);
  }

  lemma PostCloses(w: World, id: nat, evt: BuildEvent)
    requires w.store.Inverse() && id in w.store.pending && w.store.pending[id].key == KeyOf(evt)
    ensures id !in Next(w, Post(evt)).store.pending && id <= Next(w, Post(evt)).store.nextId
  {
    ReserveEffect(w.store, KeyOf(evt), evt.size);
  }

  lemma ClosedIsNoOp(v: World, id: nat)
    requires id !in v.store.pending
    ensures Next(v, SendOk(id)).store == v.store && Next(v, SendOk(id)).gauge == v.gauge
    ensures Next(v, SendFail(id)).store == v.store && Next(v, SendFail(id)).gauge == v.gauge
  {
  }

  // --- Retention completeness ---

  ghost predicate NoAck(steps: seq<Step>, key: Key) {
    forall i | 0 <= i < |steps| :: steps[i].Ack? ==> steps[i].key != key
  }

  /** No step posts the key again or resolves the reservation id. */
  ghost predicate LeavesOpen(steps: seq<Step>, key: Key, id: nat) {
    forall i | 0 <= i < |steps| ::
      && (steps[i].Post? ==> KeyOf(steps[i].evt) != key)
      && (steps[i].SendOk? || steps[i].SendFail? ==> steps[i].id != id)
  }

  lemma {:induction false} RetainedUntilAck(w: World, steps: seq<Step>, key: Key)
    requires key in w.store.byKey && NoAck(steps, key)
    ensures key in Run(w, steps).store.byKey
    decreases |steps|
  {
    if steps != [] {
      RetainedUntilAck(Next(w, steps[0]), steps[1..], key);
    }
  }

  lemma OpenStep(w: World, step: Step, key: Key, id: nat)
    requires w.store.Inverse() && id in w.store.pending && w.store.pending[id].key == key && id in w.calls
    requires NoAck([step], key) && LeavesOpen([step], key, id)
    ensures Next(w, step).store.pending.Keys >= {id}
    ensures Next(w, step).store.pending[id] == w.store.pending[id]
    ensures id in Next(w, step).calls && Next(w, step).calls[id] == w.calls[id]
  {
    assert step == [step][0];
    match step
    case Post(evt) => ReserveEffect(w.store, KeyOf(evt), evt.size);
    case _ =>
  }

  lemma {:induction false} StaysOpen(w: World, steps: seq<Step>, key: Key, id: nat)
    requires Sound(w) && id in w.store.pending && w.store.pending[id].key == key
    requires NoAck(steps, key) && LeavesOpen(steps, key, id)
    ensures Sound(Run(w, steps)) && id in Run(w, steps).store.pending && id in Run(w, steps).calls
    ensures Run(w, steps).store.pending[id] == w.store.pending[id]
    ensures Run(w, steps).calls[id] == w.calls[id]
    decreases |steps|
  {
    if steps != [] {
      StepKeepsSound(w, steps[0]);
      OpenStep(w, steps[0], key, id);
      StaysOpen(Next(w, steps[0]), steps[1..], key, id);
    }
  }

  lemma CommitOwned(w: World, id: nat)
    requires id in w.calls && id in w.store.pending && !w.store.pending[id].acked
    ensures var key := w.store.pending[id].key;
            && key in Next(w, SendOk(id)).store.byKey
            && Next(w, SendOk(id)).store.byKey[key] == Retained(w.calls[id].evt, w.calls[id].evt.size)
  {
  }

  /** The bytes retained for the key. */
  function Held(s: Store, key: Key): int {
    if key in s.byKey then s.byKey[key].bytes else 0
  }

  /** The post does not grow its key, or its growth fits under the cap beside
      everything retained and the open charges of the other keys. */
  ghost predicate Fits(s: Store, key: Key, size: int) {
    || size <= Held(s, key)
    || SumBy(s.byKey, EntryBytes) + SumBy(OpenElsewhere(s, key), Charge) + size - Held(s, key) <= s.maxBytes
  }

  ghost predicate Admitted(w: World, evt: BuildEvent) {
    Fits(w.store, KeyOf(evt), evt.size)
  }

  /** A post is admitted exactly when it fits. It then has a fresh id and is
      charged exactly its growth. */
  lemma AdmittedExactly(s: Store, key: Key, size: int)
    requires s.Valid()
    ensures var (t, r) := Reserve(s, key, size);
            && (r.ok <==> Fits(s, key, size))
            && (r.ok ==> s.nextId < r.id && r.id !in s.pending && r.charged == Max(0, size - Held(s, key)))
            && (r.ok ==> r.id in t.pending && t.pending[r.id] == Pending(key, r.charged, false, ""))
            && (!r.ok ==> r.charged == size - Held(s, key) > 0)
  {
    SupersedeKeepsValid(s, key);
    SupersedeEffect(s, key);
  }

  /** In every run a retry no larger than the entry its key holds is admitted,
      even at the cap. */
  lemma RetryAdmitted(maxBytes: int, steps: seq<Step>, evt: BuildEvent)
    requires var s := Run(Initial(maxBytes), steps).store;
             KeyOf(evt) in s.byKey && evt.size <= s.byKey[KeyOf(evt)].bytes
    ensures Reserve(Run(Initial(maxBytes), steps).store, KeyOf(evt), evt.size).1.ok
  {
    InitialSound(maxBytes);
    EveryRunSound(Initial(maxBytes), steps);
    AdmittedExactly(Run(Initial(maxBytes), steps).store, KeyOf(evt), evt.size);
  }

  /** An admitted event whose send succeeds, that no later post supersedes
      before its commit and no ack names since its reserve, is retained by its
      commit and stays retained through every further run without an ack. */
  lemma RetentionComplete(w: World, evt: BuildEvent, mid: seq<Step>, rest: seq<Step>)
    requires Sound(w) && Admitted(w, evt)
    requires NoAck(mid, KeyOf(evt)) && NoAck(rest, KeyOf(evt))
    requires LeavesOpen(mid, KeyOf(evt), w.store.nextId + 1)
    ensures var key := KeyOf(evt);
            var sent := Next(Run(Next(w, Post(evt)), mid), SendOk(w.store.nextId + 1));
            && key in sent.store.byKey && sent.store.byKey[key] == Retained(evt, evt.size)
            && key in Run(sent, rest).store.byKey
  {
    var id, key := w.store.nextId + 1, KeyOf(evt);
    AdmittedOpens(w, evt);
    StaysOpen(Next(w, Post(evt)), mid, key, id);
    var w2 := Run(Next(w, Post(evt)), mid);
    CommitOwned(w2, id);
    RetainedUntilAck(Next(w2, SendOk(id)), rest, key);
  }

  lemma AdmittedOpens(w: World, evt: BuildEvent)
    requires Sound(w) && Admitted(w, evt)
    ensures var (id, v) := (w.store.nextId + 1, Next(w, Post(evt)));
            && Sound(v) && id in v.store.pending && id in v.calls && v.calls[id].evt == evt
            && v.store.pending[id].key == KeyOf(evt) && !v.store.pending[id].acked
  {
    StepKeepsSound(w, Post(evt));
    AdmittedExactly(w.store, KeyOf(evt), evt.size);
    ReserveEffect(w.store, KeyOf(evt), evt.size);
  }

  /** Exactly when a successful send leaves its key retained. */
  lemma CommitRetainsIff(w: World, id: nat)
    requires Sound(w) && id in w.calls
    ensures var key := KeyOf(w.calls[id].evt);
            key in Next(w, SendOk(id)).store.byKey
            <==> key in w.store.byKey || (id in w.store.pending && !w.store.pending[id].acked)
  {
  }

  /** The step commits an event of the key by a handler that still owns its
      reservation, with no ack since it opened. */
  ghost predicate Commits(w: World, step: Step, key: Key) {
    && step.SendOk? && step.id in w.calls
    && step.id in w.store.pending && !w.store.pending[step.id].acked && w.store.pending[step.id].key == key
  }

  lemma RetainStep(w: World, step: Step, key: Key)
    ensures key in Next(w, step).store.byKey
            <==> Commits(w, step, key) || (key in w.store.byKey && !(step.Ack? && step.key == key))
  {
    match step
    case Post(evt) => PostRetains(w.store, KeyOf(evt), evt.size);
    case SendOk(_) =>
    case _ =>
  }

  lemma PostRetains(s: Store, key: Key, size: int)
    ensures Reserve(s, key, size).0.byKey == s.byKey
  {
  }

  /** The commit at i has no later ack of its key. */
  ghost predicate CommitStands(w: World, steps: seq<Step>, i: nat, key: Key) {
    && i < |steps| && Commits(Run(w, steps[..i]), steps[i], key)
    && forall j | i < j < |steps| :: !(steps[j].Ack? && steps[j].key == key)
  }

  lemma CommitStandsStep(w: World, steps: seq<Step>, i: nat, key: Key)
    requires steps != []
    ensures var n := |steps| - 1;
            CommitStands(w, steps, i, key) <==>
              || (i == n && Commits(Run(w, steps[..n]), steps[n], key))
              || (CommitStands(w, steps[..n], i, key) && !(steps[n].Ack? && steps[n].key == key))
  {
    var n := |steps| - 1;
    assert forall j | 0 <= j < n :: steps[..n][j] == steps[j] && steps[..n][..j] == steps[..j];
  }

  /** A key is retained exactly when some owning, unacked commit of it has no
      later ack. */
  lemma {:induction false} RetainedExactly(maxBytes: int, steps: seq<Step>, key: Key)
    ensures var w := Initial(maxBytes);
            key in Run(w, steps).store.byKey <==> exists i: nat :: CommitStands(w, steps, i, key)
    decreases |steps|
  {
    var w := Initial(maxBytes);
    if steps != [] {
      var n := |steps| - 1;
      var prefix, last := steps[..n], steps[n];
      assert steps == prefix + [last];
      RunConcat(w, prefix, [last]);
      assert Run(Run(w, prefix), [last]) == Next(Run(w, prefix), last);
      RetainedExactly(maxBytes, prefix, key);
      RetainStep(Run(w, prefix), last, key);
      forall i: nat ensures CommitStands(w, steps, i, key) <==>
          || (i == n && Commits(Run(w, prefix), last, key))
          || (CommitStands(w, prefix, i, key) && !(last.Ack? && last.key == key))
      {
        CommitStandsStep(w, steps, i, key);
      }
      assert Commits(Run(w, prefix), last, key) ==> CommitStands(w, steps, n, key);
    }
  }

  /** Without the no-supersede condition a sent, unacknowledged event is lost:
      the older commit owns nothing and the newer send fails. */
  lemma SupersededSendIsLost(evt: BuildEvent)
    ensures var w := Run(Initial(evt.size), [Post(evt), Post(evt), SendOk(1), SendFail(2)]);
            KeyOf(evt) !in w.store.byKey && w.store.pending == map[]
  {
    var w1 := Next(Initial(evt.size), Post(evt));
    var w2 := Next(w1, Post(evt));
    var w3 := Next(w2, SendOk(1));
    var w4 := Next(w3, SendFail(2));
    assert w4 == Run(w3, [SendFail(2)]);
    assert w4 == Run(w2, [SendOk(1), SendFail(2)]);
    assert w4 == Run(w1, [Post(evt), SendOk(1), SendFail(2)]);
  }

  /** A reserve refused at the cap has already closed the older reservation. */
  lemma RefusedReserveClosesOlder(evt: BuildEvent, larger: BuildEvent)
    requires KeyOf(evt) == KeyOf(larger) && evt.size < larger.size
    ensures !Admitted(Next(Initial(evt.size), Post(evt)), larger)
    ensures Run(Initial(evt.size), [Post(evt), Post(larger), SendOk(1)]).store.byKey == map[]
  {
    var w1 := Next(Initial(evt.size), Post(evt));
    InitialSound(evt.size);
    StepKeepsSound(Initial(evt.size), Post(evt));
    AdmittedExactly(w1.store, KeyOf(larger), larger.size);
    var w2 := Next(w1, Post(larger));
    var w3 := Next(w2, SendOk(1));
    assert w3 == Run(w2, [SendOk(1)]);
    assert w3 == Run(w1, [Post(larger), SendOk(1)]);
  }
}

/** The byte cap of the event store over whole runs: exactly which step can
    pass it, by how much, and the runs that never do. */
module EventCap {
  import opened RunOrder
  import opened EventRetention
  import opened EventProtocol

  /** A commit whose committed entry was released while its send was in
      flight: the released bytes may be in use by others by now. */
  ghost predicate ReleasedInFlight(w: World, step: Step) {
    && step.SendOk? && step.id in w.calls && step.id in w.store.pending
    && !w.store.pending[step.id].acked
    && w.store.pending[step.id].key !in w.store.byKey
    && w.calls[step.id].base > 0
  }

  ghost function Credit(w: World, step: Step): int {
    if ReleasedInFlight(w, step) then Min(w.calls[step.id].evt.size, w.calls[step.id].base) else 0
  }

  ghost function Credits(w: World, steps: seq<Step>): int
    decreases |steps|
  {
    if steps == [] then 0 else Credit(w, steps[0]) + Credits(Next(w, steps[0]), steps[1..])
  }

  lemma ReserveCap(s: Store, key: Key, size: int)
    requires s.Accounted() && s.Inverse()
    ensures var t := Reserve(s, key, size).0;
            t.maxBytes == s.maxBytes && (t.totalBytes <= s.totalBytes || t.totalBytes <= s.maxBytes)
  {
    assert key in s.openByKey ==> s.pending[s.openByKey[key]].charged >= 0;
  }

  lemma CommitCap(w: World, id: nat)
    requires Linked(w) && id in w.calls && id in w.store.pending
    ensures var (t, c) := (Next(w, SendOk(id)).store, Credit(w, SendOk(id)));
            && t.maxBytes == w.store.maxBytes
            && (c > 0 ==> t.totalBytes == w.store.totalBytes + c)
            && (c <= 0 ==> t.totalBytes <= w.store.totalBytes)
  {
    assert LinkedCall(w.store, w.store.pending[id], w.calls[id]);
  }

  lemma OtherCap(w: World, step: Step)
    requires w.store.Accounted() && !step.Post? && !step.SendOk?
    ensures Next(w, step).store.maxBytes == w.store.maxBytes
    ensures Next(w, step).store.totalBytes <= w.store.totalBytes
  {
  }

  /** From below the cap, a step passes it exactly when it commits over an
      entry released in flight and the credit does not fit. */
  lemma BreachExactly(w: World, step: Step)
    requires Sound(w) && w.store.totalBytes <= w.store.maxBytes
    ensures Next(w, step).store.totalBytes > w.store.maxBytes
            <==> ReleasedInFlight(w, step) && w.store.totalBytes + Credit(w, step) > w.store.maxBytes
  {
    StepWithinCredit(w, step);
  }

  lemma StepWithinCredit(w: World, step: Step)
    requires Sound(w)
    ensures Next(w, step).store.maxBytes == w.store.maxBytes
    ensures ReleasedInFlight(w, step) ==> Next(w, step).store.totalBytes == w.store.totalBytes + Credit(w, step)
    ensures !ReleasedInFlight(w, step) ==>
              Next(w, step).store.totalBytes <= w.store.totalBytes
              || Next(w, step).store.totalBytes <= w.store.maxBytes
  {
    match step
    case Post(evt) => ReserveCap(w.store, KeyOf(evt), evt.size);
    case SendOk(id) => if id in w.calls && id in w.store.pending { CommitCap(w, id); }
    case _ => OtherCap(w, step);
  }

  /** In every run the excess over the cap is at most the credits spent. */
  lemma {:induction false} ExcessBound(w: World, steps: seq<Step>, spent: int)
    requires Sound(w) && spent >= 0 && w.store.totalBytes <= w.store.maxBytes + spent
    ensures Run(w, steps).store.totalBytes <= w.store.maxBytes + spent + Credits(w, steps)
    decreases |steps|
  {
    if steps != [] {
      StepKeepsSound(w, steps[0]);
      StepWithinCredit(w, steps[0]);
      ExcessBound(Next(w, steps[0]), steps[1..], spent + Credit(w, steps[0]));
    }
  }

  // --- Runs that never pass the cap ---

  /** No ack releases a committed entry while a reservation for it is open. */
  ghost predicate NoReleaseInFlight(w: World, steps: seq<Step>)
    decreases |steps|
  {
    steps == [] ||
    (&& (steps[0].Ack? ==> !(steps[0].key in w.store.byKey && steps[0].key in w.store.openByKey))
     && NoReleaseInFlight(Next(w, steps[0]), steps[1..]))
  }

  /** An open replacement still has the entry it replaces. */
  ghost predicate Anchored(w: World) {
    forall id | id in w.store.pending && id in w.calls ::
      w.calls[id].base > 0 ==> w.store.pending[id].key in w.store.byKey
  }

  lemma PostKeepsAnchored(w: World, evt: BuildEvent)
    requires w.store.Inverse() && Linked(w) && Anchored(w)
    ensures Anchored(Next(w, Post(evt)))
  {
    ReserveEffect(w.store, KeyOf(evt), evt.size);
  }

  lemma SendKeepsAnchored(w: World, step: Step)
    requires w.store.Inverse() && Anchored(w) && (step.SendOk? || step.SendFail?)
    ensures Anchored(Next(w, step))
  {
  }

  lemma StepKeepsAnchored(w: World, step: Step)
    requires w.store.Inverse() && Linked(w) && Anchored(w) && NoReleaseInFlight(w, [step])
    ensures Anchored(Next(w, step))
  {
    match step
    case Post(evt) => PostKeepsAnchored(w, evt);
    case Ack(key, status) =>
    case _ => SendKeepsAnchored(w, step);
  }

  lemma {:induction false} CapHolds(w: World, steps: seq<Step>)
    requires Sound(w) && Anchored(w) && NoReleaseInFlight(w, steps)
    requires w.store.totalBytes <= w.store.maxBytes
    ensures Run(w, steps).store.totalBytes <= Run(w, steps).store.maxBytes == w.store.maxBytes
    decreases |steps|
  {
    if steps != [] {
      StepKeepsSound(w, steps[0]);
      StepWithinCredit(w, steps[0]);
      assert NoReleaseInFlight(w, [steps[0]]);
      StepKeepsAnchored(w, steps[0]);
      CapHolds(Next(w, steps[0]), steps[1..]);
    }
  }

  /** The condition is needed: an ack of an entry being re-sent, then a new
      event admitted into the freed bytes, then the re-send's commit. */
  lemma CapCanBreak(a: BuildEvent, b: BuildEvent, status: string)
    requires KeyOf(a) != KeyOf(b) && a.size == b.size > 0
    ensures var steps := [Post(a), SendOk(1), Post(a), Ack(KeyOf(a), status), Post(b), SendOk(2)];
            Run(Initial(a.size), steps).store.totalBytes == 2 * a.size
  {
    var w0 := Initial(a.size);
    var w1 := Next(w0, Post(a));
    var w2 := Next(w1, SendOk(1));
    var w3 := Next(w2, Post(a));
    var w4 := Next(w3, Ack(KeyOf(a), status));
    var w5 := Next(w4, Post(b));
    var w6 := Next(w5, SendOk(2));
    assert w6 == Run(w5, [SendOk(2)]);
    assert w6 == Run(w4, [Post(b), SendOk(2)]);
    assert w6 == Run(w3, [Ack(KeyOf(a), status), Post(b), SendOk(2)]);
    assert w6 == Run(w2, [Post(a), Ack(KeyOf(a), status), Post(b), SendOk(2)]);
    assert w6 == Run(w1, [SendOk(1), Post(a), Ack(KeyOf(a), status), Post(b), SendOk(2)]);
  }
}

/** The event store read off the history of a run: which reservations are open,
    which of them an ack has reached, and what is retained, all said by the
    steps that happened. */
module EventHistory {
  import opened RunOrder
  import opened EventRetention
  import opened EventProtocol
  import opened EventTheorems

  lemma RunSnoc(w: World, steps: seq<Step>)
    requires steps != []
    ensures Run(w, steps) == Next(Run(w, steps[..|steps| - 1]), steps[|steps| - 1])
  {
    var n := |steps| - 1;
    assert steps == steps[..n] + [steps[n]];
    RunConcat(w, steps[..n], [steps[n]]);
    assert Run(Run(w, steps[..n]), [steps[n]]) == Next(Run(w, steps[..n]), steps[n]);
  }

  // --- Open reservations ---

  /** The step at h posts evt, fits, and is answered with id. */
  ghost predicate Opens(w: World, steps: seq<Step>, h: nat, id: nat) {
    && h < |steps| && steps[h].Post?
    && var s := Run(w, steps[..h]).store;
       Fits(s, KeyOf(steps[h].evt), steps[h].evt.size) && id == s.nextId + 1
  }

  /** The step posts the key again or resolves the reservation. */
  predicate Closes(step: Step, key: Key, id: nat) {
    || (step.Post? && KeyOf(step.evt) == key)
    || ((step.SendOk? || step.SendFail?) && step.id == id)
  }

  /** The reservation opened at h is open still. */
  ghost predicate IsOpen(w: World, steps: seq<Step>, h: nat, id: nat) {
    Opens(w, steps, h, id) && forall j | h < j < |steps| :: !Closes(steps[j], KeyOf(steps[h].evt), id)
  }

  /** An ack of the key came since h, at a moment when nothing was retained. */
  ghost predicate AckedSince(w: World, steps: seq<Step>, h: nat, key: Key) {
    exists j :: h < j < |steps| && AcksAt(w, steps, j, key)
  }

  ghost predicate AcksAt(w: World, steps: seq<Step>, j: nat, key: Key)
    requires j < |steps|
  {
    steps[j].Ack? && steps[j].key == key && key !in Run(w, steps[..j]).store.byKey
  }

  /** The store holds the reservation for evt, acked or not. */
  ghost predicate HasIt(v: World, evt: BuildEvent, id: nat, acked: bool) {
    && id in v.store.pending && v.store.pending[id].key == KeyOf(evt) && v.store.pending[id].acked == acked
    && id in v.calls && v.calls[id].evt == evt
  }

  /** What the store knows of the reservation opened at h. */
  ghost predicate Tracks(w: World, steps: seq<Step>, h: nat, id: nat)
    requires h < |steps| && steps[h].Post?
  {
    HasIt(Run(w, steps), steps[h].evt, id, AckedSince(w, steps, h, KeyOf(steps[h].evt)))
  }

  lemma PostStep(w: World, evt: BuildEvent, id: nat)
    requires Sound(w)
    ensures var v, given := Next(w, Post(evt)), w.store.nextId + 1;
            && (Fits(w.store, KeyOf(evt), evt.size) ==>
                  && given in v.store.pending && v.store.pending[given].key == KeyOf(evt)
                  && !v.store.pending[given].acked && given in v.calls && v.calls[given].evt == evt)
            && (id in v.store.pending <==>
                  || (id == given && Fits(w.store, KeyOf(evt), evt.size))
                  || (id in w.store.pending && w.store.pending[id].key != KeyOf(evt)))
            && (id in w.store.pending && id in v.store.pending ==>
                  v.store.pending[id] == w.store.pending[id] && v.calls[id] == w.calls[id])
  {
    AdmittedExactly(w.store, KeyOf(evt), evt.size);
    ReserveEffect(w.store, KeyOf(evt), evt.size);
  }

  lemma CommitStep(w: World, call: nat, id: nat)
    requires w.store.Inverse() && Linked(w)
    ensures var v := Next(w, SendOk(call));
            && (id in v.store.pending <==> id in w.store.pending && call != id)
            && (id in v.store.pending ==>
                  v.store.pending[id] == w.store.pending[id] && id in v.calls && v.calls[id] == w.calls[id])
  {
  }

  lemma RollbackStep(w: World, call: nat, id: nat)
    requires w.store.Inverse() && Linked(w)
    ensures var v := Next(w, SendFail(call));
            && (id in v.store.pending <==> id in w.store.pending && call != id)
            && (id in v.store.pending ==>
                  v.store.pending[id] == w.store.pending[id] && id in v.calls && v.calls[id] == w.calls[id])
  {
  }

  lemma AckStep(w: World, key: Key, status: string, id: nat)
    requires w.store.Inverse() && Linked(w)
    ensures var v := Next(w, Ack(key, status));
            && v.store.pending.Keys == w.store.pending.Keys && v.calls == w.calls
            && (id in w.store.pending ==>
                  && v.store.pending[id].key == w.store.pending[id].key
                  && (v.store.pending[id].acked <==>
                        w.store.pending[id].acked || (key == w.store.pending[id].key && key !in w.store.byKey)))
  {
  }

  ghost predicate Gives(w: World, step: Step, id: nat) {
    step.Post? && Fits(w.store, KeyOf(step.evt), step.evt.size) && id == w.store.nextId + 1
  }

  /** What one step does to one reservation. */
  lemma PendingStep(w: World, step: Step, id: nat)
    requires Sound(w)
    ensures var v := Next(w, step);
            && (id in v.store.pending <==>
                  Gives(w, step, id) || (id in w.store.pending && !Closes(step, w.store.pending[id].key, id)))
            && (id in w.store.pending && id in v.store.pending ==>
                  && v.store.pending[id].key == w.store.pending[id].key
                  && id in v.calls && v.calls[id] == w.calls[id]
                  && (v.store.pending[id].acked <==>
                        || w.store.pending[id].acked
                        || (step.Ack? && step.key == w.store.pending[id].key && step.key !in w.store.byKey)))
  {
    match step {
      case Post(evt) => PostStep(w, evt, id);
      case Ack(k, status) => AckStep(w, k, status, id);
      case SendOk(call) => CommitStep(w, call, id);
      case SendFail(call) => RollbackStep(w, call, id);
    }
  }

  lemma PrefixOpen(w: World, steps: seq<Step>, h: nat, id: nat)
    requires steps != [] && h < |steps| - 1
    ensures var n := |steps| - 1;
            IsOpen(w, steps, h, id) <==>
              IsOpen(w, steps[..n], h, id) && !Closes(steps[n], KeyOf(steps[h].evt), id)
  {
    var n := |steps| - 1;
    assert forall j | 0 <= j < n :: steps[..n][j] == steps[j] && steps[..n][..j] == steps[..j];
  }

  lemma PrefixAcked(w: World, steps: seq<Step>, h: nat, key: Key)
    requires steps != [] && h < |steps| - 1
    ensures AckedSince(w, steps, h, key) <==>
              AckedSince(w, steps[..|steps| - 1], h, key) || AcksAt(w, steps, |steps| - 1, key)
  {
    var n := |steps| - 1;
    assert forall j | 0 <= j < n :: AcksAt(w, steps, j, key) <==> AcksAt(w, steps[..n], j, key) by {
      assert forall j | 0 <= j < n :: steps[..n][j] == steps[j] && steps[..n][..j] == steps[..j];
    }
    if j :| h < j < n && AcksAt(w, steps[..n], j, key) { assert AcksAt(w, steps, j, key); }
    if j :| h < j < |steps| && AcksAt(w, steps, j, key) && j < n { assert AcksAt(w, steps[..n], j, key); }
  }

  lemma HoldsOn(u: World, step: Step, evt: BuildEvent, id: nat, acked: bool)
    requires Sound(u) && HasIt(u, evt, id, acked) && !Closes(step, KeyOf(evt), id)
    ensures HasIt(Next(u, step), evt, id,
                  acked || (step.Ack? && step.key == KeyOf(evt) && step.key !in u.store.byKey))
  {
    PendingStep(u, step, id);
  }

  /** One more step: an open reservation is tracked on. */
  lemma TracksOn(w: World, steps: seq<Step>, h: nat, id: nat)
    requires steps != [] && h < |steps| - 1 && IsOpen(w, steps, h, id)
    requires Sound(Run(w, steps[..|steps| - 1])) && Tracks(w, steps[..|steps| - 1], h, id)
    ensures Tracks(w, steps, h, id)
  {
    var n, evt := |steps| - 1, steps[h].evt;
    var acked := AckedSince(w, steps[..n], h, KeyOf(evt));
    assert steps[..n][h] == steps[h] && !Closes(steps[n], KeyOf(evt), id);
    HoldsOn(Run(w, steps[..n]), steps[n], evt, id, acked);
    RunSnoc(w, steps);
    PrefixAcked(w, steps, h, KeyOf(evt));
  }

  lemma TracksFresh(w: World, steps: seq<Step>, id: nat)
    requires steps != [] && Opens(w, steps, |steps| - 1, id) && Sound(Run(w, steps[..|steps| - 1]))
    ensures Tracks(w, steps, |steps| - 1, id)
  {
    RunSnoc(w, steps);
    PostStep(Run(w, steps[..|steps| - 1]), steps[|steps| - 1].evt, id);
  }

  /** In every run the open reservations are exactly those a fitting post opened
      and nothing closed since. Each carries its post's event, and is acked
      exactly when an ack found its key unretained meanwhile. */
  lemma {:induction false} OpenExactly(maxBytes: int, steps: seq<Step>, id: nat)
    ensures var w := Initial(maxBytes);
            && (id in Run(w, steps).store.pending <==> exists h: nat :: IsOpen(w, steps, h, id))
            && (forall h: nat | IsOpen(w, steps, h, id) :: Tracks(w, steps, h, id))
    decreases |steps|
  {
    var w := Initial(maxBytes);
    if steps != [] {
      var n := |steps| - 1;
      OpenExactly(maxBytes, steps[..n], id);
      InitialSound(maxBytes);
      EveryRunSound(w, steps[..n]);
      forall h: nat | IsOpen(w, steps, h, id) ensures Tracks(w, steps, h, id) {
        if h == n {
          TracksFresh(w, steps, id);
        } else {
          PrefixOpen(w, steps, h, id);
          assert Tracks(w, steps[..n], h, id);
          TracksOn(w, steps, h, id);
        }
      }
      if id in Run(w, steps).store.pending { var h := OpenedAt(w, steps, id); }
    }
  }

  lemma OpenedAt(w: World, steps: seq<Step>, id: nat) returns (h: nat)
    requires steps != [] && id in Run(w, steps).store.pending
    requires var n := |steps| - 1;
             && Sound(Run(w, steps[..n]))
             && (id in Run(w, steps[..n]).store.pending ==> exists h: nat :: IsOpen(w, steps[..n], h, id))
             && (forall h: nat | IsOpen(w, steps[..n], h, id) :: Tracks(w, steps[..n], h, id))
    ensures IsOpen(w, steps, h, id)
  {
    var n := |steps| - 1;
    RunSnoc(w, steps);
    PendingStep(Run(w, steps[..n]), steps[n], id);
    if Gives(Run(w, steps[..n]), steps[n], id) {
      h := n;
    } else {
      h :| IsOpen(w, steps[..n], h, id);
      assert Tracks(w, steps[..n], h, id);
      PrefixOpen(w, steps, h, id);
    }
  }

  // --- Retained events ---

  /** The event posted at h is committed at i: its send succeeds while its
      reservation is open and no ack has reached it. */
  ghost predicate DeliveredAt(w: World, steps: seq<Step>, h: nat, i: nat) {
    && h < i < |steps| && steps[h].Post? && steps[i].SendOk?
    && IsOpen(w, steps[..i], h, steps[i].id) && !AckedSince(w, steps[..i], h, KeyOf(steps[h].evt))
  }

  /** A commit is the delivery of the event whose post opened its reservation. */
  lemma CommitsExactly(maxBytes: int, steps: seq<Step>, i: nat, key: Key)
    requires i < |steps|
    ensures var w := Initial(maxBytes);
            Commits(Run(w, steps[..i]), steps[i], key)
            <==> exists h: nat :: DeliveredAt(w, steps, h, i) && KeyOf(steps[h].evt) == key
  {
    var w, before := Initial(maxBytes), steps[..i];
    if steps[i].SendOk? {
      var id := steps[i].id;
      OpenExactly(maxBytes, before, id);
      if Commits(Run(w, before), steps[i], key) {
        var h: nat :| IsOpen(w, before, h, id);
        assert Tracks(w, before, h, id) && before[h] == steps[h];
        assert DeliveredAt(w, steps, h, i);
      }
      if h: nat :| DeliveredAt(w, steps, h, i) && KeyOf(steps[h].evt) == key {
        assert Tracks(w, before, h, id) && before[h] == steps[h];
      }
    }
  }

  /** In every run a key is retained exactly when some delivery of it has no
      later ack. */
  lemma RetainedByHistory(maxBytes: int, steps: seq<Step>, key: Key)
    ensures var w := Initial(maxBytes);
            key in Run(w, steps).store.byKey <==>
              exists h: nat, i: nat ::
                && DeliveredAt(w, steps, h, i) && KeyOf(steps[h].evt) == key
                && forall j | i < j < |steps| :: !(steps[j].Ack? && steps[j].key == key)
  {
    var w := Initial(maxBytes);
    RetainedExactly(maxBytes, steps, key);
    if key in Run(w, steps).store.byKey {
      var i: nat :| CommitStands(w, steps, i, key);
      CommitsExactly(maxBytes, steps, i, key);
    }
    if h: nat, i: nat :| DeliveredAt(w, steps, h, i) && KeyOf(steps[h].evt) == key
                         && forall j | i < j < |steps| :: !(steps[j].Ack? && steps[j].key == key) {
      CommitsExactly(maxBytes, steps, i, key);
      assert CommitStands(w, steps, i, key);
    }
  }

  /** No later delivery of the key, and no later ack of it. */
  ghost predicate LastDelivery(w: World, steps: seq<Step>, h: nat, i: nat) {
    && DeliveredAt(w, steps, h, i)
    && var key := KeyOf(steps[h].evt);
       forall j | i < j < |steps| ::
         !(steps[j].Ack? && steps[j].key == key) && !Commits(Run(w, steps[..j]), steps[j], key)
  }

  lemma EntryStays(w: World, step: Step, key: Key)
    requires Sound(w) && key in w.store.byKey && !(step.Ack? && step.key == key) && !Commits(w, step, key)
    ensures key in Next(w, step).store.byKey && Next(w, step).store.byKey[key] == w.store.byKey[key]
  {
    match step
    case Post(evt) => PostRetains(w.store, KeyOf(evt), evt.size);
    case SendOk(_) =>
    case _ =>
  }

  /** In every run the entry retained for a key is the very event of its last
      delivery, charged with its own size. */
  lemma {:induction false} RetainedContent(maxBytes: int, steps: seq<Step>, h: nat, i: nat)
    requires LastDelivery(Initial(maxBytes), steps, h, i)
    ensures var s, evt := Run(Initial(maxBytes), steps).store, steps[h].evt;
            KeyOf(evt) in s.byKey && s.byKey[KeyOf(evt)] == Retained(evt, evt.size)
    decreases |steps|
  {
    var w, n, key := Initial(maxBytes), |steps| - 1, KeyOf(steps[h].evt);
    InitialSound(maxBytes);
    EveryRunSound(w, steps[..n]);
    RunSnoc(w, steps);
    if i == n {
      OpenExactly(maxBytes, steps[..n], steps[n].id);
      assert Tracks(w, steps[..n], h, steps[n].id) && steps[..n][h] == steps[h];
      CommitOwned(Run(w, steps[..n]), steps[n].id);
    } else {
      assert forall j | 0 <= j < n :: steps[..n][j] == steps[j] && steps[..n][..j] == steps[..j];
      RetainedContent(maxBytes, steps[..n], h, i);
      EntryStays(Run(w, steps[..n]), steps[n], key);
    }
  }
}

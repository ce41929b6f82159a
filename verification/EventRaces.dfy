/** The ack race of a first delivery: whether the ack is read before or after
    the commit, with any steps on other keys in between, the world ends the
    same. The proof is a simulation between the acked-but-open run and the
    committed-but-unacked run. */
module EventRaces {
  import opened RunOrder
  import opened EventRetention
  import opened EventProtocol

  /** A first delivery in flight: an open, unacked reservation that opened
      with no committed entry and still has none. */
  ghost predicate FirstDelivery(w: World, id: nat) {
    && id in w.store.pending && id in w.calls
    && !w.store.pending[id].acked
    && w.store.pending[id].key !in w.store.byKey
    && w.calls[id].base == 0
  }

  /** The step neither posts nor acks the key and resolves another handler. */
  ghost predicate Elsewhere(step: Step, key: Key, id: nat) {
    match step
    case Post(evt) => KeyOf(evt) != key
    case SendOk(other) => other != id
    case SendFail(other) => other != id
    case Ack(k, _) => k != key
  }

  /** The committed-but-unacked side of the race: the key is retained, has no
      open reservation, and id is closed. */
  ghost predicate Late(s: Store, id: nat, p: Pending) {
    && p.key in s.byKey && s.byKey[p.key].bytes == p.charged && p.key !in s.openByKey
    && id !in s.pending && id <= s.nextId
  }

  /** The acked-but-open side that corresponds to a late store. */
  function Undelivered(s: Store, id: nat, p: Pending): Store {
    s.(byKey := s.byKey - {p.key},
       pending := s.pending[id := p],
       openByKey := s.openByKey[p.key := id],
       order := RemoveSeq(s.order, p.key))
  }

  lemma SupersedeSquare(s: Store, id: nat, p: Pending, key: Key)
    requires s.Inverse() && Late(s, id, p) && key != p.key
    ensures Supersede(Undelivered(s, id, p), key) == Undelivered(Supersede(s, key), id, p)
  {
    var u := Undelivered(s, id, p);
    if key in s.openByKey {
      var other := s.openByKey[key];
      assert u.pending - {other} == (s.pending - {other})[id := p];
      assert u.openByKey - {key} == (s.openByKey - {key})[p.key := id];
    }
  }

  lemma AdmitSquare(s: Store, id: nat, p: Pending, key: Key, delta: int)
    requires id <= s.nextId && key != p.key
    ensures Admit(Undelivered(s, id, p), key, delta)
         == (Undelivered(Admit(s, key, delta).0, id, p), Admit(s, key, delta).1)
  {
    var adm := Admit(s, key, delta).1;
    if adm.ok {
      var q := Pending(key, adm.charged, false, "");
      assert s.pending[id := p][adm.id := q] == s.pending[adm.id := q][id := p];
      assert s.openByKey[p.key := id][key := adm.id] == s.openByKey[key := adm.id][p.key := id];
    }
  }

  lemma ReserveSquare(s: Store, id: nat, p: Pending, key: Key, size: int)
    requires s.Inverse() && Late(s, id, p) && key != p.key
    ensures Reserve(Undelivered(s, id, p), key, size)
         == (Undelivered(Reserve(s, key, size).0, id, p), Reserve(s, key, size).1)
  {
    SupersedeSquare(s, id, p, key);
    AdmitSquare(Supersede(s, key), id, p, key, size - Base(s, key));
  }

  lemma CloseSquare(s: Store, id: nat, p: Pending, other: nat)
    requires s.Inverse() && Late(s, id, p) && other != id && other in s.pending
    ensures s.pending[other].key != p.key
    ensures Close(Undelivered(s, id, p), other) == Undelivered(Close(s, other), id, p)
  {
    var key := s.pending[other].key;
    assert s.pending[id := p] - {other} == (s.pending - {other})[id := p];
    assert s.openByKey[p.key := id] - {key} == (s.openByKey - {key})[p.key := id];
  }

  lemma RollbackSquare(s: Store, id: nat, p: Pending, other: nat)
    requires s.Inverse() && Late(s, id, p) && other != id
    ensures Rollback(Undelivered(s, id, p), other) == Undelivered(Rollback(s, other), id, p)
  {
    if other in s.pending { CloseSquare(s, id, p, other); }
  }

  lemma CommitSquare(s: Store, id: nat, p: Pending, other: nat, evt: BuildEvent, size: nat)
    requires s.Inverse() && Agrees(s.order, s.byKey.Keys) && Late(s, id, p) && other != id && Owns(s, other, evt)
    ensures Commit(Undelivered(s, id, p), other, evt, size)
         == (Undelivered(Commit(s, other, evt, size).0, id, p), Commit(s, other, evt, size).1)
  {
    if other in s.pending {
      CloseSquare(s, id, p, other);
      var key := KeyOf(evt);
      AppendCommutes(s.order, p.key, key);
      assert s.byKey[key := Retained(evt, size)] - {p.key} == (s.byKey - {p.key})[key := Retained(evt, size)];
    }
  }

  lemma ReleaseSquare(s: Store, id: nat, p: Pending, key: Key, status: string)
    requires s.Inverse() && Agrees(s.order, s.byKey.Keys) && Late(s, id, p) && key != p.key
    ensures var (t, freed, ok) := Release(s, key, status);
            Release(Undelivered(s, id, p), key, status) == (Undelivered(t, id, p), freed, ok)
  {
    if key in s.byKey {
      RemoveCommutes(s.order, p.key, key);
      assert s.byKey - {key} - {p.key} == s.byKey - {p.key} - {key};
    } else if key in s.openByKey {
      var other := s.openByKey[key];
      var q := s.pending[other].(acked := true, ackedStatus := status);
      assert s.pending[id := p][other := q] == s.pending[other := q][id := p];
    }
  }

  // --- The race over whole runs ---

  /** The early world that corresponds to a late one. */
  function EarlyWorld(w: World, id: nat, p: Pending, c: Call): World {
    World(Undelivered(w.store, id, p), w.calls[id := c], w.gauge - c.evt.size)
  }

  lemma PostSquare(w: World, id: nat, p: Pending, c: Call, evt: BuildEvent)
    requires w.store.Inverse() && Late(w.store, id, p) && KeyOf(evt) != p.key
    ensures Next(EarlyWorld(w, id, p, c), Post(evt)) == EarlyWorld(Next(w, Post(evt)), id, p, c)
  {
    ReserveSquare(w.store, id, p, KeyOf(evt), evt.size);
    var (t, adm) := Reserve(w.store, KeyOf(evt), evt.size);
    assert adm.ok ==> adm.id > w.store.nextId by { ReserveEffect(w.store, KeyOf(evt), evt.size); }
    EnteredSquare(w, t, adm, id, p, c, Call(evt, Base(w.store, KeyOf(evt))));
  }

  lemma EnteredSquare(w: World, t: Store, adm: Admission, id: nat, p: Pending, c: Call, call: Call)
    requires adm.ok ==> adm.id != id
    ensures Entered(EarlyWorld(w, id, p, c), Undelivered(t, id, p), adm, call)
         == EarlyWorld(Entered(w, t, adm, call), id, p, c)
  {
    assert adm.ok ==> w.calls[id := c][adm.id := call] == w.calls[adm.id := call][id := c];
  }

  lemma SendOkSquare(w: World, id: nat, p: Pending, c: Call, other: nat)
    requires w.store.Inverse() && Agrees(w.store.order, w.store.byKey.Keys)
    requires Late(w.store, id, p) && other != id
    requires other in w.calls ==> Owns(w.store, other, w.calls[other].evt)
    ensures Next(EarlyWorld(w, id, p, c), SendOk(other)) == EarlyWorld(Next(w, SendOk(other)), id, p, c)
  {
    if other in w.calls {
      CommitSquare(w.store, id, p, other, w.calls[other].evt, w.calls[other].evt.size);
      assert w.calls[id := c] - {other} == (w.calls - {other})[id := c];
    }
  }

  lemma SendFailSquare(w: World, id: nat, p: Pending, c: Call, other: nat)
    requires w.store.Inverse() && Late(w.store, id, p) && other != id
    ensures Next(EarlyWorld(w, id, p, c), SendFail(other)) == EarlyWorld(Next(w, SendFail(other)), id, p, c)
  {
    RollbackSquare(w.store, id, p, other);
    assert w.calls[id := c] - {other} == (w.calls - {other})[id := c];
  }

  lemma StepSquare(w: World, id: nat, p: Pending, c: Call, step: Step)
    requires Sound(w) && Late(w.store, id, p) && Elsewhere(step, p.key, id)
    ensures Next(EarlyWorld(w, id, p, c), step) == EarlyWorld(Next(w, step), id, p, c)
  {
    match step
    case Post(evt) => PostSquare(w, id, p, c, evt);
    case SendOk(other) => SendOkSquare(w, id, p, c, other);
    case SendFail(other) => SendFailSquare(w, id, p, c, other);
    case Ack(key, status) => ReleaseSquare(w.store, id, p, key, status);
  }

  lemma StepStaysLate(w: World, id: nat, p: Pending, step: Step)
    requires w.store.Inverse() && Late(w.store, id, p) && Elsewhere(step, p.key, id)
    ensures Late(Next(w, step).store, id, p)
    ensures id !in w.calls ==> id !in Next(w, step).calls
  {
    match step
    case Post(evt) =>
      ReserveEffect(w.store, KeyOf(evt), evt.size);
    case _ =>
  }

  lemma {:induction false} RunSquare(w: World, id: nat, p: Pending, c: Call, steps: seq<Step>)
    requires Sound(w) && Late(w.store, id, p) && id !in w.calls
    requires forall i | 0 <= i < |steps| :: Elsewhere(steps[i], p.key, id)
    ensures Run(EarlyWorld(w, id, p, c), steps) == EarlyWorld(Run(w, steps), id, p, c)
    ensures Late(Run(w, steps).store, id, p) && id !in Run(w, steps).calls
    decreases |steps|
  {
    if steps != [] {
      StepSquare(w, id, p, c, steps[0]);
      StepStaysLate(w, id, p, steps[0]);
      StepKeepsSound(w, steps[0]);
      RunSquare(Next(w, steps[0]), id, p, c, steps[1..]);
    }
  }

  /** Committing a first delivery, seen from the acked side. */
  lemma CommitFirst(s: Store, id: nat, evt: BuildEvent, status: string)
    requires s.Inverse() && Agrees(s.order, s.byKey.Keys)
    requires id in s.pending && !s.pending[id].acked && s.pending[id].charged == evt.size
    requires s.pending[id].key == KeyOf(evt) && KeyOf(evt) !in s.byKey
    ensures var p := s.pending[id].(acked := true, ackedStatus := status);
            && Late(Commit(s, id, evt, evt.size).0, id, p)
            && MarkAcked(s, p.key, status) == Undelivered(Commit(s, id, evt, evt.size).0, id, p)
  {
    var key := KeyOf(evt);
    var p := s.pending[id].(acked := true, ackedStatus := status);
    AppendThenRemove(s.order, s.byKey.Keys, key);
    assert s.byKey[key := Retained(evt, evt.size)] - {key} == s.byKey;
    assert (s.pending - {id})[id := p] == s.pending[id := p];
    assert (s.openByKey - {key})[key := id] == s.openByKey;
  }

  lemma RaceStart(w: World, id: nat, status: string)
    requires w.store.Inverse() && Agrees(w.store.order, w.store.byKey.Keys) && FirstDelivery(w, id)
    requires LinkedCall(w.store, w.store.pending[id], w.calls[id])
    ensures var p := w.store.pending[id].(acked := true, ackedStatus := status);
            var late := Next(w, SendOk(id));
            && Late(late.store, id, p) && id !in late.calls && p.charged == w.calls[id].evt.size
            && Next(w, Ack(p.key, status)) == EarlyWorld(late, id, p, w.calls[id])
  {
    CommitFirst(w.store, id, w.calls[id].evt, status);
    assert (w.calls - {id})[id := w.calls[id]] == w.calls;
  }

  lemma RaceEnd(v: World, id: nat, p: Pending, c: Call, status: string)
    requires Late(v.store, id, p) && id !in v.calls && p.acked && p.charged == c.evt.size
    ensures Next(EarlyWorld(v, id, p, c), SendOk(id)) == Next(v, Ack(p.key, status))
  {
    assert v.store.pending[id := p] - {id} == v.store.pending;
    assert v.store.openByKey[p.key := id] - {p.key} == v.store.openByKey;
    assert v.calls[id := c] - {id} == v.calls;
  }

  /** Reading the ack before the commit or after it ends in the same world:
      same entries, order, totals, reservations, handlers and gauge. */
  lemma AckRaceConfluence(w: World, id: nat, status: string, steps: seq<Step>)
    requires Sound(w) && FirstDelivery(w, id)
    requires forall i | 0 <= i < |steps| :: Elsewhere(steps[i], w.store.pending[id].key, id)
    ensures var ack := Ack(w.store.pending[id].key, status);
            Next(Run(Next(w, ack), steps), SendOk(id)) == Next(Run(Next(w, SendOk(id)), steps), ack)
  {
    var key, c := w.store.pending[id].key, w.calls[id];
    var p := w.store.pending[id].(acked := true, ackedStatus := status);
    RaceStart(w, id, status);
    var late := Next(w, SendOk(id));
    StepKeepsSound(w, SendOk(id));
    RunSquare(late, id, p, c, steps);
    RaceEnd(Run(late, steps), id, p, c, status);
  }
}

/** The event store under its callers: every interleaving of the HTTP
    handlers that post events and the stream loop that reads acks. A handler
    holds its reservation id and its event between reserve and the outcome of
    its send; a send either succeeds (commit) or fails (rollback). */
module EventProtocol {
  import opened RunOrder
  import opened EventRetention

  /** The locals of one handler between reserve and commit or rollback. base
      is a history value: the committed bytes of the key when it reserved. */
  datatype Call = Call(evt: BuildEvent, base: int)

  datatype World = World(store: Store, calls: map<nat, Call>, gauge: int)

  datatype Step =
    | Post(evt: BuildEvent)
    | SendOk(id: nat)
    | SendFail(id: nat)
    | Ack(key: Key, status: string)

  function Initial(maxBytes: int): World {
    World(Store(map[], map[], map[], map[], 0, maxBytes, 0), map[], 0)
  }

  /** A handler that was admitted goes on to send; a refused one returns. */
  function Entered(w: World, s: Store, r: Admission, call: Call): World {
    if r.ok then w.(store := s, calls := w.calls[r.id := call]) else w.(store := s)
  }

  function Next(w: World, step: Step): World {
    match step
    case Post(evt) =>
      var (s, r) := Reserve(w.store, KeyOf(evt), evt.size);
      Entered(w, s, r, Call(evt, Base(w.store, KeyOf(evt))))
    case SendOk(id) =>
      if id !in w.calls then w
      else
        var (s, delta) := Commit(w.store, id, w.calls[id].evt, w.calls[id].evt.size);
        World(s, w.calls - {id}, w.gauge + delta)
    case SendFail(id) =>
      if id !in w.calls then w
      else w.(store := Rollback(w.store, id), calls := w.calls - {id})
    case Ack(key, status) =>
      var (s, freed, _) := Release(w.store, key, status);
      w.(store := s, gauge := w.gauge - freed)
  }

  function Run(w: World, steps: seq<Step>): World
    decreases |steps|
  {
    if steps == [] then w else Run(Next(w, steps[0]), steps[1..])
  }

  lemma {:induction false} RunConcat(w: World, a: seq<Step>, b: seq<Step>)
    ensures Run(w, a + b) == Run(Run(w, a), b)
    decreases |a|
  {
    if a == [] {
      assert a + b == b;
    } else {
      assert (a + b)[1..] == a[1..] + b;
      RunConcat(Next(w, a[0]), a[1..], b);
    }
  }

  // --- The invariant of every interleaving ---

  /** Each open reservation belongs to a live handler, is charged exactly the
      growth over the bytes committed when it opened, and that committed entry
      is either still there unchanged or gone. */
  ghost predicate Linked(w: World) {
    && (forall id | id in w.calls :: id <= w.store.nextId)
    && (forall id | id in w.store.pending ::
          && id in w.calls
          && LinkedCall(w.store, w.store.pending[id], w.calls[id]))
  }

  ghost predicate LinkedCall(s: Store, p: Pending, c: Call) {
    && p.key == KeyOf(c.evt)
    && c.base >= 0
    && p.charged == Max(0, c.evt.size - c.base)
    && (p.key in s.byKey ==> s.byKey[p.key].bytes == c.base && !p.acked)
  }

  function Max(a: int, b: int): int { if a < b then b else a }

  function Min(a: int, b: int): int { if a < b then a else b }

  /** The gauge reports exactly the retained bytes. */
  ghost predicate Sound(w: World) {
    w.store.Valid() && Linked(w) && w.gauge == w.store.RetainedBytes()
  }

  ghost function OpenElsewhere(s: Store, key: Key): map<nat, Pending> {
    map id | id in s.pending && s.pending[id].key != key :: s.pending[id]
  }

  lemma SupersedeEffect(s: Store, key: Key)
    requires s.Inverse()
    ensures Supersede(s, key).pending == OpenElsewhere(s, key)
    ensures Supersede(s, key).nextId == s.nextId && Supersede(s, key).byKey == s.byKey
  {
  }

  /** What a reserve does to the open reservations: it closes the key's own,
      keeps the others, and opens a fresh one when it is admitted. */
  lemma ReserveEffect(s: Store, key: Key, size: int)
    requires s.Inverse()
    ensures var (t, r) := Reserve(s, key, size);
            && t.byKey == s.byKey
            && t.nextId == (if r.ok then r.id else s.nextId)
            && t.pending == if r.ok then OpenElsewhere(s, key)[s.nextId + 1 := Pending(key, r.charged, false, "")]
                            else OpenElsewhere(s, key)
  {
    SupersedeEffect(s, key);
  }

  lemma PostKeepsLinked(w: World, evt: BuildEvent)
    requires w.store.Inverse() && Linked(w) && Base(w.store, KeyOf(evt)) >= 0
    ensures Linked(Next(w, Post(evt)))
  {
    ReserveEffect(w.store, KeyOf(evt), evt.size);
    var w' := Next(w, Post(evt));
    forall id | id in w'.store.pending
      ensures id in w'.calls && LinkedCall(w'.store, w'.store.pending[id], w'.calls[id])
    {
    }
  }

  lemma SendOkKeepsLinked(w: World, id: nat)
    requires w.store.Inverse() && Linked(w)
    ensures Linked(Next(w, SendOk(id)))
  {
  }

  lemma SendFailKeepsLinked(w: World, id: nat)
    requires w.store.Inverse() && Linked(w)
    ensures Linked(Next(w, SendFail(id)))
  {
  }

  lemma AckKeepsLinked(w: World, key: Key, status: string)
    requires w.store.Inverse() && Linked(w)
    ensures Linked(Next(w, Ack(key, status)))
  {
  }

  lemma StepKeepsLinked(w: World, step: Step)
    requires w.store.Inverse() && Linked(w) && forall k | k in w.store.byKey :: w.store.byKey[k].bytes >= 0
    ensures Linked(Next(w, step))
  {
    match step
    case Post(evt) => PostKeepsLinked(w, evt);
    case Ack(key, status) => AckKeepsLinked(w, key, status);
    case SendOk(id) => SendOkKeepsLinked(w, id);
    case SendFail(id) => SendFailKeepsLinked(w, id);
  }

  /** The gauge moves by exactly the change in retained bytes. */
  lemma StepKeepsGauge(w: World, step: Step)
    requires w.store.Valid()
    ensures Next(w, step).gauge - w.gauge == Next(w, step).store.RetainedBytes() - w.store.RetainedBytes()
  {
    match step
    case Post(evt) => SupersedeKeepsValid(w.store, KeyOf(evt));
    case SendOk(id) =>
      if id in w.calls { CommitAccounted(w.store, id, w.calls[id].evt, w.calls[id].evt.size); }
    case SendFail(id) =>
    case Ack(key, status) => ReleaseKeepsValid(w.store, key, status);
  }

  lemma StepKeepsValid(w: World, step: Step)
    requires w.store.Valid() && Linked(w)
    ensures Next(w, step).store.Valid()
  {
    match step
    case Post(evt) => ReserveKeepsValid(w.store, KeyOf(evt), evt.size);
    case SendOk(id) =>
      if id in w.calls { CommitKeepsValid(w.store, id, w.calls[id].evt, w.calls[id].evt.size); }
    case SendFail(id) => RollbackKeepsValid(w.store, id);
    case Ack(key, status) => ReleaseKeepsValid(w.store, key, status);
  }

  lemma StepKeepsSound(w: World, step: Step)
    requires Sound(w)
    ensures Sound(Next(w, step))
  {
    StepKeepsValid(w, step);
    StepKeepsLinked(w, step);
    StepKeepsGauge(w, step);
  }

  /** Over every run: exact accounting, exact inverses, an exact order index,
      a gauge equal to the retained bytes, and no negative total. */
  lemma {:induction false} EveryRunSound(w: World, steps: seq<Step>)
    requires Sound(w)
    ensures Sound(Run(w, steps))
    ensures 0 <= Run(w, steps).gauge <= Run(w, steps).store.totalBytes
    decreases |steps|
  {
    if steps == [] {
      ValidTotals(w.store);
    } else {
      StepKeepsSound(w, steps[0]);
      EveryRunSound(Next(w, steps[0]), steps[1..]);
    }
  }

  lemma InitialSound(maxBytes: int)
    ensures Sound(Initial(maxBytes))
  {
  }
}

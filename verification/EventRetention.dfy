/** The event retention store of the loopback API: a reserve / send /
    commit-or-rollback protocol under a byte cap. Every locked method is one
    atomic step; the class keeps the fields the source keeps, and each method
    is proved against a step function on the store's value. */
module EventRetention {
  import opened RunOrder
  import opened Sums

  /** A build event. size is the length of its wire encoding. */
  datatype BuildEvent = BuildEvent(run: string, seqNo: int, size: nat, body: string)

  function KeyOf(evt: BuildEvent): Key {
    Key(evt.run, evt.seqNo)
  }

  datatype Retained = Retained(evt: BuildEvent, bytes: int)

  /** One open reserve call. acked records an ack read while it was open. */
  datatype Pending = Pending(key: Key, charged: int, acked: bool, ackedStatus: string)

  function EntryBytes(e: Retained): int { e.bytes }

  function Charge(p: Pending): int { p.charged }

  datatype Store = Store(
    byKey: map<Key, Retained>,
    pending: map<nat, Pending>,
    openByKey: map<Key, nat>,
    order: Order,
    totalBytes: int,
    maxBytes: int,
    nextId: nat)
  {
    ghost function RetainedBytes(): int { SumBy(byKey, EntryBytes) }

    ghost function OpenCharges(): int { SumBy(pending, Charge) }

    /** totalBytes is exactly the committed bytes plus the open charges. */
    ghost predicate Accounted() {
      && totalBytes == RetainedBytes() + OpenCharges()
      && (forall k | k in byKey :: byKey[k].bytes >= 0)
      && (forall id | id in pending :: pending[id].charged >= 0)
    }

    /** pending and openByKey are exact inverses: one open reservation a key. */
    ghost predicate Inverse() {
      && (forall k | k in openByKey :: openByKey[k] in pending && pending[openByKey[k]].key == k)
      && (forall id | id in pending ::
            id <= nextId && pending[id].key in openByKey && openByKey[pending[id].key] == id)
    }

    /** The order index lists exactly the committed keys. */
    ghost predicate Indexed() {
      && Agrees(order, byKey.Keys)
      && (forall k | k in byKey :: KeyOf(byKey[k].evt) == k)
    }

    ghost predicate Valid() {
      Accounted() && Inverse() && Indexed()
    }
  }

  function Base(s: Store, key: Key): int {
    if key in s.byKey then s.byKey[key].bytes else 0
  }

  // --- The step functions ---

  /** Closes the reservation open for key, if any, refunding its charge. */
  function Supersede(s: Store, key: Key): Store {
    if key in s.openByKey then
      var id := s.openByKey[key];
      (if id in s.pending then
         s.(totalBytes := s.totalBytes - s.pending[id].charged, pending := s.pending - {id})
       else s).(openByKey := s.openByKey - {key})
    else s
  }

  datatype Admission = Admission(id: nat, charged: int, ok: bool)

  /** Opens a reservation for key, unless its growth breaks the cap. */
  function Admit(s: Store, key: Key, delta: int): (Store, Admission) {
    if delta > 0 && s.totalBytes + delta > s.maxBytes then (s, Admission(0, delta, false))
    else
      var charged := if delta > 0 then delta else 0;
      var id := s.nextId + 1;
      (s.(totalBytes := s.totalBytes + charged,
          nextId := id,
          pending := s.pending[id := Pending(key, charged, false, "")],
          openByKey := s.openByKey[key := id]),
       Admission(id, charged, true))
  }

  function Reserve(s: Store, key: Key, size: int): (Store, Admission) {
    Admit(Supersede(s, key), key, size - Base(s, key))
  }

  function Close(s: Store, id: nat): Store
    requires id in s.pending
  {
    s.(pending := s.pending - {id}, openByKey := s.openByKey - {s.pending[id].key})
  }

  function Rollback(s: Store, id: nat): Store {
    if id !in s.pending then s
    else Close(s, id).(totalBytes := s.totalBytes - s.pending[id].charged)
  }

  /** The new store and the delta the caller adds to the gauge. */
  function Commit(s: Store, id: nat, evt: BuildEvent, size: int): (Store, int) {
    if id !in s.pending then (s, 0)
    else
      var p := s.pending[id];
      var s1 := Close(s, id);
      if p.acked then (s1.(totalBytes := s1.totalBytes - p.charged), 0)
      else
        var base := Base(s1, p.key);
        (s1.(order := if p.key in s1.byKey then s1.order else AppendSeq(s1.order, KeyOf(evt)),
             totalBytes := s1.totalBytes + (size - base - p.charged),
             byKey := s1.byKey[p.key := Retained(evt, size)]),
         size - base)
  }

  function MarkAcked(s: Store, key: Key, status: string): Store {
    if key in s.openByKey && s.openByKey[key] in s.pending then
      var id := s.openByKey[key];
      s.(pending := s.pending[id := s.pending[id].(acked := true, ackedStatus := status)])
    else s
  }

  /** The new store, and the bytes freed when a committed entry was dropped. */
  function Release(s: Store, key: Key, status: string): (Store, int, bool) {
    if key !in s.byKey then (MarkAcked(s, key, status), 0, false)
    else
      (s.(byKey := s.byKey - {key},
          totalBytes := s.totalBytes - s.byKey[key].bytes,
          order := RemoveSeq(s.order, key)),
       s.byKey[key].bytes, true)
  }

  // --- Every step keeps the store valid ---

  lemma SupersedeKeepsValid(s: Store, key: Key)
    requires s.Valid()
    ensures Supersede(s, key).Valid()
    ensures key !in Supersede(s, key).openByKey
    ensures forall id | id in Supersede(s, key).pending :: Supersede(s, key).pending[id].key != key
    ensures Supersede(s, key).byKey == s.byKey
  {
    if key in s.openByKey {
      SumDrop(s.pending, Charge, s.openByKey[key]);
    }
  }

  lemma AdmitKeepsValid(s: Store, key: Key, delta: int)
    requires s.Valid() && key !in s.openByKey
    ensures Admit(s, key, delta).0.Valid()
  {
    var adm := Admit(s, key, delta).1;
    if adm.ok {
      SumPut(s.pending, Charge, adm.id, Pending(key, adm.charged, false, ""));
    }
  }

  lemma ReserveKeepsValid(s: Store, key: Key, size: int)
    requires s.Valid()
    ensures Reserve(s, key, size).0.Valid()
  {
    SupersedeKeepsValid(s, key);
    AdmitKeepsValid(Supersede(s, key), key, size - Base(s, key));
  }

  lemma RollbackKeepsValid(s: Store, id: nat)
    requires s.Valid()
    ensures Rollback(s, id).Valid()
  {
    SumDrop(s.pending, Charge, id);
  }

  /** The caller commits the event it reserved for. */
  ghost predicate Owns(s: Store, id: nat, evt: BuildEvent) {
    id in s.pending ==> s.pending[id].key == KeyOf(evt)
  }

  lemma CommitAccounted(s: Store, id: nat, evt: BuildEvent, size: nat)
    requires s.Accounted()
    ensures Commit(s, id, evt, size).0.Accounted()
    ensures Commit(s, id, evt, size).1
         == Commit(s, id, evt, size).0.RetainedBytes() - s.RetainedBytes()
  {
    if id in s.pending {
      SumDrop(s.pending, Charge, id);
      SumPut(s.byKey, EntryBytes, s.pending[id].key, Retained(evt, size));
    }
  }

  lemma CommitIndexed(s: Store, id: nat, evt: BuildEvent, size: nat)
    requires s.Indexed() && Owns(s, id, evt)
    ensures Commit(s, id, evt, size).0.Indexed()
  {
    var key := KeyOf(evt);
    assert s.byKey[key := Retained(evt, size)].Keys == s.byKey.Keys + {key};
    if key !in s.byKey {
      AppendAgrees(s.order, s.byKey.Keys, key);
    }
  }

  lemma CommitKeepsValid(s: Store, id: nat, evt: BuildEvent, size: nat)
    requires s.Valid() && Owns(s, id, evt)
    ensures Commit(s, id, evt, size).0.Valid()
  {
    CommitAccounted(s, id, evt, size);
    CommitIndexed(s, id, evt, size);
  }

  lemma ReleaseKeepsValid(s: Store, key: Key, status: string)
    requires s.Valid()
    ensures Release(s, key, status).0.Valid()
    ensures Release(s, key, status).1
         == s.RetainedBytes() - Release(s, key, status).0.RetainedBytes()
  {
    if key in s.byKey {
      SumDrop(s.byKey, EntryBytes, key);
      RemoveAgrees(s.order, s.byKey.Keys, key);
      assert (s.byKey - {key}).Keys == s.byKey.Keys - {key};
    } else if key in s.openByKey {
      var id := s.openByKey[key];
      SumPut(s.pending, Charge, id, s.pending[id].(acked := true, ackedStatus := status));
    }
  }

  /** A valid store never goes negative, and no single part exceeds the total. */
  lemma ValidTotals(s: Store)
    requires s.Valid()
    ensures 0 <= s.RetainedBytes() <= s.totalBytes
    ensures 0 <= s.OpenCharges() <= s.totalBytes
  {
    SumNonNegative(s.byKey, EntryBytes);
    SumNonNegative(s.pending, Charge);
  }

  // --- The store as the source keeps it ---

  class EventRetentionStore {
    var byKey: map<Key, Retained>
    var pending: map<nat, Pending>
    var openByKey: map<Key, nat>
    var order: Order
    var totalBytes: int
    var maxBytes: int
    var nextId: nat

    ghost function Value(): Store
      reads this
    {
      Store(byKey, pending, openByKey, order, totalBytes, maxBytes, nextId)
    }

    constructor (maxBytes: int)
      ensures Value() == Store(map[], map[], map[], map[], 0, maxBytes, 0)
      ensures Value().Valid()
    {
      byKey, pending, openByKey, order := map[], map[], map[], map[];
      totalBytes, this.maxBytes, nextId := 0, maxBytes, 0;
    }

    /** The first part of a reserve. */
    method SupersedeOpen(key: Key)
      modifies this
      ensures Value() == Supersede(old(Value()), key)
    {
      if key in openByKey {
        var oldId := openByKey[key];
        if oldId in pending {
          totalBytes := totalBytes - pending[oldId].charged;
          pending := pending - {oldId};
        }
        openByKey := openByKey - {key};
      }
    }

    method ReserveFor(key: Key, size: int) returns (r: Admission)
      modifies this
      ensures (Value(), r) == Reserve(old(Value()), key, size)
    {
      var base := 0;
      if key in byKey { base := byKey[key].bytes; }
      SupersedeOpen(key);
      var delta := size - base;
      var charged := 0;
      if delta > 0 {
        if totalBytes + delta > maxBytes {
          return Admission(0, delta, false);
        }
        charged := delta;
        totalBytes := totalBytes + charged;
      }
      nextId := nextId + 1;
      pending := pending[nextId := Pending(key, charged, false, "")];
      openByKey := openByKey[key := nextId];
      return Admission(nextId, charged, true);
    }

    method RollbackId(id: nat) returns (delta: int)
      modifies this
      ensures Value() == Rollback(old(Value()), id) && delta == 0
      ensures id !in old(pending) ==> Value() == old(Value())
    {
      if id !in pending { return 0; }
      var p := pending[id];
      totalBytes := totalBytes - p.charged;
      pending := pending - {id};
      openByKey := openByKey - {p.key};
      return 0;
    }

    method CommitId(id: nat, evt: BuildEvent, size: nat) returns (delta: int)
      modifies this
      ensures (Value(), delta) == Commit(old(Value()), id, evt, size)
      ensures id !in old(pending) ==> Value() == old(Value()) && delta == 0
    {
      if id !in pending { return 0; }
      var p := pending[id];
      pending := pending - {id};
      openByKey := openByKey - {p.key};
      if p.acked {
        totalBytes := totalBytes - p.charged;
        return 0;
      }
      var base := 0;
      if p.key in byKey {
        base := byKey[p.key].bytes;
      } else {
        order := AppendSeq(order, KeyOf(evt));
      }
      totalBytes := totalBytes + (size - base - p.charged);
      byKey := byKey[p.key := Retained(evt, size)];
      return size - base;
    }

    method ReleaseKey(run: string, seqNo: int, status: string) returns (freed: int, ok: bool)
      modifies this
      ensures (Value(), freed, ok) == Release(old(Value()), Key(run, seqNo), status)
    {
      var key := Key(run, seqNo);
      if key !in byKey {
        if key in openByKey {
          var id := openByKey[key];
          if id in pending {
            pending := pending[id := pending[id].(acked := true, ackedStatus := status)];
          }
        }
        return 0, false;
      }
      var entry := byKey[key];
      byKey := byKey - {key};
      totalBytes := totalBytes - entry.bytes;
      var seqs := SpliceOut(SeqsOf(order, run), seqNo);
      order := WithSeqs(order, run, seqs);
      return entry.bytes, true;
    }

    /** Recomputes the accounting sums, as the source's own check does. */
    method CheckInvariant() returns (ok: bool)
      ensures ok <==> totalBytes == Value().RetainedBytes() + Value().OpenCharges()
    {
      var sumKey, sumPending := 0, 0;
      var entries, open := byKey, pending;
      while entries.Keys != {}
        invariant sumKey + SumBy(entries, EntryBytes) == Value().RetainedBytes()
        decreases |entries|
      {
        var k :| k in entries;
        SumSplit(entries, EntryBytes, k);
        sumKey := sumKey + entries[k].bytes;
        entries := entries - {k};
      }
      assert entries == map[];
      while open.Keys != {}
        invariant sumPending + SumBy(open, Charge) == Value().OpenCharges()
        decreases |open|
      {
        var id :| id in open;
        SumSplit(open, Charge, id);
        sumPending := sumPending + open[id].charged;
        open := open - {id};
      }
      assert open == map[];
      ok := totalBytes == sumKey + sumPending;
    }

    /** Every retained event exactly once, grouped by run, ascending. */
    method SnapshotOrdered() returns (events: seq<BuildEvent>)
      requires Value().Valid()
      ensures exists keys: seq<Key> ::
                && IsReplay(keys, byKey.Keys) && |keys| == |events|
                && forall i | 0 <= i < |keys| :: keys[i] in byKey && events[i] == byKey[keys[i]].evt
    {
      var keys := Snapshot(order, byKey);
      events := [];
      for i := 0 to |keys|
        invariant |events| == i
        invariant forall j | 0 <= j < i :: keys[j] in byKey && events[j] == byKey[keys[j]].evt
      {
        assert keys[i] in keys;
        events := events + [byKey[keys[i]].evt];
      }
    }
  }

  /** Drops the first occurrence of x, by the index scan the source runs. */
  method SpliceOut(seqs: seq<int>, x: int) returns (rest: seq<int>)
    ensures rest == RemoveFirst(seqs, x)
  {
    rest := seqs;
    for i := 0 to |seqs|
      invariant rest == seqs
      invariant RemoveFirst(seqs, x) == seqs[..i] + RemoveFirst(seqs[i..], x)
    {
      if seqs[i] == x {
        return seqs[..i] + seqs[i + 1..];
      }
    }
  }
}

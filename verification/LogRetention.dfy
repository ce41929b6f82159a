/** The log retention store: cumulative acks, per-run BUSY pause windows and
    at most one re-send timer a run. Time is an explicit nanosecond count. */
module LogRetention {
  import opened RunOrder
  import opened Sorting
  import opened Sums

  datatype LogChunk = LogChunk(run: string, seqNo: int, data: string)

  function ChunkKey(c: LogChunk): Key {
    Key(c.run, c.seqNo)
  }

  datatype RetainedChunk = RetainedChunk(chunk: LogChunk, bytes: int)

  function ChunkBytes(e: RetainedChunk): int { e.bytes }

  /** An armed timer: its identity and the time from which it may fire. */
  datatype Slot = Slot(id: nat, due: int)

  const MILLISECOND := 1_000_000
  const DEFAULT_BUSY_PAUSE_MS := 1000

  datatype Store = Store(
    byKey: map<Key, RetainedChunk>,
    order: Order,
    totalBytes: int,
    maxBytes: int,
    pausedUntil: map<string, int>,
    busySeqs: map<string, set<int>>,
    resendTimers: map<string, Slot>)
  {
    ghost predicate Indexed() {
      && Agrees(order, byKey.Keys)
      && (forall k | k in byKey :: byKey[k].bytes >= 0 && ChunkKey(byKey[k].chunk) == k)
    }

    ghost function RetainedBytes(): int { SumBy(byKey, ChunkBytes) }
  }

  // --- The step functions ---

  function Reserve(s: Store, size: int): (Store, bool) {
    if s.totalBytes + size > s.maxBytes then (s, false)
    else (s.(totalBytes := s.totalBytes + size), true)
  }

  function Commit(s: Store, chunk: LogChunk, size: int): Store {
    var key := ChunkKey(chunk);
    var s1 := if key in s.byKey then s.(totalBytes := s.totalBytes - s.byKey[key].bytes)
              else s.(order := AppendSeq(s.order, key));
    s1.(byKey := s.byKey[key := RetainedChunk(chunk, size)])
  }

  /** A cumulative ack covers every chunk of its run at or below its sequence. */
  predicate Covered(k: Key, run: string, seqNo: int) {
    k.run == run && k.seqNo <= seqNo
  }

  function Above(seqs: seq<int>, seqNo: int): seq<int> {
    if seqs == [] then []
    else (if seqs[0] <= seqNo then [] else [seqs[0]]) + Above(seqs[1..], seqNo)
  }

  ghost function Uncovered(m: map<Key, RetainedChunk>, run: string, seqNo: int): map<Key, RetainedChunk> {
    map k | k in m && !Covered(k, run, seqNo) :: m[k]
  }

  ghost function Freed(s: Store, run: string, seqNo: int): int {
    s.RetainedBytes() - SumBy(Uncovered(s.byKey, run, seqNo), ChunkBytes)
  }

  function TrimBusy(busy: map<string, set<int>>, run: string, seqNo: int): map<string, set<int>> {
    if run in busy then busy[run := set q | q in busy[run] && q > seqNo] else busy
  }

  ghost function Release(s: Store, run: string, seqNo: int): Store {
    s.(byKey := Uncovered(s.byKey, run, seqNo),
       order := WithSeqs(s.order, run, Above(SeqsOf(s.order, run), seqNo)),
       totalBytes := s.totalBytes - Freed(s, run, seqNo),
       busySeqs := TrimBusy(s.busySeqs, run, seqNo))
  }

  function PauseEnd(s: Store, run: string, now: int, d: int): int {
    if run in s.pausedUntil && s.pausedUntil[run] > now + d then s.pausedUntil[run] else now + d
  }

  function BusyOf(s: Store, run: string): set<int> {
    if run in s.busySeqs then s.busySeqs[run] else {}
  }

  /** A BUSY ack: refuse seqNo, extend the pause, replace the run's timer. */
  function ScheduleResend(s: Store, run: string, seqNo: int, now: int, d: int, slotId: nat): Store {
    var until := PauseEnd(s, run, now, d);
    s.(busySeqs := s.busySeqs[run := BusyOf(s, run) + {seqNo}],
       pausedUntil := s.pausedUntil[run := until],
       resendTimers := s.resendTimers[run := Slot(slotId, until)])
  }

  predicate IsArmed(s: Store, run: string, slotId: nat) {
    run in s.resendTimers && s.resendTimers[run].id == slotId
  }

  function TakeRefused(s: Store, run: string, slotId: nat): Store {
    if IsArmed(s, run, slotId) then
      s.(resendTimers := s.resendTimers - {run}, busySeqs := s.busySeqs - {run})
    else s
  }

  /** The milliseconds left in a pause, rounded up: waiting that long reaches
      the end of the window, waiting a millisecond less does not. */
  function PauseLeftMs(until: int, now: int): (ms: int)
    ensures ms == 0 <==> until <= now
    ensures ms > 0 ==> now + (ms - 1) * MILLISECOND < until <= now + ms * MILLISECOND
  {
    if until <= now then 0 else (until - now + MILLISECOND - 1) / MILLISECOND
  }

  // --- Accounting of one release ---

  lemma {:induction false} AboveKeeps(s: seq<int>, seqNo: int)
    requires Distinct(s)
    ensures Distinct(Above(s, seqNo))
    ensures forall x :: x in Above(s, seqNo) <==> x in s && x > seqNo
  {
    if s != [] {
      AboveKeeps(s[1..], seqNo);
      assert s == [s[0]] + s[1..];
      assert s[0] !in Above(s[1..], seqNo);
    }
  }

  lemma ReleaseIndexed(s: Store, run: string, seqNo: int)
    requires s.Indexed()
    ensures Release(s, run, seqNo).Indexed()
  {
    AboveKeeps(SeqsOf(s.order, run), seqNo);
  }

  lemma CommitIndexed(s: Store, chunk: LogChunk, size: nat)
    requires s.Indexed()
    ensures Commit(s, chunk, size).Indexed()
  {
    var key := ChunkKey(chunk);
    assert s.byKey[key := RetainedChunk(chunk, size)].Keys == s.byKey.Keys + {key};
    if key !in s.byKey {
      AppendAgrees(s.order, s.byKey.Keys, key);
    }
  }

  // --- The store as the source keeps it ---

  class LogRetentionStore {
    var byKey: map<Key, RetainedChunk>
    var order: Order
    var totalBytes: int
    var maxBytes: int
    var pausedUntil: map<string, int>
    var busySeqs: map<string, set<int>>
    var resendTimers: map<string, Slot>

    ghost function Value(): Store
      reads this
    {
      Store(byKey, order, totalBytes, maxBytes, pausedUntil, busySeqs, resendTimers)
    }

    constructor (maxBytes: int)
      ensures Value() == Store(map[], map[], 0, maxBytes, map[], map[], map[])
    {
      byKey, order, totalBytes, this.maxBytes := map[], map[], 0, maxBytes;
      pausedUntil, busySeqs, resendTimers := map[], map[], map[];
    }

    method ReserveBytes(size: int) returns (ok: bool)
      modifies this
      ensures (Value(), ok) == Reserve(old(Value()), size)
    {
      if totalBytes + size > maxBytes { return false; }
      totalBytes := totalBytes + size;
      return true;
    }

    method RollbackBytes(size: int)
      modifies this
      ensures Value() == old(Value()).(totalBytes := old(totalBytes) - size)
    {
      totalBytes := totalBytes - size;
    }

    method CommitChunk(chunk: LogChunk, size: int)
      modifies this
      ensures Value() == Commit(old(Value()), chunk, size)
    {
      var key := ChunkKey(chunk);
      if key in byKey {
        totalBytes := totalBytes - byKey[key].bytes;
      } else {
        order := AppendSeq(order, key);
      }
      byKey := byKey[key := RetainedChunk(chunk, size)];
    }

    /** Frees exactly the run's chunks at or below seqNo. */
    method ReleaseUpTo(run: string, seqNo: int) returns (freed: int)
      requires Value().Indexed()
      modifies this
      ensures Value() == Release(old(Value()), run, seqNo)
      ensures freed == Freed(old(Value()), run, seqNo)
    {
      var left, kept;
      left, kept, freed := DropCovered(byKey, SeqsOf(order, run), run, seqNo);
      byKey, totalBytes := left, totalBytes - freed;
      order := WithSeqs(order, run, kept);
      busySeqs := TrimBusy(busySeqs, run, seqNo);
    }

    /** A BUSY ack. slotId is the identity of the timer armed now. */
    method Schedule(run: string, seqNo: int, now: int, d: int, slotId: nat)
      modifies this
      ensures Value() == ScheduleResend(old(Value()), run, seqNo, now, d, slotId)
    {
      var refused := if run in busySeqs then busySeqs[run] else {};
      busySeqs := busySeqs[run := refused + {seqNo}];
      var until := now + d;
      if run in pausedUntil && pausedUntil[run] > until { until := pausedUntil[run]; }
      pausedUntil := pausedUntil[run := until];
      resendTimers := resendTimers[run := Slot(slotId, until)];
    }

    /** The refused sequences of run still retained, ascending; ok is false
        and nothing changes when a later BUSY ack replaced the slot. */
    method Take(run: string, slotId: nat) returns (batch: seq<LogChunk>, ok: bool)
      modifies this
      ensures Value() == TakeRefused(old(Value()), run, slotId)
      ensures ok == IsArmed(old(Value()), run, slotId)
      ensures !ok ==> batch == []
      ensures ok ==> IsBatch(batch, old(Value()), run)
    {
      if !(run in resendTimers && resendTimers[run].id == slotId) { return [], false; }
      resendTimers := resendTimers - {run};
      var refused := if run in busySeqs then busySeqs[run] else {};
      busySeqs := busySeqs - {run};
      var seqs := SortedElements(refused);
      batch := [];
      ghost var from: seq<int> := [];
      for i := 0 to |seqs|
        invariant byKey == old(byKey) && Value() == TakeRefused(old(Value()), run, slotId)
        invariant Ascending(from) && (forall j | 0 <= j < |from| :: from[j] in seqs[..i])
        invariant forall q | q in seqs[..i] && Key(run, q) in byKey :: q in from
        invariant |from| == |batch|
        invariant forall j | 0 <= j < |from| :: Key(run, from[j]) in byKey && batch[j] == byKey[Key(run, from[j])].chunk
      {
        var key := Key(run, seqs[i]);
        assert seqs[..i + 1] == seqs[..i] + [seqs[i]];
        if key in byKey {
          batch := batch + [byKey[key].chunk];
          from := from + [seqs[i]];
        }
      }
      assert seqs[..|seqs|] == seqs;
      assert IsBatchOf(batch, from, old(Value()), run);
      return batch, true;
    }

    method SnapshotOrdered() returns (chunks: seq<LogChunk>)
      requires Value().Indexed()
      ensures exists keys: seq<Key> ::
                && IsReplay(keys, byKey.Keys) && |keys| == |chunks|
                && forall i | 0 <= i < |keys| :: keys[i] in byKey && chunks[i] == byKey[keys[i]].chunk
    {
      var keys := Snapshot(order, byKey);
      chunks := [];
      for i := 0 to |keys|
        invariant |chunks| == i
        invariant forall j | 0 <= j < i :: keys[j] in byKey && chunks[j] == byKey[keys[j]].chunk
      {
        assert keys[i] in keys;
        chunks := chunks + [byKey[keys[i]].chunk];
      }
    }
  }

  /** The batch lists, in ascending order, exactly the refused sequences of
      run that the store still retains. */
  ghost predicate IsBatch(batch: seq<LogChunk>, s: Store, run: string) {
    exists seqs: seq<int> :: IsBatchOf(batch, seqs, s, run)
  }

  ghost predicate IsBatchOf(batch: seq<LogChunk>, seqs: seq<int>, s: Store, run: string) {
    && Ascending(seqs) && |seqs| == |batch|
    && (forall q :: q in seqs <==> q in BusyOf(s, run) && Key(run, q) in s.byKey)
    && (forall i | 0 <= i < |seqs| :: Key(run, seqs[i]) in s.byKey && batch[i] == s.byKey[Key(run, seqs[i])].chunk)
  }

  /** left is byKey without the covered entries of the sequences done so far. */
  ghost predicate DropsTo(byKey: map<Key, RetainedChunk>, left: map<Key, RetainedChunk>, run: string, seqNo: int,
                          done: seq<int>) {
    && (forall k | k in left :: k in byKey && left[k] == byKey[k])
    && (forall k | k in byKey :: k in left <==> !(Covered(k, run, seqNo) && k.seqNo in done))
  }

  lemma DropStep(byKey: map<Key, RetainedChunk>, left: map<Key, RetainedChunk>, run: string, seqNo: int,
                 done: seq<int>, sq: int)
    requires DropsTo(byKey, left, run, seqNo, done)
    ensures sq <= seqNo ==> DropsTo(byKey, left - {Key(run, sq)}, run, seqNo, done + [sq])
    ensures sq > seqNo || Key(run, sq) !in left ==> DropsTo(byKey, left, run, seqNo, done + [sq])
  {
  }

  lemma AboveStep(all: seq<int>, seqs: seq<int>, i: nat, kept: seq<int>, seqNo: int)
    requires i < |seqs| && all == kept + Above(seqs[i..], seqNo)
    ensures all == kept + (if seqs[i] <= seqNo then [] else [seqs[i]]) + Above(seqs[i + 1..], seqNo)
  {
    assert seqs[i..][1..] == seqs[i + 1..];
  }

  lemma DropsAll(byKey: map<Key, RetainedChunk>, left: map<Key, RetainedChunk>, run: string, seqNo: int, seqs: seq<int>)
    requires DropsTo(byKey, left, run, seqNo, seqs)
    requires forall k: Key | k in byKey && k.run == run :: k.seqNo in seqs
    ensures left == Uncovered(byKey, run, seqNo)
  {
  }

  /** The scan of one run's sequences: drops the covered entries, keeps the
      other sequences in order, and counts the bytes dropped. */
  method DropCovered(byKey: map<Key, RetainedChunk>, seqs: seq<int>, run: string, seqNo: int)
    returns (left: map<Key, RetainedChunk>, kept: seq<int>, freed: int)
    requires forall k: Key | k in byKey && k.run == run :: k.seqNo in seqs
    ensures left == Uncovered(byKey, run, seqNo) && kept == Above(seqs, seqNo)
    ensures freed == SumBy(byKey, ChunkBytes) - SumBy(left, ChunkBytes)
  {
    left, kept, freed := byKey, [], 0;
    for i := 0 to |seqs|
      invariant Above(seqs, seqNo) == kept + Above(seqs[i..], seqNo)
      invariant DropsTo(byKey, left, run, seqNo, seqs[..i])
      invariant freed == SumBy(byKey, ChunkBytes) - SumBy(left, ChunkBytes)
    {
      var sq := seqs[i];
      DropStep(byKey, left, run, seqNo, seqs[..i], sq);
      AboveStep(Above(seqs, seqNo), seqs, i, kept, seqNo);
      assert seqs[..i + 1] == seqs[..i] + [sq];
      if sq <= seqNo {
        assert kept + [] == kept;
        var key := Key(run, sq);
        if key in left {
          SumDrop(left, ChunkBytes, key);
          freed := freed + left[key].bytes;
          left := left - {key};
        }
      } else {
        kept := kept + [sq];
      }
    }
    assert seqs[..|seqs|] == seqs;
    DropsAll(byKey, left, run, seqNo, seqs);
  }

  method PickOne<T>(s: set<T>) returns (x: T)
    requires s != {}
    ensures x in s
  {
    x :| x in s;
  }

  method SortedElements(refused: set<int>) returns (sorted: seq<int>)
    ensures Ascending(sorted)
    ensures forall q :: q in sorted <==> q in refused
  {
    var seqs: seq<int>, todo: set<int> := [], refused;
    while todo != {}
      invariant Distinct(seqs) && todo <= refused
      invariant forall q :: q in seqs <==> q in refused && q !in todo
    {
      var q := PickOne(todo);
      seqs, todo := seqs + [q], todo - {q};
    }
    SortedDistinct(seqs);
    sorted := SortInts(seqs);
  }
}

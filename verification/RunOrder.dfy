/** The per-run sequence index both retention stores keep beside their
    entries, and the replay snapshot read from it. */
module RunOrder {
  import opened Sorting

  datatype Key = Key(run: string, seqNo: int)

  /** Run id to retained sequence numbers, in retention order. */
  type Order = map<string, seq<int>>

  ghost predicate Ascending(s: seq<int>) {
    forall i, j | 0 <= i < j < |s| :: s[i] < s[j]
  }

  /** The index lists exactly the given keys, each once, and no empty run. */
  ghost predicate Agrees(o: Order, keys: set<Key>) {
    && (forall r | r in o :: o[r] != [] && Distinct(o[r]))
    && (forall k: Key :: k in keys <==> k.run in o && k.seqNo in o[k.run])
  }

  function SeqsOf(o: Order, run: string): seq<int> {
    if run in o then o[run] else []
  }

  function WithSeqs(o: Order, run: string, seqs: seq<int>): Order {
    if seqs == [] then o - {run} else o[run := seqs]
  }

  function AppendSeq(o: Order, k: Key): Order {
    o[k.run := SeqsOf(o, k.run) + [k.seqNo]]
  }

  function RemoveFirst(s: seq<int>, x: int): seq<int> {
    if s == [] then [] else if s[0] == x then s[1..] else [s[0]] + RemoveFirst(s[1..], x)
  }

  function RemoveSeq(o: Order, k: Key): Order {
    WithSeqs(o, k.run, RemoveFirst(SeqsOf(o, k.run), k.seqNo))
  }

  lemma {:induction false} RemoveFirstDrops(s: seq<int>, x: int)
    requires Distinct(s)
    ensures Distinct(RemoveFirst(s, x))
    ensures forall y :: y in RemoveFirst(s, x) <==> y in s && y != x
  {
    if s != [] && s[0] != x {
      RemoveFirstDrops(s[1..], x);
      assert s == [s[0]] + s[1..];
      assert s[0] !in RemoveFirst(s[1..], x);
    } else if s != [] {
      assert s == [s[0]] + s[1..];
    }
  }

  lemma {:induction false} RemoveFirstAppend(s: seq<int>, x: int, y: int)
    requires x != y
    ensures RemoveFirst(s + [y], x) == RemoveFirst(s, x) + [y]
  {
    if s != [] && s[0] != x {
      RemoveFirstAppend(s[1..], x, y);
      assert (s + [y])[1..] == s[1..] + [y];
    } else if s != [] {
      assert (s + [y])[1..] == s[1..] + [y];
    } else {
      assert (s + [y])[1..] == [];
    }
  }

  lemma {:induction false} RemoveFirstLast(s: seq<int>, x: int)
    requires x !in s
    ensures RemoveFirst(s + [x], x) == s
  {
    if s != [] {
      RemoveFirstLast(s[1..], x);
      assert (s + [x])[1..] == s[1..] + [x];
    }
  }

  lemma {:induction false} RemoveFirstCommutes(s: seq<int>, x: int, y: int)
    ensures RemoveFirst(RemoveFirst(s, x), y) == RemoveFirst(RemoveFirst(s, y), x)
  {
    if s != [] && s[0] != x && s[0] != y {
      RemoveFirstCommutes(s[1..], x, y);
    }
  }

  lemma AppendAgrees(o: Order, keys: set<Key>, k: Key)
    requires Agrees(o, keys) && k !in keys
    ensures Agrees(AppendSeq(o, k), keys + {k})
  {
    assert k.seqNo !in SeqsOf(o, k.run);
  }

  lemma RemoveAgrees(o: Order, keys: set<Key>, k: Key)
    requires Agrees(o, keys)
    ensures Agrees(RemoveSeq(o, k), keys - {k})
  {
    RemoveFirstDrops(SeqsOf(o, k.run), k.seqNo);
  }

  /** Index updates for two different keys commute. */
  lemma AppendCommutes(o: Order, k: Key, other: Key)
    requires k != other && k.seqNo in SeqsOf(o, k.run)
    ensures RemoveSeq(AppendSeq(o, other), k) == AppendSeq(RemoveSeq(o, k), other)
  {
    if k.run == other.run {
      RemoveFirstAppend(o[k.run], k.seqNo, other.seqNo);
    }
  }

  lemma RemoveCommutes(o: Order, k: Key, other: Key)
    requires forall r | r in o :: o[r] != []
    ensures RemoveSeq(RemoveSeq(o, other), k) == RemoveSeq(RemoveSeq(o, k), other)
  {
    if k.run == other.run {
      var s := SeqsOf(o, k.run);
      RemoveFirstCommutes(s, k.seqNo, other.seqNo);
      assert SeqsOf(RemoveSeq(o, k), k.run) == RemoveFirst(s, k.seqNo);
      assert SeqsOf(RemoveSeq(o, other), k.run) == RemoveFirst(s, other.seqNo);
    }
  }

  /** Appending a fresh key and then removing it is the identity. */
  lemma AppendThenRemove(o: Order, keys: set<Key>, k: Key)
    requires Agrees(o, keys) && k !in keys
    ensures RemoveSeq(AppendSeq(o, k), k) == o
  {
    RemoveFirstLast(SeqsOf(o, k.run), k.seqNo);
  }

  /** A replay: every key once, each run contiguous, ascending inside a run. */
  ghost predicate IsReplay(out: seq<Key>, keys: set<Key>) {
    && Distinct(out)
    && (forall k: Key :: k in out <==> k in keys)
    && (forall i, j | 0 <= i < j < |out| && out[i].run == out[j].run ::
          out[i].seqNo < out[j].seqNo && forall m | i <= m <= j :: out[m].run == out[i].run)
  }

  ghost function RunPart(keys: set<Key>, runs: set<string>): set<Key> {
    set k | k in keys && k.run in runs
  }

  /** Lists the retained keys run by run (in any run order) for a replay. */
  method Snapshot<E>(o: Order, byKey: map<Key, E>) returns (out: seq<Key>)
    requires Agrees(o, byKey.Keys)
    ensures IsReplay(out, byKey.Keys)
  {
    out := [];
    var todo, done := o.Keys, {};
    while todo != {}
      invariant todo + done == o.Keys && todo !! done
      invariant IsReplay(out, RunPart(byKey.Keys, done))
    {
      var run :| run in todo;
      var part := SnapshotRun(o, byKey, run);
      AppendReplay(out, RunPart(byKey.Keys, done), part, RunPart(byKey.Keys, {run}), run);
      assert RunPart(byKey.Keys, done) + RunPart(byKey.Keys, {run}) == RunPart(byKey.Keys, done + {run});
      out, todo, done := out + part, todo - {run}, done + {run};
    }
    assert RunPart(byKey.Keys, o.Keys) == byKey.Keys;
  }

  lemma AppendApart(out: seq<Key>, part: seq<Key>, run: string)
    requires Distinct(out) && Distinct(part)
    requires (forall i | 0 <= i < |out| :: out[i].run != run) && (forall i | 0 <= i < |part| :: part[i].run == run)
    ensures Distinct(out + part)
  {
  }

  lemma AppendReplay(out: seq<Key>, keys: set<Key>, part: seq<Key>, more: set<Key>, run: string)
    requires IsReplay(out, keys) && IsReplay(part, more)
    requires forall k | k in keys :: k.run != run
    requires forall k | k in more :: k.run == run
    ensures IsReplay(out + part, keys + more)
  {
    var all := out + part;
    forall i | 0 <= i < |out| ensures out[i].run != run { assert out[i] in keys; }
    forall i | 0 <= i < |part| ensures part[i].run == run { assert part[i] in more; }
    AppendApart(out, part, run);
    forall i, j | 0 <= i < j < |all| && all[i].run == all[j].run
      ensures all[i].seqNo < all[j].seqNo && forall m | i <= m <= j :: all[m].run == all[i].run
    {
      if i < |out| {
        assert j < |out|;
      } else {
        assert all[i] == part[i - |out|] && all[j] == part[j - |out|];
      }
    }
  }

  method SnapshotRun<E>(o: Order, byKey: map<Key, E>, run: string) returns (part: seq<Key>)
    requires Agrees(o, byKey.Keys) && run in o
    ensures IsReplay(part, RunPart(byKey.Keys, {run}))
  {
    var sorted := SortInts(o[run]);
    SortedDistinct(o[run]);
    part := [];
    for i := 0 to |sorted|
      invariant |part| == i
      invariant forall j | 0 <= j < i :: part[j] == Key(run, sorted[j])
    {
      assert sorted[i] in sorted && sorted[i] in o[run];
      var key := Key(run, sorted[i]);
      if key in byKey { part := part + [key]; }
    }
    forall k: Key | k.run == run && k.seqNo in o[run] ensures k in part {
      assert k.seqNo in sorted;
      var j :| 0 <= j < |sorted| && sorted[j] == k.seqNo;
      assert part[j] == k;
    }
  }

  /** Distinct numbers sort into a strictly ascending list of the same numbers. */
  lemma SortedDistinct(s: seq<int>)
    requires Distinct(s)
    ensures Ascending(SortInts(s))
    ensures forall x :: x in SortInts(s) <==> x in s
  {
    SortIntsCorrect(s);
    DistinctPermutes(s, SortInts(s));
  }
}

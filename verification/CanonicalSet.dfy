/** The canonical form of a list used as a set: inner set-key lists sorted
    first, then the outer list, by the bytes of each element's JSON. */
module CanonicalSet {
  import opened Sorting

  datatype Value = Scalar(text: string) | List(elems: seq<Value>) | Object(fields: map<string, Value>)

  type Bytes = seq<int>

  // --- bytesCompare ---

  function Compare(a: Bytes, b: Bytes): int {
    if a == [] && b == [] then 0
    else if a == [] then -1
    else if b == [] then 1
    else if a[0] < b[0] then -1
    else if a[0] > b[0] then 1
    else Compare(a[1..], b[1..])
  }

  /** The scan over the common length, then the lengths. */
  method BytesCompare(a: Bytes, b: Bytes) returns (c: int)
    ensures c == Compare(a, b)
  {
    var n := |a|;
    if |b| < n { n := |b|; }
    for i := 0 to n
      invariant Compare(a, b) == Compare(a[i..], b[i..])
    {
      if a[i] < b[i] { return -1; }
      if a[i] > b[i] { return 1; }
      assert a[i..][1..] == a[i + 1..] && b[i..][1..] == b[i + 1..];
    }
    if |a| < |b| { return -1; }
    if |a| > |b| { return 1; }
    return 0;
  }

  lemma {:induction false} CompareEqual(a: Bytes, b: Bytes)
    ensures Compare(a, b) == 0 <==> a == b
  {
    if a != [] && b != [] {
      CompareEqual(a[1..], b[1..]);
      assert a == [a[0]] + a[1..] && b == [b[0]] + b[1..];
    }
  }

  lemma {:induction false} CompareFlips(a: Bytes, b: Bytes)
    ensures Compare(a, b) == -Compare(b, a)
    decreases |a|
  {
    if a != [] && b != [] { CompareFlips(a[1..], b[1..]); }
  }

  lemma {:induction false} CompareTransitive(a: Bytes, b: Bytes, c: Bytes)
    requires Compare(a, b) <= 0 && Compare(b, c) <= 0
    ensures Compare(a, c) <= 0
    decreases |a|
  {
    if a != [] && b != [] && c != [] && a[0] == b[0] == c[0] {
      CompareTransitive(a[1..], b[1..], c[1..]);
    }
  }

  /** At the first difference a has the smaller byte. */
  ghost predicate SmallerAt(a: Bytes, b: Bytes, k: nat) {
    k < |a| && k < |b| && a[..k] == b[..k] && a[k] < b[k]
  }

  /** One string of bytes is below another exactly when it is a proper prefix or
      smaller at the first difference. */
  lemma {:induction false} CompareExactly(a: Bytes, b: Bytes)
    ensures Compare(a, b) < 0 <==> a < b || exists k: nat :: SmallerAt(a, b, k)
  {
    if a != [] && b != [] {
      var s, t := a[1..], b[1..];
      assert a == [a[0]] + s && b == [b[0]] + t;
      if a[0] < b[0] {
        assert SmallerAt(a, b, 0);
      } else {
        CompareExactly(s, t);
        if a[0] == b[0] {
          assert a < b <==> s < t;
          if k: nat :| SmallerAt(s, t, k) {
            assert a[..k + 1] == [a[0]] + s[..k] && b[..k + 1] == [b[0]] + t[..k];
            assert SmallerAt(a, b, k + 1);
          }
        }
        if k: nat :| SmallerAt(a, b, k) {
          assert k > 0 && a[0] == a[..k][0] == b[..k][0] == b[0];
          assert s[..k - 1] == a[..k][1..] && t[..k - 1] == b[..k][1..];
          assert SmallerAt(s, t, k - 1);
        }
      }
    }
  }

  // --- canonicalizeSet ---

  /** json stands for the JSON encoder: it tells values apart. */
  ghost predicate Injective(json: Value -> Bytes) {
    forall x, y :: json(x) == json(y) ==> x == y
  }

  function Leq(json: Value -> Bytes): (Value, Value) -> bool {
    (x, y) => Compare(json(x), json(y)) <= 0
  }

  function SortSet(s: seq<Value>, json: Value -> Bytes): seq<Value> {
    Sort(s, Leq(json))
  }

  function InnerSorted(e: Value, keys: seq<string>, json: Value -> Bytes): Value {
    if e.Object? then
      Object(map k | k in e.fields ::
        if k in keys && e.fields[k].List? then List(SortSet(e.fields[k].elems, json)) else e.fields[k])
    else e
  }

  function InnerAll(s: seq<Value>, keys: seq<string>, json: Value -> Bytes): seq<Value> {
    if s == [] then [] else [InnerSorted(s[0], keys, json)] + InnerAll(s[1..], keys, json)
  }

  function Canonical(s: seq<Value>, keys: seq<string>, json: Value -> Bytes): seq<Value> {
    SortSet(InnerAll(s, keys, json), json)
  }

  /** Sorts in place: each element's inner lists, then the elements. */
  method CanonicalizeSet(list: array<Value>, keys: seq<string>, json: Value -> Bytes)
    modifies list
    ensures list[..] == Canonical(old(list[..]), keys, json)
  {
    SortInner(list, keys, json);
    var sorted := SortSet(list[..], json);
    SortKeepsLength(list[..], Leq(json));
    for i := 0 to list.Length
      invariant list[..i] == sorted[..i]
    {
      list[i] := sorted[i];
    }
    assert list[..] == list[..list.Length] && sorted == sorted[..list.Length];
  }

  method SortInner(list: array<Value>, keys: seq<string>, json: Value -> Bytes)
    modifies list
    ensures list[..] == InnerAll(old(list[..]), keys, json)
  {
    for i := 0 to list.Length
      invariant InnerAll(old(list[..]), keys, json) == list[..i] + InnerAll(old(list[..])[i..], keys, json)
      invariant list[i..] == old(list[..])[i..]
    {
      assert list[i] == list[i..][0];
      assert old(list[..])[i..][1..] == old(list[..])[i + 1..];
      list[i] := InnerSorted(list[i], keys, json);
      assert list[..i + 1] == list[..i] + [list[i]];
      assert list[i + 1..] == old(list[..])[i + 1..];
    }
    assert list[..] == list[..list.Length] + [];
  }

  lemma {:induction false} SortKeepsLength<T>(s: seq<T>, leq: (T, T) -> bool)
    ensures |Sort(s, leq)| == |s|
  {
    if s != [] {
      SortKeepsLength(s[1..], leq);
      InsertElements(s[0], Sort(s[1..], leq), leq);
      assert |multiset(Sort(s, leq))| == |Sort(s, leq)|;
    }
  }

  // --- Equality as sets ---

  /** Equal, except that inner set-key lists are compared as multisets. */
  ghost predicate SameElement(x: Value, y: Value, keys: seq<string>) {
    if x.Object? && y.Object? then
      && x.fields.Keys == y.fields.Keys
      && (forall k | k in x.fields :: SameField(k, x.fields[k], y.fields[k], keys))
    else x == y
  }

  ghost predicate SameField(k: string, v: Value, u: Value, keys: seq<string>) {
    if k in keys && v.List? && u.List? then multiset(v.elems) == multiset(u.elems) else v == u
  }

  ghost function CountSame(s: seq<Value>, e: Value, keys: seq<string>): nat {
    if s == [] then 0 else (if SameElement(s[0], e, keys) then 1 else 0) + CountSame(s[1..], e, keys)
  }

  /** Every element occurs equally often in both lists. */
  ghost predicate SameSet(a: seq<Value>, b: seq<Value>, keys: seq<string>) {
    forall e :: CountSame(a, e, keys) == CountSame(b, e, keys)
  }

  // --- The canonical form decides that equality ---

  lemma LeqIsOrder(json: Value -> Bytes)
    requires Injective(json)
    ensures TotalPreorder(Leq(json))
    ensures forall x, y :: Leq(json)(x, y) && Leq(json)(y, x) ==> x == y
  {
    forall x, y ensures Leq(json)(x, y) || Leq(json)(y, x)
      ensures Leq(json)(x, y) && Leq(json)(y, x) ==> x == y
    {
      CompareFlips(json(x), json(y));
      CompareEqual(json(x), json(y));
    }
    forall x, y, z | Leq(json)(x, y) && Leq(json)(y, z) ensures Leq(json)(x, z) {
      CompareTransitive(json(x), json(y), json(z));
    }
  }

  /** A list in the ascending order of its elements' JSON, with the elements of
      another. */
  ghost predicate Ascending(out: seq<Value>, s: seq<Value>, json: Value -> Bytes) {
    && multiset(out) == multiset(s)
    && forall i, j | 0 <= i < j < |out| :: Compare(json(out[i]), json(out[j])) <= 0
  }

  lemma SortSetAscends(s: seq<Value>, json: Value -> Bytes)
    requires Injective(json)
    ensures Ascending(SortSet(s, json), s, json)
  {
    LeqIsOrder(json);
    SortCorrect(s, Leq(json));
  }

  /** Inner set-key lists ascend; every other field and element is unchanged. */
  lemma InnerAscends(e: Value, keys: seq<string>, json: Value -> Bytes)
    requires Injective(json)
    ensures !e.Object? ==> InnerSorted(e, keys, json) == e
    ensures e.Object? ==> var out := InnerSorted(e, keys, json);
              && out.Object? && out.fields.Keys == e.fields.Keys
              && forall k | k in e.fields ::
                   if k in keys && e.fields[k].List?
                   then out.fields[k].List? && Ascending(out.fields[k].elems, e.fields[k].elems, json)
                   else out.fields[k] == e.fields[k]
  {
    if e.Object? {
      forall k | k in e.fields && e.fields[k].List?
        ensures Ascending(SortSet(e.fields[k].elems, json), e.fields[k].elems, json)
      {
        SortSetAscends(e.fields[k].elems, json);
      }
    }
  }

  lemma {:induction false} InnerAllAt(s: seq<Value>, keys: seq<string>, json: Value -> Bytes)
    ensures |InnerAll(s, keys, json)| == |s|
    ensures forall i | 0 <= i < |s| :: InnerAll(s, keys, json)[i] == InnerSorted(s[i], keys, json)
  {
    if s != [] { InnerAllAt(s[1..], keys, json); }
  }

  /** The canonical list ascends and holds each element with its inner lists
      sorted, and nothing else. */
  lemma CanonicalAscends(s: seq<Value>, keys: seq<string>, json: Value -> Bytes)
    requires Injective(json)
    ensures Ascending(Canonical(s, keys, json),
                      seq(|s|, i requires 0 <= i < |s| => InnerSorted(s[i], keys, json)), json)
  {
    InnerAllAt(s, keys, json);
    assert InnerAll(s, keys, json) == seq(|s|, i requires 0 <= i < |s| => InnerSorted(s[i], keys, json));
    SortSetAscends(InnerAll(s, keys, json), json);
  }

  lemma SameSmallest(a: seq<Value>, b: seq<Value>, leq: (Value, Value) -> bool)
    requires forall x, y :: leq(x, y) && leq(y, x) ==> x == y
    requires SortedBy(a, leq) && SortedBy(b, leq) && multiset(a) == multiset(b) && a != [] && b != []
    ensures a[0] == b[0]
  {
    assert a[0] in multiset(b) && b[0] in multiset(a);
    var i :| 0 <= i < |b| && b[i] == a[0];
    var j :| 0 <= j < |a| && a[j] == b[0];
  }

  lemma TailElements(a: seq<Value>)
    requires a != []
    ensures multiset(a[1..]) == multiset(a) - multiset{a[0]}
  {
    assert a == [a[0]] + a[1..];
  }

  /** Two sorted lists of the same elements are the same list. */
  lemma {:induction false} SortedUnique(a: seq<Value>, b: seq<Value>, leq: (Value, Value) -> bool)
    requires forall x, y :: leq(x, y) && leq(y, x) ==> x == y
    requires SortedBy(a, leq) && SortedBy(b, leq) && multiset(a) == multiset(b)
    ensures a == b
    decreases |a|
  {
    assert |multiset(a)| == |a| && |multiset(b)| == |b|;
    if a != [] {
      SameSmallest(a, b, leq);
      TailElements(a);
      TailElements(b);
      SortedUnique(a[1..], b[1..], leq);
      assert a == [a[0]] + a[1..] && b == [b[0]] + b[1..];
    }
  }

  lemma SortSetExactly(a: seq<Value>, b: seq<Value>, json: Value -> Bytes)
    requires Injective(json)
    ensures SortSet(a, json) == SortSet(b, json) <==> multiset(a) == multiset(b)
  {
    LeqIsOrder(json);
    SortCorrect(a, Leq(json));
    SortCorrect(b, Leq(json));
    if multiset(a) == multiset(b) { SortedUnique(SortSet(a, json), SortSet(b, json), Leq(json)); }
  }

  lemma InnerSortedExactly(x: Value, y: Value, keys: seq<string>, json: Value -> Bytes)
    requires Injective(json)
    ensures InnerSorted(x, keys, json) == InnerSorted(y, keys, json) <==> SameElement(x, y, keys)
  {
    if x.Object? && y.Object? && x.fields.Keys == y.fields.Keys {
      var fx, fy := InnerSorted(x, keys, json).fields, InnerSorted(y, keys, json).fields;
      forall k | k in x.fields ensures fx[k] == fy[k] <==> SameField(k, x.fields[k], y.fields[k], keys) {
        if x.fields[k].List? && y.fields[k].List? { SortSetExactly(x.fields[k].elems, y.fields[k].elems, json); }
      }
      assert fx == fy <==> forall k | k in x.fields :: fx[k] == fy[k];
    } else if x.Object? && y.Object? {
      assert InnerSorted(x, keys, json).fields.Keys == x.fields.Keys;
      assert InnerSorted(y, keys, json).fields.Keys == y.fields.Keys;
    }
  }

  lemma {:induction false} CountIsMultiplicity(s: seq<Value>, e: Value, keys: seq<string>, json: Value -> Bytes)
    requires Injective(json)
    ensures CountSame(s, e, keys) == multiset(InnerAll(s, keys, json))[InnerSorted(e, keys, json)]
  {
    if s != [] {
      CountIsMultiplicity(s[1..], e, keys, json);
      InnerSortedExactly(s[0], e, keys, json);
    }
  }

  lemma {:induction false} InnerAllElements(s: seq<Value>, keys: seq<string>, json: Value -> Bytes, v: Value)
    requires v in multiset(InnerAll(s, keys, json))
    ensures exists e :: InnerSorted(e, keys, json) == v
  {
    if s != [] && InnerSorted(s[0], keys, json) != v {
      assert v in multiset(InnerAll(s[1..], keys, json));
      InnerAllElements(s[1..], keys, json, v);
    }
  }

  /** Two lists get the same canonical form exactly when they are equal as
      sets with multiplicity, inner set-key lists included. */
  lemma CanonicalExactly(a: seq<Value>, b: seq<Value>, keys: seq<string>, json: Value -> Bytes)
    requires Injective(json)
    ensures Canonical(a, keys, json) == Canonical(b, keys, json) <==> SameSet(a, b, keys)
  {
    var ia, ib := InnerAll(a, keys, json), InnerAll(b, keys, json);
    SortSetExactly(ia, ib, json);
    forall e ensures CountSame(a, e, keys) == multiset(ia)[InnerSorted(e, keys, json)]
      ensures CountSame(b, e, keys) == multiset(ib)[InnerSorted(e, keys, json)]
    {
      CountIsMultiplicity(a, e, keys, json);
      CountIsMultiplicity(b, e, keys, json);
    }
    if SameSet(a, b, keys) {
      forall v ensures multiset(ia)[v] == multiset(ib)[v] {
        if v in multiset(ia) {
          InnerAllElements(a, keys, json, v);
        } else if v in multiset(ib) {
          InnerAllElements(b, keys, json, v);
        }
        if e :| InnerSorted(e, keys, json) == v {
          assert CountSame(a, e, keys) == CountSame(b, e, keys);
        }
      }
      assert multiset(ia) == multiset(ib);
    }
  }
}

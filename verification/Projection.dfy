/** The drift fingerprint's projection: the values of the managed paths of an
    exported document, assembled into a tree. */
module Projection {
  import opened Options
  import opened CanonicalSet

  datatype Entry = Entry(key: string, node: Node)

  /** A YAML node. A mapping lists its entries in document order. */
  datatype Node =
    | ScalarNode(tag: string, text: string)
    | SequenceNode(content: seq<Node>)
    | MappingNode(entries: seq<Entry>)
    | DocumentNode(content: seq<Node>)
    | OtherNode(text: string)

  type Path = seq<string>

  const ABSENT := Scalar("::absent::")

  // --- Reading the export ---

  /** The first entry with the key decides; nothing later is tried. */
  function Child(entries: seq<Entry>, key: string): Option<Node> {
    if entries == [] then None
    else if entries[0].key == key then Some(entries[0].node)
    else Child(entries[1..], key)
  }

  function GetAtPath(n: Node, path: Path): Option<Node>
    decreases |path|, n
  {
    if path == [] then Some(n)
    else match n
      case DocumentNode(content) => if |content| > 0 then GetAtPath(content[0], path) else None
      case MappingNode(entries) =>
        var c := Child(entries, path[0]);
        if c.Some? then GetAtPath(c.value, path[1..]) else None
      case _ => None
  }

  /** scalar decodes a tagged scalar. The last of two equal keys wins. */
  function ToValue(n: Node, scalar: (string, string) -> string): Value {
    match n
    case ScalarNode(tag, text) => Scalar(scalar(tag, text))
    case SequenceNode(content) =>
      List(seq(|content|, i requires 0 <= i < |content| => ToValue(content[i], scalar)))
    case MappingNode(entries) => Object(Fields(entries, scalar))
    case DocumentNode(content) => Scalar("")
    case OtherNode(text) => Scalar(text)
  }

  function Fields(entries: seq<Entry>, scalar: (string, string) -> string): map<string, Value> {
    if entries == [] then map[]
    else
      var last := |entries| - 1;
      Fields(entries[..last], scalar)[entries[last].key := ToValue(entries[last].node, scalar)]
  }

  // --- What reading means ---

  /** The first entry with the key. */
  ghost predicate FirstWith(entries: seq<Entry>, key: string, j: nat) {
    j < |entries| && entries[j].key == key && forall i | 0 <= i < j :: entries[i].key != key
  }

  /** The last entry with the key. */
  ghost predicate LastWith(entries: seq<Entry>, key: string, j: nat) {
    j < |entries| && entries[j].key == key && forall i | j < i < |entries| :: entries[i].key != key
  }

  /** One step down: a document stands for its first child, and a mapping step
      takes the first entry whose key is the next path part. */
  ghost predicate Link(n: Node, at: nat, m: Node, next: nat, path: Path) {
    at < |path| &&
    match n
    case DocumentNode(content) => content != [] && m == content[0] && next == at
    case MappingNode(entries) =>
      next == at + 1 && exists j: nat :: FirstWith(entries, path[at], j) && m == entries[j].node
    case _ => false
  }

  /** The nodes from n down to m, with the part of the path used at each. */
  ghost predicate Chain(nodes: seq<Node>, used: seq<nat>, n: Node, path: Path, m: Node) {
    && |nodes| == |used| > 0 && nodes[0] == n && used[0] == 0
    && nodes[|nodes| - 1] == m && used[|used| - 1] == |path|
    && forall i | 0 <= i < |nodes| - 1 :: Link(nodes[i], used[i], nodes[i + 1], used[i + 1], path)
  }

  lemma {:induction false} ChildIsFirst(entries: seq<Entry>, key: string)
    ensures Child(entries, key).Some? ==>
              exists j: nat :: FirstWith(entries, key, j) && entries[j].node == Child(entries, key).value
    ensures forall j: nat | FirstWith(entries, key, j) :: Child(entries, key) == Some(entries[j].node)
  {
    if entries != [] {
      if entries[0].key == key {
        assert FirstWith(entries, key, 0);
      } else {
        var rest := entries[1..];
        ChildIsFirst(rest, key);
        if Child(rest, key).Some? {
          var j: nat :| FirstWith(rest, key, j) && rest[j].node == Child(rest, key).value;
          assert FirstWith(entries, key, j + 1);
        }
        forall j: nat | FirstWith(entries, key, j) ensures Child(entries, key) == Some(entries[j].node) {
          assert FirstWith(rest, key, j - 1);
        }
      }
    }
  }

  /** Reading finds the node at the end of the chain. */
  lemma {:induction false} ChainIsRead(nodes: seq<Node>, used: seq<nat>, n: Node, path: Path, m: Node, i: nat)
    requires Chain(nodes, used, n, path, m) && i < |nodes| && used[i] <= |path|
    ensures GetAtPath(nodes[i], path[used[i]..]) == Some(m)
    decreases |nodes| - i
  {
    if i < |nodes| - 1 {
      assert Link(nodes[i], used[i], nodes[i + 1], used[i + 1], path);
      ChainIsRead(nodes, used, n, path, m, i + 1);
      var rest := path[used[i]..];
      assert rest[0] == path[used[i]];
      if nodes[i].MappingNode? {
        assert rest[1..] == path[used[i + 1]..];
        ChildIsFirst(nodes[i].entries, path[used[i]]);
      }
    }
  }

  lemma LinkShifts(n: Node, at: nat, m: Node, next: nat, path: Path, part: string)
    ensures Link(n, at, m, next, path) <==> Link(n, at + 1, m, next + 1, [part] + path)
  {
    if at < |path| { assert ([part] + path)[at + 1] == path[at]; }
  }

  lemma ChainBehindDocument(n: Node, nodes: seq<Node>, used: seq<nat>, path: Path, m: Node)
    requires n.DocumentNode? && n.content != [] && path != [] && Chain(nodes, used, n.content[0], path, m)
    ensures Chain([n] + nodes, [0] + used, n, path, m)
  {
    forall i | 0 <= i < |nodes|
      ensures Link(([n] + nodes)[i], ([0] + used)[i], ([n] + nodes)[i + 1], ([0] + used)[i + 1], path)
    {
      if i > 0 { assert Link(nodes[i - 1], used[i - 1], nodes[i], used[i], path); }
    }
  }

  lemma ChainBehindMapping(n: Node, j: nat, nodes: seq<Node>, used: seq<nat>, path: Path, m: Node)
    requires n.MappingNode? && path != [] && FirstWith(n.entries, path[0], j)
    requires Chain(nodes, used, n.entries[j].node, path[1..], m)
    ensures Chain([n] + nodes, [0] + seq(|used|, i requires 0 <= i < |used| => used[i] + 1), n, path, m)
  {
    var more := seq(|used|, i requires 0 <= i < |used| => used[i] + 1);
    assert path == [path[0]] + path[1..];
    forall i | 0 <= i < |nodes|
      ensures Link(([n] + nodes)[i], ([0] + more)[i], ([n] + nodes)[i + 1], ([0] + more)[i + 1], path)
    {
      if i > 0 {
        assert Link(nodes[i - 1], used[i - 1], nodes[i], used[i], path[1..]);
        LinkShifts(nodes[i - 1], used[i - 1], nodes[i], used[i], path[1..], path[0]);
      }
    }
  }

  lemma {:induction false} ReadIsChain(n: Node, path: Path) returns (nodes: seq<Node>, used: seq<nat>)
    requires GetAtPath(n, path).Some?
    ensures Chain(nodes, used, n, path, GetAtPath(n, path).value)
    decreases |path|, n
  {
    if path == [] {
      nodes, used := [n], [0];
    } else if n.DocumentNode? {
      nodes, used := ReadIsChain(n.content[0], path);
      ChainBehindDocument(n, nodes, used, path, GetAtPath(n, path).value);
      nodes, used := [n] + nodes, [0] + used;
    } else {
      ChildIsFirst(n.entries, path[0]);
      var j: nat :| FirstWith(n.entries, path[0], j) && n.entries[j].node == Child(n.entries, path[0]).value;
      nodes, used := ReadIsChain(n.entries[j].node, path[1..]);
      ChainBehindMapping(n, j, nodes, used, path, GetAtPath(n, path).value);
      nodes, used := [n] + nodes, [0] + seq(|used|, i requires 0 <= i < |used| => used[i] + 1);
    }
  }

  /** A path reads a node exactly when a chain leads down to it. */
  lemma GetAtPathExactly(n: Node, path: Path, m: Node)
    ensures GetAtPath(n, path) == Some(m) <==> exists nodes, used :: Chain(nodes, used, n, path, m)
  {
    if GetAtPath(n, path) == Some(m) { var nodes, used := ReadIsChain(n, path); }
    if nodes, used :| Chain(nodes, used, n, path, m) {
      ChainIsRead(nodes, used, n, path, m, 0);
      assert path[0..] == path;
    }
  }

  lemma {:induction false} FieldsAre(entries: seq<Entry>, scalar: (string, string) -> string, key: string)
    ensures key in Fields(entries, scalar) <==> exists j: nat :: LastWith(entries, key, j)
    ensures forall j: nat | LastWith(entries, key, j) ::
              key in Fields(entries, scalar) && Fields(entries, scalar)[key] == ToValue(entries[j].node, scalar)
    decreases |entries|
  {
    if entries != [] {
      var last := |entries| - 1;
      var front := entries[..last];
      FieldsAre(front, scalar, key);
      if entries[last].key == key {
        assert LastWith(entries, key, last);
      } else {
        forall j: nat ensures LastWith(entries, key, j) <==> LastWith(front, key, j) {
        }
      }
    }
  }

  /** A value is what its node holds: the decoded scalar, the children's values
      in their places, or under each key the value of its last entry. */
  lemma ToValueExactly(n: Node, scalar: (string, string) -> string)
    ensures n.ScalarNode? ==> ToValue(n, scalar) == Scalar(scalar(n.tag, n.text))
    ensures n.DocumentNode? ==> ToValue(n, scalar) == Scalar("")
    ensures n.OtherNode? ==> ToValue(n, scalar) == Scalar(n.text)
    ensures n.SequenceNode? ==>
              && ToValue(n, scalar).List? && |ToValue(n, scalar).elems| == |n.content|
              && forall i | 0 <= i < |n.content| :: ToValue(n, scalar).elems[i] == ToValue(n.content[i], scalar)
    ensures n.MappingNode? ==>
              && ToValue(n, scalar).Object?
              && (forall key :: key in ToValue(n, scalar).fields <==> exists j: nat :: LastWith(n.entries, key, j))
              && (forall j: nat | j < |n.entries| && LastWith(n.entries, n.entries[j].key, j) ::
                    ToValue(n, scalar).fields[n.entries[j].key] == ToValue(n.entries[j].node, scalar))
  {
    if n.MappingNode? {
      forall key
        ensures key in ToValue(n, scalar).fields <==> exists j: nat :: LastWith(n.entries, key, j)
        ensures forall j: nat | LastWith(n.entries, key, j) ::
                  && key in ToValue(n, scalar).fields
                  && ToValue(n, scalar).fields[key] == ToValue(n.entries[j].node, scalar)
      {
        FieldsAre(n.entries, scalar, key);
      }
    }
  }

  // --- Declared set paths ---

  const ROLES := ["jenkins", "authorizationStrategy", "roleBased", "roles", "*"]
  const INNER_KEYS := ["permissions", "entries"]

  predicate Matches(pattern: Path, p: Path) {
    |p| == |pattern| && forall i | 0 <= i < |p| :: pattern[i] == "*" || p[i] == pattern[i]
  }

  method MatchSetPath(p: Path) returns (ok: bool)
    ensures ok <==> Matches(ROLES, p)
    ensures ok <==> && |p| == 5 && p[0] == "jenkins" && p[1] == "authorizationStrategy" && p[2] == "roleBased"
                    && p[3] == "roles"
  {
    if |p| != |ROLES| { return false; }
    for i := 0 to |ROLES|
      invariant forall j | 0 <= j < i :: ROLES[j] == "*" || p[j] == ROLES[j]
    {
      if ROLES[i] != "*" && p[i] != ROLES[i] { return false; }
    }
    return true;
  }

  /** How values are read and compared: the scalar decoder and the encoder. */
  datatype Codec = Codec(scalar: (string, string) -> string, json: Value -> Bytes)

  /** What the export holds at a path, before canonical ordering. */
  function ValueAt(doc: Node, p: Path, c: Codec): Option<Value> {
    var n := GetAtPath(doc, p);
    if n.Some? then Some(ToValue(n.value, c.scalar)) else None
  }

  function CanonicalAt(v: Value, p: Path, c: Codec): Value {
    if Matches(ROLES, p) && v.List? then List(Canonical(v.elems, INNER_KEYS, c.json)) else v
  }

  function LeafAt(doc: Node, p: Path, c: Codec): Value {
    var v := ValueAt(doc, p, c);
    if v.Some? then CanonicalAt(v.value, p, c) else ABSENT
  }

  // --- The tree ---

  type Tree = map<string, Value>

  function Subtree(t: Tree, key: string): Tree {
    if key in t && t[key].Object? then t[key].fields else map[]
  }

  function SetAtPath(t: Tree, path: Path, val: Value): Tree
    decreases |path|
  {
    if path == [] then t
    else if |path| == 1 then t[path[0] := val]
    else t[path[0] := Object(SetAtPath(Subtree(t, path[0]), path[1..], val))]
  }

  function ReadPath(t: Tree, path: Path): Option<Value>
    decreases |path|
  {
    if path == [] || path[0] !in t then None
    else if |path| == 1 then Some(t[path[0]])
    else ReadPath(Subtree(t, path[0]), path[1..])
  }

  function Project(doc: Node, paths: seq<Path>, c: Codec): Tree {
    if paths == [] then map[]
    else
      var last := |paths| - 1;
      SetAtPath(Project(doc, paths[..last], c), paths[last], LeafAt(doc, paths[last], c))
  }

  method BuildProjection(doc: Node, paths: seq<Path>, c: Codec) returns (root: Tree)
    ensures root == Project(doc, paths, c)
  {
    root := map[];
    for i := 0 to |paths|
      invariant root == Project(doc, paths[..i], c)
    {
      assert paths[..i + 1][..i] == paths[..i];
      var v := ValueAt(doc, paths[i], c);
      if v.None? {
        root := SetAtPath(root, paths[i], ABSENT);
      } else {
        var matched := MatchSetPath(paths[i]);
        var val := v.value;
        if matched && val.List? { val := List(Canonical(val.elems, INNER_KEYS, c.json)); }
        root := SetAtPath(root, paths[i], val);
      }
    }
    assert paths[..|paths|] == paths;
  }

  // --- Reading back ---

  lemma {:induction false} ReadSame(t: Tree, p: Path, v: Value)
    requires p != []
    ensures ReadPath(SetAtPath(t, p, v), p) == Some(v)
    decreases |p|
  {
    if |p| > 1 { ReadSame(Subtree(t, p[0]), p[1..], v); }
  }

  /** A write disturbs no path it is neither below nor above. */
  lemma {:induction false} ReadOther(t: Tree, p: Path, q: Path, v: Value)
    requires !(p <= q) && !(q <= p)
    ensures ReadPath(SetAtPath(t, p, v), q) == ReadPath(t, q)
    decreases |p|
  {
    if p[0] == q[0] {
      assert p == [p[0]] + p[1..] && q == [q[0]] + q[1..];
      assert !(p[1..] <= q[1..]) && !(q[1..] <= p[1..]);
      ReadOther(Subtree(t, p[0]), p[1..], q[1..], v);
      ReadEmpty(q[1..]);
    }
  }

  lemma ReadEmpty(q: Path)
    ensures ReadPath(map[], q) == None
  {
  }

  ghost predicate PrefixFree(paths: seq<Path>) {
    && (forall i | 0 <= i < |paths| :: paths[i] != [])
    && (forall i, j | 0 <= i < |paths| && 0 <= j < |paths| && i != j :: !(paths[i] <= paths[j]))
  }

  /** Each listed path reads back exactly its canonical value or the absent
      sentinel: no write disturbs another path. */
  lemma {:induction false} ProjectReadsBack(doc: Node, paths: seq<Path>, c: Codec, i: nat)
    requires PrefixFree(paths) && i < |paths|
    ensures ReadPath(Project(doc, paths, c), paths[i]) == Some(LeafAt(doc, paths[i], c))
    decreases |paths|
  {
    var last := |paths| - 1;
    var before := Project(doc, paths[..last], c);
    if i == last {
      ReadSame(before, paths[last], LeafAt(doc, paths[last], c));
    } else {
      assert paths[..last][i] == paths[i];
      ProjectReadsBack(doc, paths[..last], c, i);
      ReadOther(before, paths[last], paths[i], LeafAt(doc, paths[last], c));
    }
  }

  // --- The fingerprint changes exactly with the managed content ---

  /** Equal content at a path: both absent, or equal values, where a declared
      set path compares lists as sets. */
  ghost predicate SameContent(x: Option<Value>, y: Option<Value>, p: Path) {
    match (x, y)
    case (None, None) => true
    case (Some(v), Some(u)) =>
      if Matches(ROLES, p) && v.List? && u.List? then SameSet(v.elems, u.elems, ["permissions", "entries"])
      else v == u
    case _ => false
  }

  ghost predicate AgreeAt(a: Node, b: Node, p: Path, c: Codec) {
    SameContent(ValueAt(a, p, c), ValueAt(b, p, c), p)
  }

  /** The content as the fingerprint sees it: the sentinel text is absence. */
  function Seen(doc: Node, p: Path, c: Codec): Option<Value> {
    var v := ValueAt(doc, p, c);
    if v == Some(ABSENT) then None else v
  }

  ghost predicate SeenAlike(a: Node, b: Node, p: Path, c: Codec) {
    SameContent(Seen(a, p, c), Seen(b, p, c), p)
  }

  ghost predicate NoSentinel(doc: Node, paths: seq<Path>, c: Codec) {
    forall i | 0 <= i < |paths| :: ValueAt(doc, paths[i], c) != Some(ABSENT)
  }

  lemma LeavesAgree(a: Node, b: Node, p: Path, c: Codec)
    requires Injective(c.json)
    ensures LeafAt(a, p, c) == LeafAt(b, p, c) <==> SeenAlike(a, b, p, c)
  {
    var va, vb := ValueAt(a, p, c), ValueAt(b, p, c);
    if va.Some? && vb.Some? && va.value.List? && vb.value.List? {
      CanonicalExactly(va.value.elems, vb.value.elems, INNER_KEYS, c.json);
    }
  }

  lemma {:induction false} SameLeavesSameTree(a: Node, b: Node, paths: seq<Path>, c: Codec)
    requires forall i | 0 <= i < |paths| :: LeafAt(a, paths[i], c) == LeafAt(b, paths[i], c)
    ensures Project(a, paths, c) == Project(b, paths, c)
    decreases |paths|
  {
    if paths != [] { SameLeavesSameTree(a, b, paths[..|paths| - 1], c); }
  }

  /** For any prefix-free path list, two exports encode to the same projection
      exactly when at every listed path they agree, the sentinel text counting
      as absence. */
  lemma ProjectionExactly(a: Node, b: Node, paths: seq<Path>, c: Codec)
    requires Injective(c.json) && PrefixFree(paths)
    ensures c.json(Object(Project(a, paths, c))) == c.json(Object(Project(b, paths, c)))
            <==> forall i | 0 <= i < |paths| :: SeenAlike(a, b, paths[i], c)
  {
    forall i | 0 <= i < |paths|
      ensures LeafAt(a, paths[i], c) == LeafAt(b, paths[i], c) <==> SeenAlike(a, b, paths[i], c)
      ensures ReadPath(Project(a, paths, c), paths[i]) == Some(LeafAt(a, paths[i], c))
      ensures ReadPath(Project(b, paths, c), paths[i]) == Some(LeafAt(b, paths[i], c))
    {
      LeavesAgree(a, b, paths[i], c);
      ProjectReadsBack(a, paths, c, i);
      ProjectReadsBack(b, paths, c, i);
    }
    if forall i | 0 <= i < |paths| :: SeenAlike(a, b, paths[i], c) {
      SameLeavesSameTree(a, b, paths, c);
    }
  }

  /** Exports without the sentinel text project alike exactly when they agree. */
  lemma NoSentinelExactly(a: Node, b: Node, paths: seq<Path>, c: Codec)
    requires Injective(c.json) && PrefixFree(paths) && NoSentinel(a, paths, c) && NoSentinel(b, paths, c)
    ensures c.json(Object(Project(a, paths, c))) == c.json(Object(Project(b, paths, c)))
            <==> forall i | 0 <= i < |paths| :: AgreeAt(a, b, paths[i], c)
  {
    ProjectionExactly(a, b, paths, c);
    assert forall i | 0 <= i < |paths| :: SeenAlike(a, b, paths[i], c) <==> AgreeAt(a, b, paths[i], c);
  }

  // --- A change at one place of the export ---

  function ReplaceChild(entries: seq<Entry>, key: string, node: Node): seq<Entry> {
    if entries == [] then []
    else if entries[0].key == key then [Entry(key, node)] + entries[1..]
    else [entries[0]] + ReplaceChild(entries[1..], key, node)
  }

  /** The document with another node at a path that it has. */
  function Replace(n: Node, path: Path, m: Node): Node
    requires GetAtPath(n, path).Some?
    decreases |path|, n
  {
    if path == [] then m
    else if n.DocumentNode? then DocumentNode([Replace(n.content[0], path, m)] + n.content[1..])
    else
      var child := Child(n.entries, path[0]).value;
      MappingNode(ReplaceChild(n.entries, path[0], Replace(child, path[1..], m)))
  }

  lemma {:induction false} ReplacedChild(entries: seq<Entry>, key: string, node: Node, other: string)
    requires Child(entries, key).Some?
    ensures Child(ReplaceChild(entries, key, node), other) == if other == key then Some(node) else Child(entries, other)
  {
    if entries[0].key != key { ReplacedChild(entries[1..], key, node, other); }
  }

  lemma {:induction false} ReplaceReads(n: Node, path: Path, m: Node)
    requires GetAtPath(n, path).Some?
    ensures GetAtPath(Replace(n, path, m), path) == Some(m)
    decreases |path|, n
  {
    if path != [] {
      if n.DocumentNode? {
        ReplaceReads(n.content[0], path, m);
      } else {
        var child := Child(n.entries, path[0]).value;
        ReplaceReads(child, path[1..], m);
        ReplacedChild(n.entries, path[0], Replace(child, path[1..], m), path[0]);
      }
    }
  }

  lemma {:induction false} ReplaceElsewhere(n: Node, path: Path, m: Node, q: Path)
    requires GetAtPath(n, path).Some? && !(path <= q) && !(q <= path)
    ensures GetAtPath(Replace(n, path, m), q) == GetAtPath(n, q)
    decreases |path|, n
  {
    if n.DocumentNode? {
      ReplaceElsewhere(n.content[0], path, m, q);
    } else {
      var child := Child(n.entries, path[0]).value;
      ReplacedChild(n.entries, path[0], Replace(child, path[1..], m), q[0]);
      if path[0] == q[0] {
        assert path == [path[0]] + path[1..] && q == [q[0]] + q[1..];
        ReplaceElsewhere(child, path[1..], m, q[1..]);
      }
    }
  }

  lemma SameContentReflexive(x: Option<Value>, p: Path)
    ensures SameContent(x, x, p)
  {
  }

  /** A change at a managed path, at whatever depth, changes the projection
      exactly when the content seen there changes. */
  lemma ChangeExactly(doc: Node, paths: seq<Path>, i: nat, m: Node, c: Codec)
    requires Injective(c.json) && PrefixFree(paths) && i < |paths| && GetAtPath(doc, paths[i]).Some?
    ensures var changed := Replace(doc, paths[i], m);
            c.json(Object(Project(doc, paths, c))) == c.json(Object(Project(changed, paths, c)))
            <==> SeenAlike(doc, changed, paths[i], c)
  {
    var changed := Replace(doc, paths[i], m);
    ProjectionExactly(doc, changed, paths, c);
    forall j | 0 <= j < |paths| && j != i ensures SeenAlike(doc, changed, paths[j], c) {
      ReplaceElsewhere(doc, paths[i], m, paths[j]);
      SameContentReflexive(Seen(doc, paths[j], c), paths[j]);
    }
  }

  /** Two scalars at a managed path project alike exactly when they decode
      alike. */
  lemma ScalarDrift(doc: Node, paths: seq<Path>, i: nat, tag: string, text: string, c: Codec)
    requires Injective(c.json) && PrefixFree(paths) && i < |paths|
    requires GetAtPath(doc, paths[i]).Some? && GetAtPath(doc, paths[i]).value.ScalarNode?
    ensures var was, changed := GetAtPath(doc, paths[i]).value, Replace(doc, paths[i], ScalarNode(tag, text));
            c.json(Object(Project(doc, paths, c))) == c.json(Object(Project(changed, paths, c)))
            <==> c.scalar(was.tag, was.text) == c.scalar(tag, text)
  {
    ChangeExactly(doc, paths, i, ScalarNode(tag, text), c);
    ReplaceReads(doc, paths[i], ScalarNode(tag, text));
  }

  /** A change beside every managed path is never drift. */
  lemma UnmanagedChange(doc: Node, paths: seq<Path>, p: Path, m: Node, c: Codec)
    requires GetAtPath(doc, p).Some? && forall i | 0 <= i < |paths| :: !(p <= paths[i]) && !(paths[i] <= p)
    ensures Project(Replace(doc, p, m), paths, c) == Project(doc, paths, c)
  {
    forall i | 0 <= i < |paths| ensures LeafAt(Replace(doc, p, m), paths[i], c) == LeafAt(doc, paths[i], c) {
      ReplaceElsewhere(doc, p, m, paths[i]);
    }
    SameLeavesSameTree(Replace(doc, p, m), doc, paths, c);
  }

  /** An absent path and a path holding the sentinel text project alike. */
  lemma SentinelCollides(key: string, tag: string, c: Codec)
    requires c.scalar(tag, "::absent::") == "::absent::"
    ensures var a, b := MappingNode([]), MappingNode([Entry(key, ScalarNode(tag, "::absent::"))]);
            Project(a, [[key]], c) == Project(b, [[key]], c) && !AgreeAt(a, b, [key], c)
  {
    var a, b := MappingNode([]), MappingNode([Entry(key, ScalarNode(tag, "::absent::"))]);
    assert GetAtPath(b, [key]) == Some(ScalarNode(tag, "::absent::"));
    assert GetAtPath(a, [key]) == None;
    assert [[key]][..0] == [];
    assert LeafAt(a, [key], c) == LeafAt(b, [key], c) == ABSENT;
    SameLeavesSameTree(a, b, [[key]], c);
  }
}

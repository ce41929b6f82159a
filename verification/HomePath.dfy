/** Confinement of rehydration paths below the Jenkins home, with the lexical
    path cleaning of Go's filepath package. */
module HomePath {
  import opened Strings
  import opened RehydrationPath

  // --- filepath.Clean ---

  predicate Rooted(path: string) {
    path != "" && path[0] == '/'
  }

  /** One component: empty and "." vanish, ".." takes back the last one, goes
      up from a relative start, and stops at a root. */
  function Step(rooted: bool, acc: seq<string>, part: string): seq<string> {
    if part == "" || part == "." then acc
    else if part == ".." then
      if acc != [] && acc[|acc| - 1] != ".." then acc[..|acc| - 1]
      else if rooted then acc
      else acc + [part]
    else acc + [part]
  }

  function Fold(rooted: bool, acc: seq<string>, parts: seq<string>): seq<string>
    decreases |parts|
  {
    if parts == [] then acc else Fold(rooted, Step(rooted, acc, parts[0]), parts[1..])
  }

  function Render(rooted: bool, comps: seq<string>): string {
    if rooted then "/" + Join(comps, '/')
    else if comps == [] then "."
    else Join(comps, '/')
  }

  function Components(path: string): seq<string> {
    Fold(Rooted(path), [], Split(path, '/'))
  }

  function Clean(path: string): string {
    Render(Rooted(path), Components(path))
  }

  // --- confineRehydrationPath ---

  function Confine(homeDir: string, rel: string): Result<string> {
    var home := Clean(homeDir);
    var abs := Clean(Clean(home + "/" + rel));
    if rel == "" || (abs != home && !(home + "/" <= abs)) then Err else Ok(abs)
  }

  // --- Cleaning is stable on clean components ---

  predicate Plain(part: string) {
    part != "" && part != "." && part != ".." && '/' !in part
  }

  ghost predicate AllPlain(parts: seq<string>) {
    forall i | 0 <= i < |parts| :: Plain(parts[i])
  }

  /** Clean components: plain names, after leading ".." when relative. */
  ghost predicate Normal(rooted: bool, comps: seq<string>) {
    && (forall i | 0 <= i < |comps| :: comps[i] != "" && comps[i] != "." && '/' !in comps[i])
    && (forall i | 0 <= i < |comps| :: comps[i] == ".." ==> !rooted && forall j | 0 <= j < i :: comps[j] == "..")
  }

  lemma StepNormal(rooted: bool, acc: seq<string>, part: string)
    requires Normal(rooted, acc) && '/' !in part
    ensures Normal(rooted, Step(rooted, acc, part))
  {
    if part == ".." && !rooted && acc != [] && acc[|acc| - 1] == ".." {
      assert forall j | 0 <= j < |acc| :: acc[j] == "..";
    }
  }

  lemma {:induction false} FoldNormal(rooted: bool, acc: seq<string>, parts: seq<string>)
    requires Normal(rooted, acc) && Free(parts, '/')
    ensures Normal(rooted, Fold(rooted, acc, parts))
    decreases |parts|
  {
    if parts != [] {
      StepNormal(rooted, acc, parts[0]);
      FoldNormal(rooted, Step(rooted, acc, parts[0]), parts[1..]);
    }
  }

  lemma {:induction false} FoldConcat(rooted: bool, acc: seq<string>, a: seq<string>, b: seq<string>)
    ensures Fold(rooted, acc, a + b) == Fold(rooted, Fold(rooted, acc, a), b)
    decreases |a|
  {
    if a == [] {
      assert a + b == b;
    } else {
      assert (a + b)[1..] == a[1..] + b;
      FoldConcat(rooted, Step(rooted, acc, a[0]), a[1..], b);
    }
  }

  /** Folding clean components onto what precedes them appends them. */
  lemma {:induction false} FoldClean(rooted: bool, acc: seq<string>, parts: seq<string>)
    requires Normal(rooted, acc + parts)
    ensures Fold(rooted, acc, parts) == acc + parts
    decreases |parts|
  {
    if parts != [] {
      assert (acc + parts)[|acc|] == parts[0];
      if parts[0] == ".." && acc != [] { assert (acc + parts)[|acc| - 1] == acc[|acc| - 1]; }
      assert Step(rooted, acc, parts[0]) == acc + [parts[0]];
      assert acc + [parts[0]] + parts[1..] == acc + parts;
      FoldClean(rooted, acc + [parts[0]], parts[1..]);
    }
  }

  lemma RenderRooted(rooted: bool, comps: seq<string>)
    requires Normal(rooted, comps)
    ensures Render(rooted, comps) != "" && Rooted(Render(rooted, comps)) == rooted
  {
    if !rooted && comps != [] {
      assert comps[0] != "" && '/' !in comps[0];
      assert Join(comps, '/')[0] == comps[0][0];
    }
  }

  lemma {:induction false} FoldSkips(rooted: bool, part: string, parts: seq<string>)
    requires part == "" || part == "."
    ensures Fold(rooted, [], [part] + parts) == Fold(rooted, [], parts)
  {
    assert ([part] + parts)[1..] == parts;
  }

  /** A rendered clean path has the components it was rendered from. */
  lemma RenderedComponents(rooted: bool, comps: seq<string>)
    requires Normal(rooted, comps)
    ensures Components(Render(rooted, comps)) == comps
  {
    RenderRooted(rooted, comps);
    FoldClean(rooted, [], comps);
    assert [] + comps == comps;
    if comps != [] {
      SplitJoin(comps, '/');
      if rooted {
        SplitConcat("", '/', Join(comps, '/'));
        assert "" + "/" + Join(comps, '/') == Render(rooted, comps);
        FoldSkips(rooted, "", comps);
      }
    } else if rooted {
      SplitConcat("", '/', "");
      assert "" + "/" + "" == Render(rooted, comps);
      FoldSkips(rooted, "", [""]);
      FoldSkips(rooted, "", []);
    } else {
      SplitNone(".", '/');
      FoldSkips(rooted, ".", []);
    }
  }

  lemma PlainAfterNormal(rooted: bool, comps: seq<string>, parts: seq<string>)
    requires Normal(rooted, comps) && AllPlain(parts)
    ensures Normal(rooted, comps + parts)
  {
    var all := comps + parts;
    forall i | 0 <= i < |all|
      ensures all[i] != "" && all[i] != "." && '/' !in all[i]
      ensures all[i] == ".." ==> !rooted && forall j | 0 <= j < i :: all[j] == ".."
    {
      if i < |comps| {
        assert all[i] == comps[i];
      } else {
        assert all[i] == parts[i - |comps|];
      }
    }
  }

  /** Joining plain parts behind a clean path appends them. */
  lemma JoinedComponents(rooted: bool, comps: seq<string>, parts: seq<string>)
    requires Normal(rooted, comps) && AllPlain(parts) && parts != [] && Normal(rooted, comps + parts)
    ensures Clean(Render(rooted, comps) + "/" + Join(parts, '/')) == Render(rooted, comps + parts)
  {
    var home := Render(rooted, comps);
    RenderRooted(rooted, comps);
    RenderedComponents(rooted, comps);
    SplitConcat(home, '/', Join(parts, '/'));
    SplitJoin(parts, '/');
    FoldConcat(rooted, [], Split(home, '/'), parts);
    FoldClean(rooted, comps, parts);
    assert (home + "/" + Join(parts, '/'))[0] == home[0];
  }

  // --- Confinement ---

  lemma ValidIsPlain(seg: string)
    requires ValidSegment(seg)
    ensures Plain(seg)
  {
  }

  lemma {:induction false} JobDirsPlain(segs: seq<string>)
    requires forall i | 0 <= i < |segs| :: ValidSegment(segs[i])
    ensures AllPlain(JobDirs(segs))
  {
    if segs != [] {
      ValidIsPlain(segs[0]);
      JobDirsPlain(segs[1..]);
    }
  }

  lemma NumberPlain(n: nat)
    ensures Plain(Decimal(n)) && Plain(Decimal(n) + ".xml")
  {
    DecimalValue(n);
    assert IsDigit(Decimal(n)[0]) && (Decimal(n) + ".xml")[0] == Decimal(n)[0];
    assert Decimal(n)[0] != '.';
  }

  lemma TailPlain(f: FilePath)
    requires WellFormed(f)
    ensures AllPlain(Tail(f))
  {
    match f
    case BuildFile(_, n, _) => NumberPlain(n);
    case WorkflowFile(_, n, m) => NumberPlain(n); NumberPlain(m);
    case _ =>
  }

  lemma PartsPlain(f: FilePath)
    requires WellFormed(f)
    ensures AllPlain(Parts(f)) && Parts(f) != []
  {
    if f.NodeFile? {
      ValidIsPlain(f.name);
    } else {
      JobDirsPlain(f.segs);
      TailPlain(f);
    }
  }

  lemma CleanHome(homeDir: string)
    ensures Normal(Rooted(homeDir), Components(homeDir))
  {
    JoinSplit(homeDir, '/');
    FoldNormal(Rooted(homeDir), [], Split(homeDir, '/'));
  }

  /** An accepted path is joined strictly below the home: exactly when the
      cleaned home is neither the root nor the working directory, the check
      passes, and the result is the home, a slash, and the path. */
  lemma ConfineExactly(homeDir: string, rel: string)
    requires Parse(rel).Ok?
    ensures Confine(homeDir, rel).Ok? <==> Clean(homeDir) != "/" && Clean(homeDir) != "."
    ensures Confine(homeDir, rel).Ok? ==> Confine(homeDir, rel).value == Clean(homeDir) + "/" + rel
  {
    var f := ParseSound(rel);
    PartsPlain(f);
    CleanHome(homeDir);
    ConfineParts(Rooted(homeDir), Components(homeDir), Parts(f));
    HomeIsBare(Rooted(homeDir), Components(homeDir));
    PrintNonEmpty(f);
  }

  lemma ConfineParts(rooted: bool, comps: seq<string>, parts: seq<string>)
    requires Normal(rooted, comps) && AllPlain(parts) && parts != []
    ensures var home := Render(rooted, comps);
            var abs := Clean(Clean(home + "/" + Join(parts, '/')));
            && (comps != [] ==> abs == home + "/" + Join(parts, '/'))
            && (comps == [] ==> abs != home && !(home + "/" <= abs))
  {
    CleanTwice(rooted, comps, parts);
    if comps != [] {
      RenderConcat(rooted, comps, parts);
    } else {
      assert comps + parts == parts;
      NotBelow(rooted, parts);
    }
  }

  lemma RenderConcat(rooted: bool, comps: seq<string>, parts: seq<string>)
    requires comps != [] && parts != []
    ensures Render(rooted, comps + parts) == Render(rooted, comps) + "/" + Join(parts, '/')
  {
    JoinConcat(comps, parts, '/');
    var a, b := Join(comps, '/'), Join(parts, '/');
    assert "/" + (a + "/" + b) == "/" + a + "/" + b;
  }

  lemma CleanTwice(rooted: bool, comps: seq<string>, parts: seq<string>)
    requires Normal(rooted, comps) && AllPlain(parts) && parts != []
    ensures Clean(Clean(Render(rooted, comps) + "/" + Join(parts, '/'))) == Render(rooted, comps + parts)
  {
    PlainAfterNormal(rooted, comps, parts);
    JoinedComponents(rooted, comps, parts);
    RenderedComponents(rooted, comps + parts);
    RenderRooted(rooted, comps + parts);
  }

  lemma NotBelow(rooted: bool, parts: seq<string>)
    requires AllPlain(parts) && parts != []
    ensures var home := Render(rooted, []);
            Render(rooted, parts) != home && !(home + "/" <= Render(rooted, parts))
  {
    var rel := Join(parts, '/');
    assert Plain(parts[0]) && rel[0] == parts[0][0] && rel[0] != '/';
    if rooted {
      assert Render(rooted, parts)[1] == rel[0];
    } else {
      FirstPart(parts);
    }
  }

  /** A relative path of plain parts neither is "." nor starts with "./". */
  lemma FirstPart(parts: seq<string>)
    requires AllPlain(parts) && parts != []
    ensures Join(parts, '/') != "." && !("./" <= Join(parts, '/'))
  {
    var rel := Join(parts, '/');
    assert Plain(parts[0]) && parts[0] <= rel;
    assert |parts[0]| >= 2 ==> rel[1] == parts[0][1] != '/';
    assert |parts[0]| == 1 ==> parts[0] == [parts[0][0]];
  }

  lemma HomeIsBare(rooted: bool, comps: seq<string>)
    requires Normal(rooted, comps)
    ensures comps == [] <==> Render(rooted, comps) == "/" || Render(rooted, comps) == "."
  {
    if comps != [] {
      assert Join(comps, '/')[0] == comps[0][0];
      RenderedComponents(rooted, comps);
      RenderRooted(rooted, comps);
      RenderedComponents(rooted, []);
    }
  }
}

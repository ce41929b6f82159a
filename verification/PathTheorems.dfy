/** What the path grammar and the confinement mean on every input: which names
    are accepted, what cleaning does to a path, and where a joined path ends. */
module PathTheorems {
  import opened Strings
  import opened RehydrationPath
  import opened HomePath

  // --- Accepted names ---

  /** Every part of an accepted path is a name: not empty, no leading dot, no
      backslash. */
  lemma AcceptedParts(rel: string)
    requires Parse(rel).Ok?
    ensures forall part | part in Split(rel, '/') :: part != "" && part[0] != '.' && '\\' !in part
  {
    var f := ParseSound(rel);
    PartsFree(f);
    SplitJoin(Parts(f), '/');
    NamesOf(f);
  }

  ghost predicate AllNames(parts: seq<string>) {
    forall i | 0 <= i < |parts| :: parts[i] != "" && parts[i][0] != '.' && '\\' !in parts[i]
  }

  lemma NamesOf(f: FilePath)
    requires WellFormed(f)
    ensures AllNames(Parts(f))
  {
    if !f.NodeFile? {
      JobDirsNames(f.segs);
      TailNames(f);
    }
  }

  lemma {:induction false} JobDirsNames(segs: seq<string>)
    requires forall i | 0 <= i < |segs| :: ValidSegment(segs[i])
    ensures AllNames(JobDirs(segs))
  {
    if segs != [] { JobDirsNames(segs[1..]); }
  }

  lemma DecimalName(n: nat)
    ensures var s := Decimal(n); s != "" && s[0] != '.' && '\\' !in s
  {
    DecimalValue(n);
    assert IsDigit(Decimal(n)[0]);
  }

  lemma TailNames(f: FilePath)
    requires WellFormed(f) && !f.NodeFile?
    ensures AllNames(Tail(f))
  {
    match f
    case BuildFile(_, n, _) => DecimalName(n);
    case WorkflowFile(_, n, m) =>
      DecimalName(n);
      DecimalName(m);
      assert (Decimal(m) + ".xml")[0] == Decimal(m)[0];
    case NumberFile(_) =>
  }

  /** The number file of a job path is accepted exactly when every segment is a
      name. */
  lemma NumberPathExactly(jobPath: string)
    ensures Parse(NumberPathOf(jobPath)).Ok? <==> AllNames(Split(jobPath, '/'))
  {
    JoinSplit(jobPath, '/');
    RewriteAcceptedExactly(Split(jobPath, '/'));
  }

  // --- Cleaning ---

  lemma JoinRooted(parts: seq<string>)
    requires parts != [] && Free(parts, '/')
    ensures Rooted(Join(parts, '/')) <==> parts[0] == "" && |parts| > 1
  {
    if parts[0] != "" { assert Join(parts, '/')[0] == parts[0][0]; }
  }

  lemma CleanParts(parts: seq<string>)
    requires parts != [] && Free(parts, '/')
    ensures var rooted := parts[0] == "" && |parts| > 1;
            Clean(Join(parts, '/')) == Render(rooted, Fold(rooted, [], parts))
  {
    SplitJoin(parts, '/');
    JoinRooted(parts);
  }

  lemma FoldWithout(rooted: bool, x: seq<string>, mid: seq<string>, y: seq<string>)
    requires Fold(rooted, Fold(rooted, [], x), mid) == Fold(rooted, [], x)
    ensures Fold(rooted, [], x + mid + y) == Fold(rooted, [], x + y)
  {
    FoldConcat(rooted, [], x + mid, y);
    FoldConcat(rooted, [], x, mid);
    FoldConcat(rooted, [], x, y);
  }

  /** Parts that fold to nothing can be taken out of a path. */
  lemma CleanWithout(x: seq<string>, mid: seq<string>, y: seq<string>)
    requires x != [] && x + y != [""] && Free(x, '/') && Free(mid, '/') && Free(y, '/')
    requires var rooted := x[0] == "";
             Fold(rooted, Fold(rooted, [], x), mid) == Fold(rooted, [], x)
    ensures Clean(Join(x + mid + y, '/')) == Clean(Join(x + y, '/'))
  {
    CleanParts(x + mid + y);
    CleanParts(x + y);
    FoldWithout(x[0] == "", x, mid, y);
    assert |x + y| == 1 ==> x + y == [x[0]];
  }

  lemma FoldOne(rooted: bool, acc: seq<string>, part: string)
    ensures Fold(rooted, acc, [part]) == Step(rooted, acc, part)
  {
    assert [part][1..] == [];
  }

  /** The rules of cleaning: an empty part, a dot, and a name with the ".." that
      takes it back leave the path's meaning as it is. */
  lemma CleanRules(x: seq<string>, name: string, y: seq<string>)
    requires x != [] && x + y != [""] && Free(x, '/') && Free(y, '/') && Plain(name)
    ensures Clean(Join(x + [""] + y, '/')) == Clean(Join(x + y, '/'))
    ensures Clean(Join(x + ["."] + y, '/')) == Clean(Join(x + y, '/'))
    ensures Clean(Join(x + [name, ".."] + y, '/')) == Clean(Join(x + y, '/'))
  {
    var rooted := x[0] == "";
    var acc := Fold(rooted, [], x);
    FoldOne(rooted, acc, "");
    FoldOne(rooted, acc, ".");
    assert [name, ".."][1..] == [".."];
    FoldOne(rooted, acc + [name], "..");
    assert (acc + [name])[..|acc|] == acc;
    CleanWithout(x, [""], y);
    CleanWithout(x, ["."], y);
    CleanWithout(x, [name, ".."], y);
  }

  /** Above the root is the root. */
  lemma CleanAboveRoot(y: seq<string>)
    requires y != [] && Free(y, '/')
    ensures Clean(Join(["", ".."] + y, '/')) == Clean(Join([""] + y, '/'))
  {
    FoldOne(true, [], "");
    FoldOne(true, [], "..");
    assert [""] + [".."] + y == ["", ".."] + y;
    CleanWithout([""], [".."], y);
  }

  /** A path that none of the rules apply to is clean already. */
  lemma CleanFixed(rooted: bool, comps: seq<string>)
    requires Normal(rooted, comps)
    ensures Clean(Render(rooted, comps)) == Render(rooted, comps)
  {
    RenderRooted(rooted, comps);
    RenderedComponents(rooted, comps);
  }

  // --- Confinement of any path ---

  /** The components of a path joined behind the home. */
  function Landed(homeDir: string, rel: string): seq<string> {
    Fold(Rooted(homeDir), Components(homeDir), Split(rel, '/'))
  }

  lemma JoinLands(homeDir: string, rel: string)
    ensures var home := Clean(homeDir);
            Clean(Clean(home + "/" + rel)) == Render(Rooted(homeDir), Landed(homeDir, rel))
    ensures Normal(Rooted(homeDir), Landed(homeDir, rel))
  {
    var rooted, comps := Rooted(homeDir), Components(homeDir);
    var home := Render(rooted, comps);
    CleanHome(homeDir);
    RenderRooted(rooted, comps);
    RenderedComponents(rooted, comps);
    SplitConcat(home, '/', rel);
    FoldConcat(rooted, [], Split(home, '/'), Split(rel, '/'));
    JoinSplit(rel, '/');
    FoldNormal(rooted, comps, Split(rel, '/'));
    assert (home + "/" + rel)[0] == home[0];
    CleanFixed(rooted, Landed(homeDir, rel));
  }

  lemma SplitRendered(rooted: bool, comps: seq<string>)
    requires Normal(rooted, comps) && comps != []
    ensures Split(Render(rooted, comps), '/') == (if rooted then [""] else []) + comps
  {
    SplitJoin(comps, '/');
    if rooted {
      SplitConcat("", '/', Join(comps, '/'));
      assert "" + "/" + Join(comps, '/') == Render(rooted, comps);
      assert Split("", '/') == [""];
    }
  }

  lemma BareIsNoPrefix(rooted: bool, comps: seq<string>)
    requires Normal(rooted, comps)
    ensures !(Render(rooted, []) + "/" <= Render(rooted, comps))
  {
    if comps != [] {
      var rel := Join(comps, '/');
      assert comps[0] <= rel && rel[0] == comps[0][0];
      assert |comps[0]| >= 2 ==> rel[1] == comps[0][1];
      assert |comps[0]| == 1 ==> comps[0] == [comps[0][0]];
      if rooted { assert Render(rooted, comps)[1] == rel[0]; }
    }
  }

  lemma BelowExactly(rooted: bool, home: seq<string>, comps: seq<string>)
    requires Normal(rooted, home) && Normal(rooted, comps)
    ensures Render(rooted, home) + "/" <= Render(rooted, comps) <==> home != [] && home < comps
  {
    if home == [] {
      BareIsNoPrefix(rooted, comps);
    } else {
      if home < comps {
        var more := comps[|home|..];
        assert comps == home + more;
        RenderConcat(rooted, home, more);
      }
      RenderRooted(rooted, home);
      if comps != [] && Render(rooted, home) + "/" <= Render(rooted, comps) {
        PrefixComponents(rooted, home, comps);
      }
    }
  }

  lemma CutLead(lead: seq<string>, comps: seq<string>, home: seq<string>, rest: seq<string>)
    requires lead + comps == lead + home + rest
    ensures comps == home + rest
  {
    assert (lead + comps)[|lead|..] == comps;
    assert (lead + home + rest)[|lead|..] == home + rest;
  }

  lemma PrefixComponents(rooted: bool, home: seq<string>, comps: seq<string>)
    requires Normal(rooted, home) && Normal(rooted, comps) && home != [] && comps != []
    requires Render(rooted, home) + "/" <= Render(rooted, comps)
    ensures home < comps
  {
    var a, b := Render(rooted, home), Render(rooted, comps);
    var x := b[|a| + 1..];
    assert b == a + "/" + x;
    SplitConcat(a, '/', x);
    SplitRendered(rooted, home);
    SplitRendered(rooted, comps);
    CutLead(if rooted then [""] else [], comps, home, Split(x, '/'));
  }

  lemma SameRendering(rooted: bool, a: seq<string>, b: seq<string>)
    requires Normal(rooted, a) && Normal(rooted, b)
    ensures Render(rooted, a) == Render(rooted, b) <==> a == b
  {
    RenderedComponents(rooted, a);
    RenderedComponents(rooted, b);
  }

  /** Any path at all: the check passes exactly when the path is not empty and
      lands at the home or, for a home that names a directory, below it; the
      result is where it lands. */
  lemma ConfineAnyExactly(homeDir: string, rel: string)
    ensures var home, at := Components(homeDir), Landed(homeDir, rel);
            && (Confine(homeDir, rel).Ok? <==> rel != "" && (at == home || (home != [] && home < at)))
            && (Confine(homeDir, rel).Ok? ==> Confine(homeDir, rel).value == Render(Rooted(homeDir), at))
  {
    CleanHome(homeDir);
    JoinLands(homeDir, rel);
    SameRendering(Rooted(homeDir), Landed(homeDir, rel), Components(homeDir));
    BelowExactly(Rooted(homeDir), Components(homeDir), Landed(homeDir, rel));
  }
}

/** What the orphan decision means, said by the segments of a job path: which
    ancestor decides, which levels the inventory walk visits, and which jobs are
    orphans or held back. */
module OrphanTheorems {
  import opened Options
  import opened Strings
  import opened RehydrationPath
  import opened Orphans

  /** The path of the first k segments. */
  function Upto(segs: seq<string>, k: nat): string
    requires k <= |segs|
  {
    Join(segs[..k], '/')
  }

  // --- The walk up ---

  lemma UptoNext(segs: seq<string>, k: nat)
    requires 0 < k < |segs|
    ensures Upto(segs, k + 1) == Upto(segs, k) + "/" + segs[k]
  {
    assert segs[..k + 1] == segs[..k] + [segs[k]];
    JoinConcat(segs[..k], [segs[k]], '/');
  }

  lemma {:induction false} ParentOf(a: string, b: string)
    requires '/' !in b
    ensures Parent(a + "/" + b) == Some(a)
  {
    var path := a + "/" + b;
    if b == "" {
      assert path[..|path| - 1] == a;
    } else {
      var front := b[..|b| - 1];
      assert path[..|path| - 1] == a + "/" + front && path[|path| - 1] == b[|b| - 1];
      ParentOf(a, front);
    }
  }

  lemma ParentUpto(segs: seq<string>, k: nat)
    requires Free(segs, '/') && 1 <= k <= |segs|
    ensures Parent(Upto(segs, k)) == if k == 1 then None else Some(Upto(segs, k - 1))
  {
    if k == 1 {
      assert segs[..1] == [segs[0]];
    } else {
      UptoNext(segs, k - 1);
      ParentOf(Upto(segs, k - 1), segs[k - 1]);
    }
  }

  /** The walk goes on above the ancestor of k segments: its segments are valid
      and it has no directory. */
  ghost predicate GoesOn(home: Home, segs: seq<string>, k: nat)
    requires k <= |segs|
  {
    Segments(segs[..k]) && home(JobDirs(segs[..k])) == Missing
  }

  /** The lowest proper ancestor at which the walk does not go on. */
  ghost predicate DecidesAt(home: Home, segs: seq<string>, k: nat) {
    1 <= k < |segs| && !GoesOn(home, segs, k) && forall j | k < j < |segs| :: GoesOn(home, segs, j)
  }

  ghost predicate Indexing(root: string) {
    (exists name :: root == name + "MultiBranchProject") || (exists name :: root == name + "OrganizationFolder")
  }

  lemma EndsExactly(s: string, t: string)
    ensures EndsWith(s, t) <==> exists name :: s == name + t
  {
    if EndsWith(s, t) { assert s == s[..|s| - |t|] + t; }
  }

  /** What the deciding ancestor answers. */
  ghost predicate Answers(home: Home, segs: seq<string>, k: nat, c: Creator)
    requires 1 <= k <= |segs|
  {
    if segs[..k] == [""] then c == Creator(false, "")
    else if !Segments(segs[..k]) then c == Creator(true, "")
    else
      match home(JobDirs(segs[..k]))
      case Item(root) => c == if Indexing(root) then Creator(true, Upto(segs, k)) else Creator(false, "")
      case Unreadable => c == Creator(true, "")
      case NoConfig => c == Creator(true, "")
      case NotADirectory => c == Creator(false, "")
      case Missing => false
  }

  lemma UptoEmpty(segs: seq<string>, k: nat)
    requires 1 <= k <= |segs|
    ensures Upto(segs, k) == "" <==> segs[..k] == [""]
  {
    if k > 1 { UptoNext(segs, k - 1); }
  }

  lemma AcceptedUpto(segs: seq<string>, k: nat)
    requires Free(segs, '/') && 1 <= k <= |segs|
    ensures var r := Parse(NumberPathOf(Upto(segs, k)));
            (r.Ok? <==> Segments(segs[..k])) && (r.Ok? ==> r.value.jobDirParts == JobDirs(segs[..k]))
  {
    RewriteAcceptedExactly(segs[..k]);
    if Segments(segs[..k]) { RewriteParsesBack(segs[..k]); }
  }

  lemma AnswerHere(home: Home, segs: seq<string>, k: nat)
    requires Free(segs, '/') && 1 <= k <= |segs| && !GoesOn(home, segs, k)
    ensures Answers(home, segs, k, WalkUp(home, Upto(segs, k)))
  {
    UptoEmpty(segs, k);
    AcceptedUpto(segs, k);
    if Segments(segs[..k]) {
      assert segs[..k] != [""] by { assert ValidSegment(segs[..k][0]); }
      match home(JobDirs(segs[..k])) {
        case Item(root) =>
          EndsExactly(root, "MultiBranchProject");
          EndsExactly(root, "OrganizationFolder");
        case _ =>
      }
    }
  }

  lemma OneUp(home: Home, segs: seq<string>, k: nat)
    requires Free(segs, '/') && 1 <= k <= |segs| && GoesOn(home, segs, k)
    ensures WalkUp(home, Upto(segs, k)) == if k == 1 then Creator(false, "") else WalkUp(home, Upto(segs, k - 1))
  {
    UptoEmpty(segs, k);
    assert segs[..k] != [""] by { assert ValidSegment(segs[..k][0]); }
    AcceptedUpto(segs, k);
    ParentUpto(segs, k);
  }

  lemma {:induction false} WalkDecides(home: Home, segs: seq<string>, k: nat, d: nat)
    requires Free(segs, '/') && 1 <= d <= k <= |segs| && !GoesOn(home, segs, d)
    requires forall j | d < j <= k :: GoesOn(home, segs, j)
    ensures Answers(home, segs, d, WalkUp(home, Upto(segs, k)))
    decreases k
  {
    if k == d {
      AnswerHere(home, segs, k);
    } else {
      OneUp(home, segs, k);
      WalkDecides(home, segs, k - 1, d);
    }
  }

  lemma {:induction false} WalkEnds(home: Home, segs: seq<string>, k: nat)
    requires Free(segs, '/') && 1 <= k <= |segs|
    requires forall j | 1 <= j <= k :: GoesOn(home, segs, j)
    ensures WalkUp(home, Upto(segs, k)) == Creator(false, "")
    decreases k
  {
    OneUp(home, segs, k);
    if k > 1 { WalkEnds(home, segs, k - 1); }
  }

  /** The lowest proper ancestor that is not a missing directory decides whether
      and where a job can be created; when there is none, nothing can. */
  lemma CreatorExactly(home: Home, jobPath: string)
    ensures var segs := Split(jobPath, '/');
            && (forall k: nat | DecidesAt(home, segs, k) :: Answers(home, segs, k, CreatorFor(home, jobPath)))
            && ((forall k: nat :: !DecidesAt(home, segs, k)) ==> CreatorFor(home, jobPath) == Creator(false, ""))
  {
    var segs := Split(jobPath, '/');
    var n := |segs|;
    JoinSplit(jobPath, '/');
    assert segs[..n] == segs;
    ParentUpto(segs, n);
    if n > 1 {
      forall k: nat | DecidesAt(home, segs, k) ensures Answers(home, segs, k, CreatorFor(home, jobPath)) {
        WalkDecides(home, segs, n - 1, k);
      }
      if forall k: nat :: !DecidesAt(home, segs, k) {
        AllGoOn(home, segs, n - 1);
        WalkEnds(home, segs, n - 1);
      }
    }
  }

  lemma {:induction false} AllGoOn(home: Home, segs: seq<string>, k: nat)
    requires k < |segs| && forall k: nat :: !DecidesAt(home, segs, k)
    requires forall j | k < j < |segs| :: GoesOn(home, segs, j)
    ensures forall j | 1 <= j < |segs| :: GoesOn(home, segs, j)
    decreases k
  {
    if k > 0 {
      assert !DecidesAt(home, segs, k);
      AllGoOn(home, segs, k - 1);
    }
  }

  // --- The walk down ---

  lemma {:induction false} UptoPrefix(segs: seq<string>, k: nat, n: nat)
    requires 1 <= k < n <= |segs|
    ensures Upto(segs, k) + "/" <= Upto(segs, n)
    decreases n
  {
    UptoNext(segs, n - 1);
    if k < n - 1 { UptoPrefix(segs, k, n - 1); }
  }

  lemma IndexIs(s: string, a: string, c: char)
    requires c !in a && a <= s && (|a| < |s| ==> s[|a|] == c)
    ensures IndexOf(s, c) == |a|
  {
  }

  lemma ChildBelow(folder: string, seg: string, child: string, jobPath: string)
    requires '/' !in seg && child == folder + "/" + seg && (child == jobPath || child + "/" <= jobPath)
    ensures folder + "/" <= jobPath && ChildOf(folder, jobPath) == child
  {
    assert folder + "/" <= child <= jobPath;
    var rest := jobPath[|folder| + 1..];
    assert seg <= rest;
    assert |seg| < |rest| ==> rest[|seg|] == jobPath[|child|];
    IndexIs(rest, seg, '/');
  }

  lemma UptoBelow(segs: seq<string>, k: nat)
    requires 1 <= k <= |segs|
    ensures Upto(segs, k) == Upto(segs, |segs|) || Upto(segs, k) + "/" <= Upto(segs, |segs|)
  {
    if k < |segs| { UptoPrefix(segs, k, |segs|); }
  }

  lemma ChildUpto(segs: seq<string>, k: nat, jobPath: string)
    requires Free(segs, '/') && 1 <= k < |segs| && jobPath == Upto(segs, |segs|)
    ensures Upto(segs, k) + "/" <= jobPath
    ensures ChildOf(Upto(segs, k), jobPath) == Upto(segs, k + 1)
  {
    UptoNext(segs, k);
    UptoBelow(segs, k + 1);
    ChildBelow(Upto(segs, k), segs[k], Upto(segs, k + 1), jobPath);
  }

  /** The levels from a folder of k segments down to the job, one segment more
      at each. */
  ghost function Levels(segs: seq<string>, k: nat): seq<string>
    requires k <= |segs|
  {
    seq(|segs| - k + 1, i requires 0 <= i <= |segs| - k => Upto(segs, k + i))
  }

  lemma LevelsStep(segs: seq<string>, k: nat)
    requires k < |segs|
    ensures Levels(segs, k) == [Upto(segs, k)] + Levels(segs, k + 1)
  {
  }

  lemma {:induction false} WayIsLevels(segs: seq<string>, k: nat, jobPath: string)
    requires Free(segs, '/') && 1 <= k < |segs| && jobPath == Upto(segs, |segs|)
    ensures Upto(segs, k) + "/" <= jobPath
    ensures Way(Upto(segs, k), jobPath) == Levels(segs, k)
    decreases |segs| - k
  {
    ChildUpto(segs, k, jobPath);
    LevelsStep(segs, k);
    if k + 1 == |segs| {
      assert Levels(segs, |segs|) == [jobPath];
    } else {
      WayIsLevels(segs, k + 1, jobPath);
      assert Upto(segs, k + 1) != jobPath;
    }
  }

  /** The way from a folder to a job below it adds one segment at a time. */
  lemma WayExactly(folder: string, jobPath: string)
    requires folder + "/" <= jobPath
    ensures var segs, k := Split(jobPath, '/'), |Split(folder, '/')|;
            k < |segs| && folder == Upto(segs, k) && Way(folder, jobPath) == Levels(segs, k)
  {
    var rest := jobPath[|folder| + 1..];
    assert jobPath == folder + "/" + rest;
    SplitConcat(folder, '/', rest);
    var segs, k := Split(jobPath, '/'), |Split(folder, '/')|;
    assert segs[..k] == Split(folder, '/');
    JoinSplit(folder, '/');
    JoinSplit(jobPath, '/');
    assert segs[..|segs|] == segs;
    WayIsLevels(segs, k, jobPath);
  }

  // --- Orphans and held jobs ---

  lemma {:induction false} RowIsFirst(rows: seq<Row>, jobPath: string)
    ensures RowOf(rows, jobPath).Some? ==>
              exists i :: 0 <= i < |rows| && rows[i] == RowOf(rows, jobPath).value && IsFirstRow(rows, jobPath, i)
    ensures RowOf(rows, jobPath).None? ==> forall i | 0 <= i < |rows| :: rows[i].jobPath != jobPath
  {
    if rows != [] {
      if rows[0].jobPath == jobPath {
        assert IsFirstRow(rows, jobPath, 0);
      } else {
        RowIsFirst(rows[1..], jobPath);
        if RowOf(rows, jobPath).Some? {
          var i :| && 0 <= i < |rows[1..]| && rows[1..][i] == RowOf(rows[1..], jobPath).value
                   && IsFirstRow(rows[1..], jobPath, i);
          assert IsFirstRow(rows, jobPath, i + 1);
        }
      }
    }
  }

  ghost predicate IsFirstRow(rows: seq<Row>, jobPath: string, i: nat) {
    i < |rows| && rows[i].jobPath == jobPath && forall j | 0 <= j < i :: rows[j].jobPath != jobPath
  }

  /** Level k of the way from the creating folder is where the scans stop
      leading to the job: an omission, or a failed scan whose folder is gone. */
  ghost predicate Released(rows: seq<Row>, way: seq<string>, gone: set<string>, k: nat) {
    OmittedAt(rows, way, k) || (FailedAt(rows, way, k) && way[k] in gone)
  }

  lemma WayNonEmpty(folder: string, jobPath: string, k: nat)
    requires folder != "" && folder + "/" <= jobPath && k < |Way(folder, jobPath)|
    ensures Way(folder, jobPath)[k] != ""
    decreases |jobPath| - |folder|
  {
    var child := ChildOf(folder, jobPath);
    if k > 0 && child != jobPath { WayNonEmpty(child, jobPath, k - 1); }
  }

  /** A deferred job is an orphan exactly when nothing can create it, or the
      scans below its creating folder omit it, or stop at a failed scan whose
      folder is gone. */
  lemma OrphanExactly(home: Home, inventory: Inventory, gone: set<string>, jobPath: string)
    ensures var c := CreatorFor(home, jobPath);
            IsOrphan(home, inventory, gone, jobPath) <==>
              || !c.canCreate
              || (&& c.folder != "" && inventory.Some?
                  && exists k: nat :: Released(inventory.value, Way(c.folder, jobPath), gone, k))
  {
    var c := CreatorFor(home, jobPath);
    if c.canCreate && c.folder != "" && inventory.Some? {
      var rows, way := inventory.value, Way(c.folder, jobPath);
      OmitsExactly(rows, c.folder, jobPath, way);
      if k: nat :| OmittedAt(rows, way, k) { assert Released(rows, way, gone, k); }
      if ScanFailure(rows, c.folder, jobPath).0 != "" {
        var k := ReportedIsFailed(rows, c.folder, jobPath);
        FailedIsReported(rows, c.folder, jobPath, k);
        assert way[k] in gone ==> Released(rows, way, gone, k);
      }
      if k: nat :| FailedAt(rows, way, k) && way[k] in gone {
        FailedIsReported(rows, c.folder, jobPath, k);
        WayNonEmpty(c.folder, jobPath, k);
      }
    }
  }

  /** A job is held back by a folder exactly when the scans below its creating
      folder lead to that folder's failed scan. */
  lemma HeldExactly(home: Home, inventory: Inventory, jobPath: string, folder: string)
    requires folder != ""
    ensures var c := CreatorFor(home, jobPath);
            HeldBy(home, inventory, jobPath) == folder <==>
              && c.folder != "" && inventory.Some?
              && exists k: nat :: && FailedAt(inventory.value, Way(c.folder, jobPath), k)
                                  && Way(c.folder, jobPath)[k] == folder
  {
    var c := CreatorFor(home, jobPath);
    if c.folder != "" && inventory.Some? {
      var rows, way := inventory.value, Way(c.folder, jobPath);
      if HeldBy(home, inventory, jobPath) == folder {
        var k := ReportedIsFailed(rows, c.folder, jobPath);
        FailedIsReported(rows, c.folder, jobPath, k);
      }
      if k: nat :| FailedAt(rows, way, k) && way[k] == folder { FailedIsReported(rows, c.folder, jobPath, k); }
    }
  }
}

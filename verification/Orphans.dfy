/** Which deferred jobs are orphans after an items apply: the walk up to the
    folder that can create a job, the walk down the branch inventory, and the
    split of the deferred list. */
module Orphans {
  import opened Options
  import opened Strings
  import opened RehydrationPath
  import opened Sorting
  import opened Sums
  import CanonicalSet

  // --- jobCreatorFor ---

  /** What the file system answers for one job directory. */
  datatype Dir =
    | Missing                 // no such directory
    | NotADirectory
    | NoConfig                // a directory without a config.xml
    | Unreadable              // any other error on config.xml or the directory
    | Item(root: string)      // the root element of its config.xml

  type Home = seq<string> -> Dir

  /** folder names the multibranch project or organization folder that
      decided; it is empty when none did. */
  datatype Creator = Creator(canCreate: bool, folder: string)

  predicate EndsWith(s: string, t: string) {
    |t| <= |s| && s[|s| - |t|..] == t
  }

  predicate IndexesJobs(root: string) {
    EndsWith(root, "MultiBranchProject") || EndsWith(root, "OrganizationFolder")
  }

  /** The part before the last slash, when there is one. */
  function Parent(path: string): (p: Option<string>)
    ensures p.Some? ==> |p.value| < |path| && p.value + "/" <= path
    ensures p.None? <==> '/' !in path
  {
    if path == "" then None
    else if path[|path| - 1] == '/' then Some(path[..|path| - 1])
    else
      assert path == path[..|path| - 1] + [path[|path| - 1]];
      Parent(path[..|path| - 1])
  }

  function WalkUp(home: Home, ancestor: string): (c: Creator)
    ensures c.folder != "" ==> c.canCreate && c.folder <= ancestor
    ensures c.folder != "" ==> c.folder == ancestor || c.folder + "/" <= ancestor
    decreases |ancestor|
  {
    if ancestor == "" then Creator(false, "")
    else
      match Parse(NumberPathOf(ancestor))
      case Err => Creator(true, "")
      case Ok(parsed) =>
        match home(parsed.jobDirParts)
        case Item(root) => if IndexesJobs(root) then Creator(true, ancestor) else Creator(false, "")
        case Unreadable => Creator(true, "")
        case NoConfig => Creator(true, "")
        case NotADirectory => Creator(false, "")
        case Missing =>
          var up := Parent(ancestor);
          if up.None? then Creator(false, "") else WalkUp(home, up.value)
  }

  function CreatorFor(home: Home, jobPath: string): (c: Creator)
    ensures c.folder != "" ==> c.canCreate && c.folder + "/" <= jobPath
  {
    var up := Parent(jobPath);
    if up.None? then Creator(false, "") else WalkUp(home, up.value)
  }

  /** The loop form of the walk. */
  method JobCreatorFor(home: Home, jobPath: string) returns (c: Creator)
    ensures c == CreatorFor(home, jobPath)
  {
    var up := Parent(jobPath);
    if up.None? { return Creator(false, ""); }
    var ancestor := up.value;
    while ancestor != ""
      invariant CreatorFor(home, jobPath) == WalkUp(home, ancestor)
      decreases |ancestor|
    {
      var parsed := Parse(NumberPathOf(ancestor));
      if parsed.Err? { return Creator(true, ""); }
      var dir := home(parsed.value.jobDirParts);
      match dir {
        case Item(root) =>
          if IndexesJobs(root) { return Creator(true, ancestor); }
          return Creator(false, "");
        case Unreadable => return Creator(true, "");
        case NoConfig => return Creator(true, "");
        case NotADirectory => return Creator(false, "");
        case Missing =>
      }
      var next := Parent(ancestor);
      if next.None? { return Creator(false, ""); }
      ancestor := next.value;
    }
    return Creator(false, "");
  }

  // --- The branch inventory ---

  datatype Row = Row(jobPath: string, indexResult: string, headsTruncated: bool, heads: seq<string>, sourceUrl: string)

  type Inventory = Option<seq<Row>>

  const SUCCEEDED := "SUCCESS"

  function RowOf(rows: seq<Row>, jobPath: string): Option<Row> {
    if rows == [] then None else if rows[0].jobPath == jobPath then Some(rows[0]) else RowOf(rows[1..], jobPath)
  }

  /** The next item on the way from folder down to jobPath. */
  function ChildOf(folder: string, jobPath: string): (child: string)
    requires folder + "/" <= jobPath
    ensures child <= jobPath && |folder| < |child|
    ensures child != jobPath ==> child + "/" <= jobPath
  {
    var start := |folder| + 1;
    var rest := jobPath[start..];
    var next := IndexOf(rest, '/');
    assert jobPath == folder + "/" + rest;
    assert next < |rest| ==> rest == rest[..next] + "/" + rest[next + 1..];
    jobPath[..start + next]
  }

  /** A completed, successful scan on the way lists no child towards the job. */
  predicate ScanOmits(rows: seq<Row>, folder: string, jobPath: string)
    decreases |jobPath| - |folder|
  {
    var row := RowOf(rows, folder);
    && row.Some? && row.value.indexResult == SUCCEEDED && !row.value.headsTruncated
    && folder + "/" <= jobPath
    && var child := ChildOf(folder, jobPath);
       (child !in row.value.heads || (child != jobPath && ScanOmits(rows, child, jobPath)))
  }

  /** The folder on the way whose last completed scan did not succeed. */
  function ScanFailure(rows: seq<Row>, folder: string, jobPath: string): (string, string)
    decreases |jobPath| - |folder|
  {
    var row := RowOf(rows, folder);
    if row.None? || row.value.indexResult == "" || row.value.headsTruncated then ("", "")
    else if row.value.indexResult != SUCCEEDED then (folder, row.value.indexResult)
    else if !(folder + "/" <= jobPath) then ("", "")
    else
      var child := ChildOf(folder, jobPath);
      if child !in row.value.heads || child == jobPath then ("", "") else ScanFailure(rows, child, jobPath)
  }

  method ScanOmitsJob(inventory: Inventory, start: string, jobPath: string) returns (omits: bool)
    ensures omits <==> inventory.Some? && ScanOmits(inventory.value, start, jobPath)
  {
    if inventory.None? { return false; }
    var folder := start;
    while true
      invariant ScanOmits(inventory.value, start, jobPath) == ScanOmits(inventory.value, folder, jobPath)
      decreases |jobPath| - |folder|
    {
      var row := RowOf(inventory.value, folder);
      if row.None? || row.value.indexResult != SUCCEEDED || row.value.headsTruncated { return false; }
      if !(folder + "/" <= jobPath) { return false; }
      var child := ChildOf(folder, jobPath);
      if child !in row.value.heads { return true; }
      if child == jobPath { return false; }
      folder := child;
    }
  }

  method BranchScanFailure(inventory: Inventory, start: string, jobPath: string)
    returns (failed: string, result: string)
    ensures (failed, result) == if inventory.Some? then ScanFailure(inventory.value, start, jobPath) else ("", "")
  {
    if inventory.None? { return "", ""; }
    var folder := start;
    while true
      invariant ScanFailure(inventory.value, start, jobPath) == ScanFailure(inventory.value, folder, jobPath)
      decreases |jobPath| - |folder|
    {
      var row := RowOf(inventory.value, folder);
      if row.None? || row.value.indexResult == "" || row.value.headsTruncated { return "", ""; }
      if row.value.indexResult != SUCCEEDED { return folder, row.value.indexResult; }
      if !(folder + "/" <= jobPath) { return "", ""; }
      var child := ChildOf(folder, jobPath);
      if child !in row.value.heads || child == jobPath { return "", ""; }
      folder := child;
    }
  }

  /** The two verdicts never fire for one job. */
  lemma {:induction false} VerdictsExclude(rows: seq<Row>, folder: string, jobPath: string)
    requires ScanOmits(rows, folder, jobPath)
    ensures ScanFailure(rows, folder, jobPath) == ("", "")
    decreases |jobPath| - |folder|
  {
    var child := ChildOf(folder, jobPath);
    if child in RowOf(rows, folder).value.heads {
      VerdictsExclude(rows, child, jobPath);
    }
  }

  /** A reported failure is a folder above the job with a finished, failed,
      untruncated scan. */
  lemma {:induction false} FailureIsAbove(rows: seq<Row>, folder: string, jobPath: string)
    requires folder + "/" <= jobPath && ScanFailure(rows, folder, jobPath).0 != ""
    ensures var (failed, result) := ScanFailure(rows, folder, jobPath);
            && folder <= failed && failed + "/" <= jobPath
            && RowOf(rows, failed).Some? && RowOf(rows, failed).value.indexResult == result
            && result != "" && result != SUCCEEDED && !RowOf(rows, failed).value.headsTruncated
    decreases |jobPath| - |folder|
  {
    var row := RowOf(rows, folder);
    if row.value.indexResult == SUCCEEDED {
      var child := ChildOf(folder, jobPath);
      FailureIsAbove(rows, child, jobPath);
      assert folder <= child;
    }
  }

  // --- What the walk decides, level by level ---

  /** The items from folder down to the job, one level at a time. */
  function Way(folder: string, jobPath: string): (way: seq<string>)
    requires folder + "/" <= jobPath
    ensures |way| >= 2 && way[0] == folder && way[|way| - 1] == jobPath
    decreases |jobPath| - |folder|
  {
    var child := ChildOf(folder, jobPath);
    [folder] + if child == jobPath then [jobPath] else Way(child, jobPath)
  }

  /** The scan of way[i] finished with success and lists the next level. */
  ghost predicate Listed(rows: seq<Row>, way: seq<string>, i: nat)
    requires i + 1 < |way|
  {
    var row := RowOf(rows, way[i]);
    Finished(row) && row.value.indexResult == "SUCCESS" && way[i + 1] in row.value.heads
  }

  ghost predicate Finished(row: Option<Row>) {
    row.Some? && row.value.indexResult != "" && !row.value.headsTruncated
  }

  ghost predicate ListedTo(rows: seq<Row>, way: seq<string>, k: nat)
    requires k < |way|
  {
    forall i | 0 <= i < k :: Listed(rows, way, i)
  }

  ghost predicate OmittedAt(rows: seq<Row>, way: seq<string>, k: nat) {
    && k + 1 < |way| && ListedTo(rows, way, k)
    && var row := RowOf(rows, way[k]);
       Finished(row) && row.value.indexResult == "SUCCESS" && way[k + 1] !in row.value.heads
  }

  ghost predicate FailedAt(rows: seq<Row>, way: seq<string>, k: nat) {
    && k + 1 < |way| && ListedTo(rows, way, k)
    && var row := RowOf(rows, way[k]);
       Finished(row) && row.value.indexResult != "SUCCESS"
  }

  lemma ShiftLevel(rows: seq<Row>, head: string, rest: seq<string>, k: nat)
    requires |rest| >= 2
    ensures var way := [head] + rest;
            && (Listed(rows, way, 0) && OmittedAt(rows, rest, k) ==> OmittedAt(rows, way, k + 1))
            && (OmittedAt(rows, way, k + 1) ==> OmittedAt(rows, rest, k))
            && (Listed(rows, way, 0) && FailedAt(rows, rest, k) ==> FailedAt(rows, way, k + 1))
            && (FailedAt(rows, way, k + 1) ==> FailedAt(rows, rest, k))
  {
    var way := [head] + rest;
    assert forall i | 0 <= i < |rest| :: way[i + 1] == rest[i];
    assert forall i: nat | i + 1 < |rest| :: Listed(rows, way, i + 1) <==> Listed(rows, rest, i);
    if k < |rest| {
      forall i: nat | 0 < i < k + 1 ensures Listed(rows, way, i) <==> Listed(rows, rest, i - 1) {
        assert Listed(rows, way, (i - 1) + 1) <==> Listed(rows, rest, i - 1);
      }
    }
  }

  /** A job is omitted exactly when some level on its way was scanned with
      success, every level above lists the next one, and this one does not. */
  lemma {:induction false} OmitsExactly(rows: seq<Row>, folder: string, jobPath: string, way: seq<string>)
    requires folder + "/" <= jobPath && way == Way(folder, jobPath)
    ensures ScanOmits(rows, folder, jobPath) <==> exists k: nat :: OmittedAt(rows, way, k)
    decreases |jobPath| - |folder|
  {
    var child := ChildOf(folder, jobPath);
    if child == jobPath {
      assert way == [folder, jobPath];
      if ScanOmits(rows, folder, jobPath) { assert OmittedAt(rows, way, 0); }
      if k: nat :| OmittedAt(rows, way, k) {
        assert k == 0 && OmittedAt(rows, way, 0);
        assert child !in RowOf(rows, folder).value.heads;
        assert ScanOmits(rows, folder, jobPath);
      }
    } else {
      var rest := Way(child, jobPath);
      assert way[1] == child;
      OmitsExactly(rows, child, jobPath, rest);
      forall k: nat ensures OmittedAt(rows, way, k + 1) ==> OmittedAt(rows, rest, k) && Listed(rows, way, 0)
        ensures Listed(rows, way, 0) && OmittedAt(rows, rest, k) ==> OmittedAt(rows, way, k + 1)
      {
        ShiftLevel(rows, folder, rest, k);
      }
      if ScanOmits(rows, folder, jobPath) {
        if child !in RowOf(rows, folder).value.heads {
          assert OmittedAt(rows, way, 0);
        } else {
          var k: nat :| OmittedAt(rows, rest, k);
          assert OmittedAt(rows, way, k + 1);
        }
      }
      if k: nat :| OmittedAt(rows, way, k) {
        if k > 0 {
          var j: nat := k - 1;
          assert OmittedAt(rows, way, j + 1);
          assert OmittedAt(rows, rest, j) && Listed(rows, way, 0);
          assert ScanOmits(rows, child, jobPath);
        }
      }
    }
  }

  lemma {:induction false} FailedIsReported(rows: seq<Row>, folder: string, jobPath: string, k: nat)
    requires folder + "/" <= jobPath && FailedAt(rows, Way(folder, jobPath), k)
    ensures var failed := Way(folder, jobPath)[k];
            ScanFailure(rows, folder, jobPath) == (failed, RowOf(rows, failed).value.indexResult)
    decreases |jobPath| - |folder|
  {
    var way, child := Way(folder, jobPath), ChildOf(folder, jobPath);
    if k > 0 {
      assert Listed(rows, way, 0);
      assert child != jobPath;
      assert way[1] == child;
      ShiftLevel(rows, folder, Way(child, jobPath), k - 1);
      FailedIsReported(rows, child, jobPath, k - 1);
    }
  }

  lemma {:induction false} ReportedIsFailed(rows: seq<Row>, folder: string, jobPath: string) returns (k: nat)
    requires folder + "/" <= jobPath && ScanFailure(rows, folder, jobPath) != ("", "")
    ensures FailedAt(rows, Way(folder, jobPath), k)
    decreases |jobPath| - |folder|
  {
    var way, child := Way(folder, jobPath), ChildOf(folder, jobPath);
    if RowOf(rows, folder).value.indexResult != SUCCEEDED {
      k := 0;
    } else {
      assert way[1] == child && Listed(rows, way, 0);
      var j := ReportedIsFailed(rows, child, jobPath);
      ShiftLevel(rows, folder, Way(child, jobPath), j);
      k := j + 1;
    }
  }

  /** A folder and a result are reported exactly when the folder is the first
      unsuccessful level that the levels above lead to, and the result is that
      of its scan. */
  lemma FailsExactly(rows: seq<Row>, folder: string, jobPath: string, failed: string, result: string)
    requires folder + "/" <= jobPath
    ensures ScanFailure(rows, folder, jobPath) == (failed, result) && (failed, result) != ("", "") <==>
              exists k: nat :: && FailedAt(rows, Way(folder, jobPath), k) && failed == Way(folder, jobPath)[k]
                               && result == RowOf(rows, failed).value.indexResult
  {
    if ScanFailure(rows, folder, jobPath) != ("", "") {
      var k := ReportedIsFailed(rows, folder, jobPath);
      FailedIsReported(rows, folder, jobPath, k);
    }
    if k: nat :| FailedAt(rows, Way(folder, jobPath), k) && failed == Way(folder, jobPath)[k]
                 && result == RowOf(rows, failed).value.indexResult {
      FailedIsReported(rows, folder, jobPath, k);
    }
  }

  // --- The split of the deferred list ---

  function FailureOf(inventory: Inventory, folder: string, jobPath: string): (string, string) {
    if inventory.Some? then ScanFailure(inventory.value, folder, jobPath) else ("", "")
  }

  predicate NeedsInventory(home: Home, jobPath: string) {
    CreatorFor(home, jobPath).canCreate && CreatorFor(home, jobPath).folder != ""
  }

  predicate IsOrphan(home: Home, inventory: Inventory, gone: set<string>, jobPath: string) {
    var c := CreatorFor(home, jobPath);
    || !c.canCreate
    || (c.folder != "" &&
        (|| (inventory.Some? && ScanOmits(inventory.value, c.folder, jobPath))
         || (FailureOf(inventory, c.folder, jobPath).0 != "" && FailureOf(inventory, c.folder, jobPath).0 in gone)))
  }

  function OrphanIn(home: Home, inventory: Inventory, gone: set<string>): string -> bool {
    jobPath => IsOrphan(home, inventory, gone, jobPath)
  }

  /** The jobs of the list with the given verdict, in list order. */
  function Filter(jobs: seq<string>, verdict: string -> bool, want: bool): seq<string> {
    if jobs == [] then []
    else
      var last := |jobs| - 1;
      Filter(jobs[..last], verdict, want) + if verdict(jobs[last]) == want then [jobs[last]] else []
  }

  lemma FilterSnoc(jobs: seq<string>, job: string, verdict: string -> bool, want: bool)
    ensures Filter(jobs + [job], verdict, want)
         == Filter(jobs, verdict, want) + if verdict(job) == want then [job] else []
  {
    assert (jobs + [job])[..|jobs|] == jobs;
  }

  function NeedsIn(home: Home): string -> bool {
    jobPath => NeedsInventory(home, jobPath)
  }

  /** One job's verdict. branches holds the inventory once it is loaded; load is
      what the loader returns, and it runs for the first job that needs it. */
  method Verdict(home: Home, gone: set<string>, jobPath: string, load: Inventory, branches: Inventory, loaded: bool)
    returns (orphan: bool, branchesNow: Inventory, loadedNow: bool)
    requires loaded ==> branches == load
    ensures orphan == OrphanIn(home, load, gone)(jobPath)
    ensures loadedNow <==> loaded || NeedsIn(home)(jobPath)
    ensures loadedNow ==> branchesNow == load
  {
    branchesNow, loadedNow := branches, loaded;
    var c := JobCreatorFor(home, jobPath);
    if !c.canCreate { return true, branchesNow, loadedNow; }
    if c.folder == "" { return false, branchesNow, loadedNow; }
    if !loadedNow { branchesNow, loadedNow := load, true; }
    var omits := ScanOmitsJob(branchesNow, c.folder, jobPath);
    if omits { return true, branchesNow, loadedNow; }
    var failed, _ := BranchScanFailure(branchesNow, c.folder, jobPath);
    orphan := failed != "" && failed in gone;
  }

  /** Splits the deferred list in order; the loader runs at most once, and only
      when some job needs the inventory. */
  method OrphanDeferredJobs(home: Home, deferred: seq<string>, gone: set<string>, load: Inventory)
    returns (keep: seq<string>, orphans: seq<string>, loaded: bool)
    ensures keep == Filter(deferred, OrphanIn(home, load, gone), false)
    ensures orphans == Filter(deferred, OrphanIn(home, load, gone), true)
    ensures loaded <==> exists i :: 0 <= i < |deferred| && NeedsIn(home)(deferred[i])
  {
    ghost var verdict, needs := OrphanIn(home, load, gone), NeedsIn(home);
    var branches: Inventory := None;
    keep, orphans, loaded := [], [], false;
    for i := 0 to |deferred|
      invariant SplitBy(keep, orphans, loaded, deferred[..i], verdict, needs)
      invariant loaded ==> branches == load
    {
      var orphan, branchesNow, loadedNow := Verdict(home, gone, deferred[i], load, branches, loaded);
      SplitStep(keep, orphans, loaded, deferred, i, verdict, needs);
      if orphan {
        orphans := orphans + [deferred[i]];
      } else {
        keep := keep + [deferred[i]];
      }
      branches, loaded := branchesNow, loadedNow;
    }
    assert deferred[..|deferred|] == deferred;
  }

  ghost predicate SplitBy(keep: seq<string>, orphans: seq<string>, loaded: bool, jobs: seq<string>,
                          verdict: string -> bool, needs: string -> bool) {
    && keep == Filter(jobs, verdict, false) && orphans == Filter(jobs, verdict, true)
    && (loaded <==> exists j :: 0 <= j < |jobs| && needs(jobs[j]))
  }

  lemma SplitStep(keep: seq<string>, orphans: seq<string>, loaded: bool, jobs: seq<string>, i: nat,
                  verdict: string -> bool, needs: string -> bool)
    requires i < |jobs| && SplitBy(keep, orphans, loaded, jobs[..i], verdict, needs)
    ensures SplitBy(if verdict(jobs[i]) then keep else keep + [jobs[i]],
                    if verdict(jobs[i]) then orphans + [jobs[i]] else orphans,
                    loaded || needs(jobs[i]), jobs[..i + 1], verdict, needs)
  {
    assert jobs[..i + 1] == jobs[..i] + [jobs[i]];
    FilterSnoc(jobs[..i], jobs[i], verdict, true);
    FilterSnoc(jobs[..i], jobs[i], verdict, false);
    assert needs(jobs[i]) ==> needs(jobs[..i + 1][i]);
    assert forall j | 0 <= j < i :: jobs[..i + 1][j] == jobs[..i][j];
  }

  /** Every deferred job is in exactly one of the two lists, as often as it was
      deferred. */
  lemma {:induction false} FilterPartitions(jobs: seq<string>, verdict: string -> bool)
    ensures multiset(Filter(jobs, verdict, false)) + multiset(Filter(jobs, verdict, true)) == multiset(jobs)
    ensures forall j | j in Filter(jobs, verdict, true) :: verdict(j)
    ensures forall j | j in Filter(jobs, verdict, false) :: !verdict(j)
    decreases |jobs|
  {
    if jobs != [] {
      var last := |jobs| - 1;
      FilterPartitions(jobs[..last], verdict);
      assert jobs == jobs[..last] + [jobs[last]];
    }
  }

  // --- The gone set ---

  lemma GoneOnlyReleases(home: Home, inventory: Inventory, gone: set<string>, more: set<string>, jobPath: string)
    requires gone <= more && IsOrphan(home, inventory, gone, jobPath)
    ensures IsOrphan(home, inventory, more, jobPath)
  {
  }

  /** When one verdict implies the other, the second list of orphans has as
      many more jobs as the first one keeps and the second one does not. */
  lemma {:induction false} FilterGrows(jobs: seq<string>, f: string -> bool, g: string -> bool)
    requires forall j :: f(j) ==> g(j)
    ensures Filter(jobs, g, false) == Filter(Filter(jobs, f, false), g, false)
    ensures |Filter(jobs, g, true)| == |Filter(jobs, f, true)| + |Filter(Filter(jobs, f, false), g, true)|
    decreases |jobs|
  {
    if jobs != [] {
      var last := |jobs| - 1;
      var kept := Filter(jobs[..last], f, false);
      FilterGrows(jobs[..last], f, g);
      FilterSnoc(kept, jobs[last], g, true);
      FilterSnoc(kept, jobs[last], g, false);
      assert kept + [] == kept;
    }
  }

  /** Enlarging the gone set only moves jobs from keep to orphans, in order, so
      the difference of the orphan counts is exactly the jobs it released. */
  lemma ReleasedExactly(home: Home, inventory: Inventory, gone: set<string>, jobs: seq<string>)
    ensures var base, full := OrphanIn(home, inventory, {}), OrphanIn(home, inventory, gone);
            && Filter(jobs, full, false) == Filter(Filter(jobs, base, false), full, false)
            && |Filter(jobs, full, true)| - |Filter(jobs, base, true)|
               == |Filter(Filter(jobs, base, false), full, true)|
  {
    forall j | IsOrphan(home, inventory, {}, j) ensures IsOrphan(home, inventory, gone, j) {
      GoneOnlyReleases(home, inventory, {}, gone, j);
    }
    FilterGrows(jobs, OrphanIn(home, inventory, {}), OrphanIn(home, inventory, gone));
  }

  // --- failedBranchScans ---

  datatype FailedScan = FailedScan(folder: string, indexResult: string, repoUrl: string, deferredJobs: nat)

  /** The failed scan that holds a kept job back; empty when there is none. */
  function HeldBy(home: Home, inventory: Inventory, jobPath: string): string {
    var c := CreatorFor(home, jobPath);
    if c.folder == "" then "" else FailureOf(inventory, c.folder, jobPath).0
  }

  function HoldIn(home: Home, inventory: Inventory): string -> string {
    jobPath => HeldBy(home, inventory, jobPath)
  }

  /** How many kept jobs the failed scan of folder holds back. */
  ghost function CountHeld(keep: seq<string>, hold: string -> string, folder: string): nat {
    if keep == [] then 0
    else CountHeld(keep[..|keep| - 1], hold, folder) + if hold(keep[|keep| - 1]) == folder then 1 else 0
  }

  ghost function CountAnyHeld(keep: seq<string>, hold: string -> string): nat {
    if keep == [] then 0
    else CountAnyHeld(keep[..|keep| - 1], hold) + if hold(keep[|keep| - 1]) != "" then 1 else 0
  }

  /** The failed scan that holds one kept job back, by the two walks. */
  method HoldingScan(home: Home, inventory: Inventory, jobPath: string) returns (folder: string, result: string)
    ensures folder == HoldIn(home, inventory)(jobPath)
    ensures folder != "" ==> HasScan(inventory, folder, result)
  {
    var c := JobCreatorFor(home, jobPath);
    if c.folder == "" { return "", ""; }
    folder, result := BranchScanFailure(inventory, c.folder, jobPath);
    if folder != "" { FailureIsAbove(inventory.value, c.folder, jobPath); }
  }

  /** The inventory's row of the folder has this index result. */
  predicate HasScan(inventory: Inventory, folder: string, result: string) {
    && inventory.Some? && RowOf(inventory.value, folder).Some?
    && RowOf(inventory.value, folder).value.indexResult == result
  }

  predicate RightScan(inventory: Inventory, scan: FailedScan, folder: string) {
    && scan.folder == folder && HasScan(inventory, folder, scan.indexResult)
    && scan.repoUrl == RowOf(inventory.value, folder).value.sourceUrl
  }

  /** The report row of a folder's first kept job. */
  method NewScan(inventory: Inventory, folder: string, result: string) returns (scan: FailedScan)
    requires HasScan(inventory, folder, result)
    ensures RightScan(inventory, scan, folder) && scan.deferredJobs == 0
  {
    return FailedScan(folder, result, RowOf(inventory.value, folder).value.sourceUrl, 0);
  }

  function Counted(scan: FailedScan): int { scan.deferredJobs }

  ghost predicate GroupedBy(byFolder: map<string, FailedScan>, keep: seq<string>, hold: string -> string,
                            inventory: Inventory) {
    && (forall f :: f in byFolder <==> f != "" && CountHeld(keep, hold, f) > 0)
    && (forall f | f in byFolder ::
          byFolder[f].deferredJobs == CountHeld(keep, hold, f) && RightScan(inventory, byFolder[f], f))
    && SumBy(byFolder, Counted) == CountAnyHeld(keep, hold)
  }

  lemma GroupSkips(byFolder: map<string, FailedScan>, keep: seq<string>, job: string, hold: string -> string,
                   inventory: Inventory)
    requires GroupedBy(byFolder, keep, hold, inventory) && hold(job) == ""
    ensures GroupedBy(byFolder, keep + [job], hold, inventory)
  {
    assert (keep + [job])[..|keep|] == keep;
  }

  lemma GroupCounts(byFolder: map<string, FailedScan>, keep: seq<string>, job: string, hold: string -> string,
                    inventory: Inventory, scan: FailedScan)
    requires GroupedBy(byFolder, keep, hold, inventory) && hold(job) != "" && RightScan(inventory, scan, hold(job))
    requires scan.deferredJobs == (if hold(job) in byFolder then byFolder[hold(job)].deferredJobs else 0) + 1
    ensures GroupedBy(byFolder[hold(job) := scan], keep + [job], hold, inventory)
  {
    assert (keep + [job])[..|keep|] == keep;
    SumPut(byFolder, Counted, hold(job), scan);
  }

  /** Groups the kept jobs by the failed scan that holds them: each folder's
      count is its jobs, and the counts add up to the jobs held back. */
  method GroupHeld(home: Home, keep: seq<string>, inventory: Inventory) returns (byFolder: map<string, FailedScan>)
    ensures GroupedBy(byFolder, keep, HoldIn(home, inventory), inventory)
  {
    ghost var hold := HoldIn(home, inventory);
    byFolder := map[];
    for i := 0 to |keep|
      invariant GroupedBy(byFolder, keep[..i], hold, inventory)
    {
      assert keep[..i + 1] == keep[..i] + [keep[i]];
      var folder, result := HoldingScan(home, inventory, keep[i]);
      if folder == "" {
        GroupSkips(byFolder, keep[..i], keep[i], hold, inventory);
        continue;
      }
      var scan;
      if folder in byFolder { scan := byFolder[folder]; } else { scan := NewScan(inventory, folder, result); }
      scan := scan.(deferredJobs := scan.deferredJobs + 1);
      GroupCounts(byFolder, keep[..i], keep[i], hold, inventory, scan);
      byFolder := byFolder[folder := scan];
    }
    assert keep[..|keep|] == keep;
  }

  function Codes(s: string): CanonicalSet.Bytes {
    seq(|s|, i requires 0 <= i < |s| => s[i] as int)
  }

  predicate FolderLeq(x: string, y: string) {
    CanonicalSet.Compare(Codes(x), Codes(y)) <= 0
  }

  lemma FolderOrder()
    ensures TotalPreorder(FolderLeq)
  {
    forall x: string, y: string ensures FolderLeq(x, y) || FolderLeq(y, x) {
      CanonicalSet.CompareFlips(Codes(x), Codes(y));
    }
    forall x: string, y: string, z: string | FolderLeq(x, y) && FolderLeq(y, z) ensures FolderLeq(x, z) {
      CanonicalSet.CompareTransitive(Codes(x), Codes(y), Codes(z));
    }
  }

  /** The failed scans of the kept jobs: one a folder that holds jobs back,
      sorted by folder, with the result and the repository of its scan, counting
      exactly those jobs. */
  ghost predicate IsReport(out: seq<FailedScan>, keep: seq<string>, hold: string -> string, inventory: Inventory) {
    && (forall i, j | 0 <= i < j < |out| :: FolderLeq(out[i].folder, out[j].folder) && out[i].folder != out[j].folder)
    && (forall i | 0 <= i < |out| ::
          out[i].folder != "" && out[i].deferredJobs == CountHeld(keep, hold, out[i].folder) > 0)
    && (forall i | 0 <= i < |out| :: RightScan(inventory, out[i], out[i].folder))
    && (forall f | f != "" && CountHeld(keep, hold, f) > 0 :: exists i :: 0 <= i < |out| && out[i].folder == f)
    && Total(out) == CountAnyHeld(keep, hold)
  }

  ghost function Total(out: seq<FailedScan>): nat {
    if out == [] then 0 else Total(out[..|out| - 1]) + out[|out| - 1].deferredJobs
  }

  method FailedBranchScans(home: Home, keep: seq<string>, inventory: Inventory) returns (out: seq<FailedScan>)
    ensures IsReport(out, keep, HoldIn(home, inventory), inventory)
  {
    var byFolder := GroupHeld(home, keep, inventory);
    var folders := SortedKeys(byFolder);
    out := [];
    for i := 0 to |folders|
      invariant |out| == i && forall j | 0 <= j < i :: folders[j] in byFolder && out[j] == byFolder[folders[j]]
    {
      assert folders[i] in folders;
      out := out + [byFolder[folders[i]]];
    }
    RowsReport(out, folders, byFolder, keep, HoldIn(home, inventory), inventory);
  }

  ghost predicate RowsOf(out: seq<FailedScan>, folders: seq<string>, byFolder: map<string, FailedScan>) {
    && |out| == |folders| && Distinct(folders) && (forall f :: f in folders <==> f in byFolder)
    && forall j | 0 <= j < |out| :: folders[j] in byFolder && out[j] == byFolder[folders[j]]
  }

  lemma RowsReport(out: seq<FailedScan>, folders: seq<string>, byFolder: map<string, FailedScan>, keep: seq<string>,
                   hold: string -> string, inventory: Inventory)
    requires RowsOf(out, folders, byFolder) && GroupedBy(byFolder, keep, hold, inventory)
    requires forall i, j | 0 <= i < j < |folders| :: FolderLeq(folders[i], folders[j])
    ensures IsReport(out, keep, hold, inventory)
  {
    TotalIsSum(out, folders, byFolder);
    forall i | 0 <= i < |out|
      ensures && out[i].folder == folders[i] != "" && RightScan(inventory, out[i], out[i].folder)
              && out[i].deferredJobs == CountHeld(keep, hold, out[i].folder) > 0
    {
      assert folders[i] in byFolder;
    }
    forall f | f != "" && CountHeld(keep, hold, f) > 0 ensures exists i :: 0 <= i < |out| && out[i].folder == f {
      assert f in folders;
      var i :| 0 <= i < |folders| && folders[i] == f;
      assert out[i].folder == f;
    }
  }

  lemma {:induction false} TotalIsSum(out: seq<FailedScan>, folders: seq<string>, byFolder: map<string, FailedScan>)
    requires RowsOf(out, folders, byFolder)
    ensures Total(out) == SumBy(byFolder, Counted)
    decreases |folders|
  {
    if folders == [] {
      assert byFolder == map[];
    } else {
      var n := |folders| - 1;
      var last, rest := folders[n], folders[..n];
      assert folders == rest + [last];
      SumSplit(byFolder, Counted, last);
      assert forall f :: f in rest <==> f in byFolder - {last};
      TotalIsSum(out[..n], rest, byFolder - {last});
    }
  }

  method SortedKeys(byFolder: map<string, FailedScan>) returns (folders: seq<string>)
    ensures Distinct(folders) && forall f :: f in folders <==> f in byFolder
    ensures forall i, j | 0 <= i < j < |folders| :: FolderLeq(folders[i], folders[j])
  {
    var keys, todo := [], byFolder.Keys;
    while todo != {}
      invariant Distinct(keys) && todo <= byFolder.Keys
      invariant forall f :: f in keys <==> f in byFolder && f !in todo
    {
      var f :| f in todo;
      keys, todo := keys + [f], todo - {f};
    }
    folders := Sort(keys, FolderLeq);
    FolderOrder();
    SortCorrect(keys, FolderLeq);
    DistinctPermutes(keys, folders);
  }
}

/** What no bundle can do to the Jenkins home, good or bad, applied to the end
    or stopped by a failure: change a build that was there, or lower a number. */
module RehydrationSafety {
  import opened Options
  import opened Strings
  import opened RehydrationApply
  import opened RehydrationEffects
  import opened RehydrationUnits

  // --- The entries of a bundle ---

  lemma {:induction false} EntriesAre(files: seq<BundleFile>)
    ensures Entries(files).Some? <==> forall i | 0 <= i < |files| :: EntryOf(files[i]).Some?
    ensures Entries(files).Some? ==>
              && |Entries(files).value| == |files|
              && forall i | 0 <= i < |files| :: EntryOf(files[i]) == Some(Entries(files).value[i])
    decreases |files|
  {
    if files != [] {
      var last := |files| - 1;
      EntriesAre(files[..last]);
      assert files == files[..last] + [files[last]];
    }
  }

  lemma EntryNamed(f: BundleFile)
    requires EntryOf(f).Some?
    ensures Named(EntryOf(f).value)
  {
  }

  lemma {:induction false} EntriesNamed(files: seq<BundleFile>)
    requires Entries(files).Some?
    ensures AllNamed(Entries(files).value)
    decreases |files|
  {
    if files != [] {
      EntryNamed(files[|files| - 1]);
      EntriesNamed(files[..|files| - 1]);
    }
  }

  // --- History ---

  /** The directories Jenkins keeps jobs in: jobs/<name> or branches/<name>,
      nested. */
  ghost predicate IsJobDir(d: Path) {
    |d| % 2 == 0 && forall i | 0 <= i < |d| && i % 2 == 0 :: d[i] == "jobs" || d[i] == "branches"
  }

  /** The resolver answers with job directories only. */
  ghost predicate ResolvesToJobs(env: Env) {
    forall job :: IsJobDir(env.resolve(job))
  }

  ghost predicate Under(d: Path, p: Path) {
    |d| < |p| && p[..|d|] == d
  }

  /** A build directory of any job, in the bundle or not. */
  function BuildAt(job: Path, n: nat): Path {
    job + ["builds", Decimal(n)]
  }

  /** Nothing below d was added, changed or removed. */
  ghost predicate Untouched(a: Fs, b: Fs, d: Path) {
    && (forall p | Under(d, p) :: p in a.files <==> p in b.files)
    && (forall p | Under(d, p) && p in a.files :: p in b.files && a.files[p] == b.files[p])
    && (forall p | Under(d, p) :: p in a.dirs <==> p in b.dirs)
    && (d in a.dirs ==> d in b.dirs)
  }

  /** A bundle file lands inside a build directory only as a file of that build. */
  lemma LandsInOwnBuild(env: Env, e: Entry, job: Path, n: nat)
    requires IsJobDir(job) && IsJobDir(JobDir(env, e.slot)) && Named(e) && Under(BuildAt(job, n), Target(env, e))
    ensures e.slot.BuildOf? && BuildDir(env, e.slot) == BuildAt(job, n)
  {
    var t, d, dir := Target(env, e), BuildAt(job, n), JobDir(env, e.slot);
    assert d[|job|] == "builds" && t[|job|] == d[|job|];
    assert forall i | 0 <= i < |dir| :: t[i] == dir[i];
    assert |dir| <= |job|;
    assert |t| <= |dir| + 3 && |job| + 2 < |t|;
    assert |job| == |dir|;
    assert e.slot.BuildOf? && t[..|d|] == BuildDir(env, e.slot);
  }

  lemma ParentUnder(d: Path, q: Path, p: Path)
    requires Under(d, q) && q in Parents(p)
    ensures Under(d, p)
  {
    var i :| 0 <= i < |p| && q == p[..i];
    assert p[..|d|] == q[..|d|];
  }

  lemma TempOutside(d: Path, p: Path)
    requires p != [] && !Under(d, p)
    ensures !Under(d, Temp(p))
  {
    var t := Temp(p);
    assert |t| == |p| && t[..|p| - 1] == p[..|p| - 1];
    if |d| < |p| { assert t[..|d|] == p[..|d|]; }
  }

  lemma PutOutside(fs: Fs, d: Path, p: Path, data: string)
    requires p != [] && !Under(d, p)
    ensures Untouched(fs, Put(fs, p, data), d)
  {
    forall q | q in Parents(p) ensures Under(d, q) ==> Under(d, p) {
      if Under(d, q) { ParentUnder(d, q, p); }
    }
    TempOutside(d, p);
  }

  lemma {:induction false} PutAllOutside(fs: Fs, env: Env, es: seq<Entry>, d: Path)
    requires forall e | e in es :: !Under(d, Target(env, e))
    ensures Untouched(fs, PutAll(fs, env, es).0, d)
    decreases |es|
  {
    if es != [] && es[0].file.inflates {
      var next := Put(fs, Target(env, es[0]), Data(env, es[0]));
      PutOutside(fs, d, Target(env, es[0]), Data(env, es[0]));
      PutAllOutside(next, env, es[1..], d);
    }
  }

  lemma UnitKeepsHistory(fs: Fs, env: Env, u: Unit, job: Path, n: nat)
    requires ResolvesToJobs(env) && IsJobDir(job) && Shaped(u) && BuildAt(job, n) in fs.dirs
    ensures Untouched(fs, ApplyUnit(fs, env, u).0, BuildAt(job, n))
  {
    var d := BuildAt(job, n);
    if u.slot.NumberOf? || BuildDir(env, u.slot) !in fs.dirs {
      forall e | e in u.entries ensures !Under(d, Target(env, e)) {
        if Under(d, Target(env, e)) { LandsInOwnBuild(env, e, job, n); }
      }
      PutAllOutside(fs, env, u.entries, d);
      if u.slot.NumberOf? && u.entries != [] {
        PutOutside(fs, d, Target(env, u.entries[0]), Data(env, u.entries[0]));
      }
    }
  }

  lemma {:induction false} UnitsKeepHistory(fs: Fs, env: Env, us: seq<Unit>, job: Path, n: nat)
    requires ResolvesToJobs(env) && IsJobDir(job) && BuildAt(job, n) in fs.dirs
    requires forall u | u in us :: Shaped(u)
    ensures Untouched(fs, ApplyUnits(fs, env, us).fs, BuildAt(job, n))
    decreases |us|
  {
    if us != [] {
      var last := |us| - 1;
      UnitsKeepHistory(fs, env, us[..last], job, n);
      UnitKeepsHistory(ApplyUnits(fs, env, us[..last]).fs, env, us[last], job, n);
    }
  }

  /** No bundle adds, changes or removes anything below a build directory that
      existed before, whether the apply succeeds or fails. */
  lemma HistoryKept(fs: Fs, env: Env, files: seq<BundleFile>, job: Path, n: nat)
    requires ResolvesToJobs(env) && IsJobDir(job) && BuildAt(job, n) in fs.dirs
    ensures Untouched(fs, Apply(fs, env, files).fs, BuildAt(job, n))
  {
    if Entries(files).Some? {
      EntriesNamed(files);
      UnitsShaped(Entries(files).value);
      UnitsKeepHistory(fs, env, Units(Entries(files).value), job, n);
    }
  }

  // --- Numbers ---

  /** A number stored at p is still there and no smaller. */
  ghost predicate NotLowered(a: Fs, b: Fs, p: Path) {
    p in a.files && NumberIn(a.files[p]).Some? ==>
      && p in b.files && NumberIn(b.files[p]).Some?
      && NumberIn(b.files[p]).value >= NumberIn(a.files[p]).value
  }

  ghost predicate IsNumberFile(p: Path) {
    p != [] && p[|p| - 1] == NUMBER_FILE
  }

  lemma TempNotNumber(t: Path, p: Path)
    requires IsNumberFile(p) && t != []
    ensures Temp(t) != p
  {
    var q, name := Temp(t), t[|t| - 1] + ".tmp";
    assert q[|q| - 1] == name && name[|name| - 1] == 'p';
    assert NUMBER_FILE[|NUMBER_FILE| - 1] != 'p';
  }

  lemma {:induction false} PutAllKeepsNumber(fs: Fs, env: Env, es: seq<Entry>, p: Path)
    requires IsNumberFile(p) && forall e | e in es :: Named(e) && e.slot.BuildOf?
    ensures NotLowered(fs, PutAll(fs, env, es).0, p)
    decreases |es|
  {
    if es != [] && es[0].file.inflates {
      var t := Target(env, es[0]);
      assert Named(es[0]) && t[|t| - 1] == es[0].name;
      TempNotNumber(t, p);
      PutAllKeepsNumber(Put(fs, t, Data(env, es[0])), env, es[1..], p);
    }
  }

  lemma UnitKeepsNumber(fs: Fs, env: Env, u: Unit, p: Path)
    requires Shaped(u) && IsNumberFile(p)
    ensures NotLowered(fs, ApplyUnit(fs, env, u).0, p)
  {
    if u.slot.BuildOf? {
      PutAllKeepsNumber(fs, env, u.entries, p);
    } else if u.entries != [] {
      assert u.entries[0] in u.entries;
      TempNotNumber(Target(env, u.entries[0]), p);
    }
  }

  lemma {:induction false} UnitsKeepNumber(fs: Fs, env: Env, us: seq<Unit>, p: Path)
    requires IsNumberFile(p) && forall u | u in us :: Shaped(u)
    ensures NotLowered(fs, ApplyUnits(fs, env, us).fs, p)
    decreases |us|
  {
    if us != [] {
      var last := |us| - 1;
      UnitsKeepNumber(fs, env, us[..last], p);
      UnitKeepsNumber(ApplyUnits(fs, env, us[..last]).fs, env, us[last], p);
    }
  }

  /** No bundle lowers, garbles or removes a stored nextBuildNumber. */
  lemma NumbersNeverLowered(fs: Fs, env: Env, files: seq<BundleFile>, p: Path)
    requires IsNumberFile(p)
    ensures NotLowered(fs, Apply(fs, env, files).fs, p)
  {
    if Entries(files).Some? {
      EntriesNamed(files);
      UnitsShaped(Entries(files).value);
      UnitsKeepNumber(fs, env, Units(Entries(files).value), p);
    }
  }

  // --- A build.xml never appears before its changelog ---

  lemma GroupOrder(es: seq<Entry>, s: Slot, g: Group, x: Entry, c: Entry)
    requires GroupGood(es, s, g) && x in GroupEntries(g) && c in GroupEntries(g)
    requires x.name == BUILD_FILE && c.name == CHANGELOG_FILE
    ensures GroupEntries(g) == [c, x] && x.slot == s && c.slot == s
  {
  }

  lemma UnitOrder(es: seq<Entry>, u: Unit, x: Entry, c: Entry)
    requires AllNamed(es) && u in Units(es) && x in u.entries && c in u.entries
    requires x.name == BUILD_FILE && c.name == CHANGELOG_FILE
    ensures u.slot.BuildOf? && u.entries == [c, x] && x.slot == u.slot && c.slot == u.slot
  {
    var g := GroupAll(es);
    NumberUnitsAre(es);
    assert u in BuildUnits(g.order, g.groups);
    GroupAllGrouped(es);
    BuildUnitsAt(g.order, g.groups);
    var i :| 0 <= i < |g.order| && BuildUnits(g.order, g.groups)[i] == u;
    assert g.order[i] in g.order;
    GroupOrder(es, g.order[i], g.groups[g.order[i]], x, c);
  }

  /** When a build's build.xml has appeared its changelog is in place, whatever
      the order in the bundle and even when the apply stops there. */
  lemma ChangelogFirst(fs: Fs, env: Env, es: seq<Entry>, u: Unit, x: Entry, c: Entry)
    requires AllNamed(es) && u in Units(es) && x in u.entries && c in u.entries
    requires x.name == BUILD_FILE && c.name == CHANGELOG_FILE && Target(env, x) !in fs.files
    ensures var after := ApplyUnit(fs, env, u).0;
            Target(env, x) in after.files ==>
              Target(env, c) in after.files && after.files[Target(env, c)] == Data(env, c)
  {
    UnitOrder(es, u, x, c);
    var t, v := Target(env, x), Target(env, c);
    assert t[|t| - 1] == BUILD_FILE && v[|v| - 1] == CHANGELOG_FILE;
    assert Temp(t)[|t| - 1] == BUILD_FILE + ".tmp" && |Temp(t)| == |t|;
    assert BUILD_FILE + ".tmp" != CHANGELOG_FILE && Temp(t) != v;
    assert u.entries[1..] == [x] && [x][1..] == [];
    var g := Put(fs, v, Data(env, c));
    assert c.file.inflates ==> PutAll(fs, env, u.entries) == PutAll(g, env, [x]);
    assert x.file.inflates ==> PutAll(g, env, [x]) == (Put(g, t, Data(env, x)), Done);
  }
}

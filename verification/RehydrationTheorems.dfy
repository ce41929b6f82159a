/** Bundles of build.xml, changelog0.xml and nextBuildNumber files with distinct
    paths, for jobs that resolve to distinct directories: the exact result, that
    the order of the files does not matter, and that a second apply does
    nothing. */
module RehydrationTheorems {
  import opened Options
  import opened Sorting
  import opened RehydrationPath
  import opened RehydrationApply
  import opened RehydrationEffects
  import opened RehydrationUnits
  import opened RehydrationSafety

  ghost predicate GoodFile(f: BundleFile) {
    && Parse(f.path).Ok?
    && var kind := Parse(f.path).value.kind; (kind.BuildXml? || kind.Changelog? || kind.NextBuildNumber?)
  }

  function JobOf(f: BundleFile): Path
    requires Parse(f.path).Ok?
  {
    Parse(f.path).value.jobDirParts
  }

  ghost predicate GoodBundle(env: Env, files: seq<BundleFile>) {
    && (forall f | f in files :: GoodFile(f))
    && (forall i, j | 0 <= i < j < |files| :: files[i].path != files[j].path)
    && (forall f, g | f in files && g in files && env.resolve(JobOf(f)) == env.resolve(JobOf(g)) ::
          JobOf(f) == JobOf(g))
  }

  ghost function EntrySet(files: seq<BundleFile>): set<Entry> {
    set f | f in files && EntryOf(f).Some? :: EntryOf(f).value
  }

  // --- Good bundles have clean entries ---

  lemma GoodFileEntry(f: BundleFile)
    requires GoodFile(f)
    ensures EntryOf(f).Some?
    ensures var e := EntryOf(f).value;
            Named(e) && e.file == f && e.slot.job == JobOf(f) && e.jobPath == Parse(f.path).value.jobPath
  {
  }

  lemma GoodShape(f: BundleFile) returns (s: FilePath)
    requires GoodFile(f)
    ensures WellFormed(s) && Print(s) == f.path && (s.BuildFile? || s.NumberFile?)
    ensures var e := EntryOf(f);
            && e.Some?
            && e.value.slot == (if s.NumberFile? then NumberOf(JobDirs(s.segs)) else BuildOf(JobDirs(s.segs), s.n))
            && e.value.name == if s.NumberFile? then NUMBER_FILE else FileName(s.file)
  {
    s := ParseSound(f.path);
    ParsePrint(s);
  }

  /** A path can be read back from the slot and name its file is written under. */
  lemma SlotNamesPath(f: BundleFile, g: BundleFile)
    requires GoodFile(f) && GoodFile(g) && EntryOf(f).Some? && EntryOf(g).Some?
    requires EntryOf(f).value.slot == EntryOf(g).value.slot && EntryOf(f).value.name == EntryOf(g).value.name
    ensures f.path == g.path
  {
    var s := GoodShape(f);
    var t := GoodShape(g);
    JobDirsInjective(s.segs, t.segs);
    if s.BuildFile? { FileNameInjective(s.file, t.file); }
  }

  lemma FileNameInjective(a: Kind, b: Kind)
    requires FileName(a) == FileName(b)
    ensures a == b
  {
  }

  lemma GoodEntries(env: Env, files: seq<BundleFile>)
    requires GoodBundle(env, files)
    ensures Entries(files).Some?
    ensures var es := Entries(files).value;
            |es| == |files| && forall i | 0 <= i < |files| :: GoodFile(files[i]) && EntryOf(files[i]) == Some(es[i])
  {
    forall i | 0 <= i < |files| ensures EntryOf(files[i]).Some? && GoodFile(files[i]) {
      assert files[i] in files;
      GoodFileEntry(files[i]);
    }
    EntriesAre(files);
  }

  lemma ClashFree(f: BundleFile, e: Entry, g: BundleFile, h: Entry)
    requires GoodFile(f) && GoodFile(g) && EntryOf(f) == Some(e) && EntryOf(g) == Some(h)
    ensures Named(e) && e.slot.job == JobOf(f) && h.slot.job == JobOf(g)
    ensures f.path != g.path ==> e.slot != h.slot || e.name != h.name
    ensures e.slot.job == h.slot.job ==> e.jobPath == h.jobPath
  {
    GoodFileEntry(f);
    GoodFileEntry(g);
    JobPathDeterminesDirs(f.path, g.path);
    if e.slot == h.slot && e.name == h.name { SlotNamesPath(f, g); }
  }

  lemma GoodBundleClean(env: Env, files: seq<BundleFile>)
    requires GoodBundle(env, files)
    ensures Entries(files).Some? && CleanList(Entries(files).value) && Separate(env, SetOf(Entries(files).value))
  {
    GoodEntries(env, files);
    var es := Entries(files).value;
    forall i, j | 0 <= i < |es| && 0 <= j < |es|
      ensures Named(es[i])
      ensures i < j ==> es[i].slot != es[j].slot || es[i].name != es[j].name
      ensures es[i].slot.job == es[j].slot.job ==> es[i].jobPath == es[j].jobPath
      ensures JobDir(env, es[i].slot) == JobDir(env, es[j].slot) ==> es[i].slot.job == es[j].slot.job
    {
      ClashFree(files[i], es[i], files[j], es[j]);
    }
  }

  lemma EntrySetIs(env: Env, files: seq<BundleFile>)
    requires GoodBundle(env, files)
    ensures Entries(files).Some? && EntrySet(files) == SetOf(Entries(files).value)
  {
    GoodEntries(env, files);
    var es := Entries(files).value;
    forall e ensures e in EntrySet(files) <==> e in es {
      if e in EntrySet(files) {
        var f :| f in files && EntryOf(f) == Some(e);
        var i :| 0 <= i < |files| && files[i] == f;
        assert es[i] == e;
      }
      if e in es {
        var i :| 0 <= i < |es| && es[i] == e;
        assert files[i] in files && EntryOf(files[i]) == Some(e);
      }
    }
  }

  // --- The units of a clean bundle, one after another ---

  ghost function AllEntries(us: seq<Unit>): set<Entry> {
    if us == [] then {} else AllEntries(us[..|us| - 1]) + SetOf(us[|us| - 1].entries)
  }

  lemma {:induction false} AllEntriesAre(us: seq<Unit>, e: Entry)
    ensures e in AllEntries(us) <==> InUnits(us, e)
    decreases |us|
  {
    if us != [] {
      var front, u := us[..|us| - 1], us[|us| - 1];
      AllEntriesAre(front, e);
      assert us == front + [u];
      InUnitsConcat(front, [u], e);
      assert InUnits([u], e) <==> e in u.entries by { assert [u][0] == u; }
    }
  }

  ghost predicate Clean(env: Env, us: seq<Unit>) {
    DistinctSlots(us) && Separate(env, AllEntries(us)) && forall i | 0 <= i < |us| :: GoodUnit(us[i])
  }

  lemma CleanApart(env: Env, us: seq<Unit>)
    requires Clean(env, us) && us != []
    ensures Clean(env, us[..|us| - 1]) && Apart(env, AllEntries(us[..|us| - 1]), us[|us| - 1])
  {
    var front, u := us[..|us| - 1], us[|us| - 1];
    forall f | f in AllEntries(front) ensures Named(f) && f.slot != u.slot {
      AllEntriesAre(front, f);
      var i :| 0 <= i < |front| && f in front[i].entries;
      assert GoodUnit(us[i]) && us[i].slot != u.slot;
    }
  }

  /** The jobs of the units that have no config.xml, in order, once each. */
  ghost function Missing(fs: Fs, env: Env, us: seq<Unit>): seq<string> {
    if us == [] then []
    else
      var front, u := Missing(fs, env, us[..|us| - 1]), us[|us| - 1];
      if JobExists(fs, env, u.slot) then front else Mark(front, u.jobPath)
  }

  ghost predicate EntriesPass(fs: Fs, env: Env, es: set<Entry>) {
    forall e | e in es :: Passes(fs, env, e)
  }

  lemma PassesSnoc(fs: Fs, env: Env, es: set<Entry>, u: Unit)
    ensures EntriesPass(fs, env, es + SetOf(u.entries)) <==> EntriesPass(fs, env, es) && AllPass(fs, env, u)
  {
  }

  ghost predicate Reached(fs: Fs, env: Env, es: set<Entry>, missing: seq<string>, r: Outcome) {
    && (r.ok <==> EntriesPass(fs, env, es))
    && (r.ok ==> IsResult(fs, r.fs, env, es) && r.deferred == missing)
  }

  lemma ThenReached(fs: Fs, env: Env, es: set<Entry>, missing: seq<string>, before: Outcome, u: Unit)
    requires Closed(fs) && Apart(env, es, u) && Reached(fs, env, es, missing, before)
    ensures Reached(fs, env, es + SetOf(u.entries),
                    if JobExists(fs, env, u.slot) then missing else Mark(missing, u.jobPath), Then(before, env, u))
  {
    PassesSnoc(fs, env, es, u);
    if before.ok { LastUnit(fs, before.fs, env, es, u); }
  }

  lemma {:induction false} UnitsResult(fs: Fs, env: Env, us: seq<Unit>)
    requires Closed(fs) && Clean(env, us)
    ensures Reached(fs, env, AllEntries(us), Missing(fs, env, us), ApplyUnits(fs, env, us))
    decreases |us|
  {
    if us != [] {
      var front, u := us[..|us| - 1], us[|us| - 1];
      CleanApart(env, us);
      UnitsResult(fs, env, front);
      ThenReached(fs, env, AllEntries(front), Missing(fs, env, front), ApplyUnits(fs, env, front), u);
    }
  }

  lemma LastUnit(fs: Fs, g: Fs, env: Env, es: set<Entry>, u: Unit)
    requires Closed(fs) && Apart(env, es, u) && IsResult(fs, g, env, es)
    ensures var (after, status) := ApplyUnit(g, env, u);
            && (status == Failed <==> !AllPass(fs, env, u))
            && (AllPass(fs, env, u) ==>
                  && IsResult(fs, after, env, es + SetOf(u.entries))
                  && status == if JobExists(fs, env, u.slot) then Done else Deferred)
  {
    if AllPass(fs, env, u) { UnitResult(fs, g, env, es, u); } else { UnitFails(fs, g, env, es, u); }
  }

  ghost predicate DefersExactly(fs: Fs, env: Env, es: set<Entry>, deferred: seq<string>) {
    && Distinct(deferred)
    && forall job :: job in deferred <==> exists e | e in es :: e.jobPath == job && !JobExists(fs, env, e.slot)
  }

  lemma {:induction false} MissingExactly(fs: Fs, env: Env, us: seq<Unit>)
    requires forall i | 0 <= i < |us| :: GoodUnit(us[i])
    ensures DefersExactly(fs, env, AllEntries(us), Missing(fs, env, us))
    decreases |us|
  {
    if us != [] {
      var front, u := us[..|us| - 1], us[|us| - 1];
      MissingExactly(fs, env, front);
      assert GoodUnit(u) && u.entries[0] in AllEntries(us);
    }
  }

  /** The apply of a good bundle succeeds exactly when every file passes. Then
      exactly the files that may be written are written, and exactly the jobs
      without config.xml are deferred. */
  lemma ApplyExactly(fs: Fs, env: Env, files: seq<BundleFile>)
    requires Closed(fs) && GoodBundle(env, files)
    ensures var r := Apply(fs, env, files);
            && (r.ok <==> EntriesPass(fs, env, EntrySet(files)))
            && (r.ok ==> && IsResult(fs, r.fs, env, EntrySet(files))
                         && DefersExactly(fs, env, EntrySet(files), r.deferred))
  {
    var us := CleanUnits(env, files);
    UnitsResult(fs, env, us);
    MissingExactly(fs, env, us);
  }

  lemma CleanUnits(env: Env, files: seq<BundleFile>) returns (us: seq<Unit>)
    requires GoodBundle(env, files)
    ensures Clean(env, us) && AllEntries(us) == EntrySet(files)
    ensures forall fs :: Apply(fs, env, files) == ApplyUnits(fs, env, us)
  {
    GoodBundleClean(env, files);
    EntrySetIs(env, files);
    var es := Entries(files).value;
    us := Units(es);
    UnitsGood(es);
    forall e ensures e in AllEntries(us) <==> e in es { AllEntriesAre(us, e); }
    assert AllEntries(us) == SetOf(es);
  }

  // --- Order ---

  lemma PermutedGood(env: Env, a: seq<BundleFile>, b: seq<BundleFile>)
    requires GoodBundle(env, a) && multiset(a) == multiset(b)
    ensures GoodBundle(env, b) && EntrySet(a) == EntrySet(b)
  {
    DistinctPermutes(a, b);
    forall i, j | 0 <= i < j < |b| ensures b[i].path != b[j].path {
      assert b[i] in a && b[j] in a && b[i] != b[j];
    }
  }

  /** Bundles that list the same files in different orders leave the same tree
      and defer the same jobs. */
  lemma OrderIrrelevant(fs: Fs, env: Env, a: seq<BundleFile>, b: seq<BundleFile>)
    requires Closed(fs) && GoodBundle(env, a) && multiset(a) == multiset(b)
    ensures var (r, t) := (Apply(fs, env, a), Apply(fs, env, b));
            && (r.ok <==> t.ok)
            && (r.ok ==>
                  && r.fs == t.fs && Distinct(r.deferred) && Distinct(t.deferred)
                  && forall job :: job in r.deferred <==> job in t.deferred)
  {
    PermutedGood(env, a, b);
    ApplyExactly(fs, env, a);
    ApplyExactly(fs, env, b);
    var r, t := Apply(fs, env, a), Apply(fs, env, b);
    if r.ok { ResultUnique(fs, r.fs, t.fs, env, EntrySet(a)); }
  }

  // --- A second apply ---

  /** No two entries of the set share a target. */
  ghost predicate OwnTargets(env: Env, es: set<Entry>) {
    && (forall e | e in es :: Named(e))
    && (forall e, f | e in es && f in es && Target(env, e) == Target(env, f) :: e == f)
  }

  lemma SameTargetSame(env: Env, es: seq<Entry>, i: nat, j: nat)
    requires CleanList(es) && Separate(env, SetOf(es)) && i < |es| && j < |es|
    requires Target(env, es[i]) == Target(env, es[j])
    ensures i == j
  {
    assert es[i] in es && es[j] in es && es[i] in SetOf(es) && es[j] in SetOf(es);
    TargetsDiffer(env, es[i], es[j]);
    assert es[i].slot == es[j].slot;
  }

  lemma BundleOwnTargets(env: Env, files: seq<BundleFile>)
    requires GoodBundle(env, files)
    ensures OwnTargets(env, EntrySet(files))
  {
    GoodBundleClean(env, files);
    EntrySetIs(env, files);
    var es := Entries(files).value;
    forall e, f | e in es && f in es && Target(env, e) == Target(env, f) ensures e == f {
      var i, j :| 0 <= i < |es| && 0 <= j < |es| && es[i] == e && es[j] == f;
      SameTargetSame(env, es, i, j);
    }
  }

  lemma SameJobsAfter(fs: Fs, after: Fs, env: Env, es: set<Entry>, slot: Slot)
    requires IsResult(fs, after, env, es) && forall e | e in es :: Named(e)
    ensures JobExists(after, env, slot) <==> JobExists(fs, env, slot)
  {
    forall f | f in es ensures Target(env, f) != JobDir(env, slot) + [CONFIG_FILE] { ConfigUntouched(env, f, slot); }
    NotWiped(fs, env, es, JobDir(env, slot) + [CONFIG_FILE]);
  }

  lemma BuildDirIsParent(env: Env, e: Entry)
    requires e.slot.BuildOf?
    ensures BuildDir(env, e.slot) in Parents(Target(env, e))
  {
    var t := Target(env, e);
    assert t[..|t| - 1] == BuildDir(env, e.slot);
  }

  lemma SettledBuild(fs: Fs, after: Fs, env: Env, es: set<Entry>, e: Entry, d: Path)
    requires IsResult(fs, after, env, es) && e in es && Fires(fs, env, e) && d in Parents(Target(env, e))
    ensures d in after.dirs
  {
    assert d in Made(fs, env, es);
  }

  lemma SettledNumber(fs: Fs, after: Fs, env: Env, es: set<Entry>, e: Entry)
    requires IsResult(fs, after, env, es) && OwnTargets(env, es) && e in es && e.slot.NumberOf?
    ensures Fires(fs, env, e) ==> Target(env, e) in after.files && after.files[Target(env, e)] == Data(env, e)
    ensures !Fires(fs, env, e) && Target(env, e) in fs.files ==>
              Target(env, e) in after.files && after.files[Target(env, e)] == fs.files[Target(env, e)]
  {
    if !Fires(fs, env, e) {
      assert Target(env, e) !in Written(fs, env, es);
      TargetNotWiped(fs, env, es, e);
    }
  }

  /** After the apply no entry has anything left to write. */
  lemma Settled(fs: Fs, after: Fs, env: Env, es: set<Entry>, e: Entry)
    requires IsResult(fs, after, env, es) && OwnTargets(env, es) && e in es && Passes(fs, env, e)
    ensures !Fires(after, env, e) && Passes(after, env, e)
  {
    SameJobsAfter(fs, after, env, es, e.slot);
    if e.slot.NumberOf? {
      SettledNumber(fs, after, env, es, e);
    } else if Fires(fs, env, e) {
      BuildDirIsParent(env, e);
      SettledBuild(fs, after, env, es, e, BuildDir(env, e.slot));
    }
  }

  lemma ClosedAfter(fs: Fs, after: Fs, env: Env, es: set<Entry>)
    requires Closed(fs) && IsResult(fs, after, env, es)
    ensures Closed(after)
  {
    forall p, d | p in after.files && d in Parents(p) ensures d in after.dirs {
      if p in Written(fs, env, es) {
        assert d in Made(fs, env, es);
      }
    }
  }

  lemma NothingLeft(fs: Fs, env: Env, es: set<Entry>)
    requires forall e | e in es :: !Fires(fs, env, e)
    ensures IsResult(fs, fs, env, es)
  {
  }

  lemma {:induction false} SameMissing(fs: Fs, after: Fs, env: Env, us: seq<Unit>)
    requires forall i | 0 <= i < |us| :: JobExists(fs, env, us[i].slot) <==> JobExists(after, env, us[i].slot)
    ensures Missing(fs, env, us) == Missing(after, env, us)
    decreases |us|
  {
    if us != [] { SameMissing(fs, after, env, us[..|us| - 1]); }
  }

  /** After a successful apply, a second one of the same bundle writes nothing
      and reports the same. */
  lemma SecondApply(fs: Fs, env: Env, files: seq<BundleFile>)
    requires Closed(fs) && GoodBundle(env, files) && Apply(fs, env, files).ok
    ensures var once := Apply(fs, env, files); Apply(once.fs, env, files) == once
  {
    var us := CleanUnits(env, files);
    var after := Apply(fs, env, files).fs;
    var es := EntrySet(files);
    UnitsResult(fs, env, us);
    BundleOwnTargets(env, files);
    ClosedAfter(fs, after, env, es);
    UnitsResult(after, env, us);
    forall e | e in es ensures !Fires(after, env, e) && Passes(after, env, e) { Settled(fs, after, env, es, e); }
    NothingLeft(after, env, es);
    ResultUnique(after, after, Apply(after, env, files).fs, env, es);
    forall i | 0 <= i < |us| ensures JobExists(fs, env, us[i].slot) <==> JobExists(after, env, us[i].slot) {
      SameJobsAfter(fs, after, env, es, us[i].slot);
    }
    SameMissing(fs, after, env, us);
  }

  // --- Numbers ---

  /** The number a job ends with: the larger of the stored and the proposed one,
      or the proposed one when none was stored. */
  function Raised(stored: Option<int>, proposed: int): int {
    if stored.Some? && stored.value >= proposed then stored.value else proposed
  }

  function Stored(fs: Fs, p: Path): Option<int> {
    if p in fs.files then NumberIn(fs.files[p]) else None
  }

  lemma NumberEndsAtMax(fs: Fs, env: Env, files: seq<BundleFile>, f: BundleFile)
    requires Closed(fs) && GoodBundle(env, files) && f in files && Parse(f.path).value.kind == NextBuildNumber
    requires Apply(fs, env, files).ok
    ensures JobExists(fs, env, NumberOf(JobOf(f))) ==> NumberIn(f.content).Some?
    ensures var p := env.resolve(JobOf(f)) + [NUMBER_FILE];
            var after := Apply(fs, env, files).fs;
            if JobExists(fs, env, NumberOf(JobOf(f)))
            then Stored(after, p) == Some(Raised(Stored(fs, p), NumberIn(f.content).value))
            else Stored(after, p) == Stored(fs, p)
  {
    GoodFileEntry(f);
    var e := EntryOf(f).value;
    assert e in EntrySet(files);
    ApplyExactly(fs, env, files);
    BundleOwnTargets(env, files);
    assert Passes(fs, env, e);
    NumberAfterwards(fs, Apply(fs, env, files).fs, env, EntrySet(files), e);
  }

  lemma NumberAfterwards(fs: Fs, after: Fs, env: Env, es: set<Entry>, e: Entry)
    requires IsResult(fs, after, env, es) && OwnTargets(env, es) && e in es && e.slot.NumberOf? && Passes(fs, env, e)
    ensures var p := Target(env, e);
            if JobExists(fs, env, e.slot)
            then NumberIn(e.file.content).Some?
                 && Stored(after, p) == Some(Raised(Stored(fs, p), NumberIn(e.file.content).value))
            else Stored(after, p) == Stored(fs, p)
  {
    SettledNumber(fs, after, env, es, e);
    if !Fires(fs, env, e) && Target(env, e) !in fs.files {
      assert Target(env, e) !in Written(fs, env, es);
    }
  }
}

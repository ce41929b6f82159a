/** Applies one after another, failed ones included: a build directory that
    exists is never written again, so a build left half written stays so. */
module RehydrationRetry {
  import opened Options
  import opened RehydrationPath
  import opened RehydrationApply
  import opened RehydrationEffects
  import opened RehydrationSafety
  import opened RehydrationTheorems
  import opened RehydrationContent

  ghost function ApplyAll(fs: Fs, env: Env, bundles: seq<seq<BundleFile>>): Fs
    decreases |bundles|
  {
    if bundles == [] then fs else ApplyAll(Apply(fs, env, bundles[0]).fs, env, bundles[1..])
  }

  /** Whatever is applied later, a build directory that exists stays as it is. */
  lemma {:induction false} BuildFrozen(fs: Fs, env: Env, bundles: seq<seq<BundleFile>>, job: Path, n: nat)
    requires ResolvesToJobs(env) && IsJobDir(job) && BuildAt(job, n) in fs.dirs
    ensures Untouched(fs, ApplyAll(fs, env, bundles), BuildAt(job, n))
    decreases |bundles|
  {
    if bundles != [] {
      HistoryKept(fs, env, bundles[0], job, n);
      BuildFrozen(Apply(fs, env, bundles[0]).fs, env, bundles[1..], job, n);
    }
  }

  /** A changelog and a build.xml of one build whose job exists and whose
      directory does not. */
  ghost predicate NewBuild(fs: Fs, env: Env, log: BundleFile, xml: BundleFile) {
    && GoodFile(log) && Parse(log.path).value.kind.Changelog? && GoodFile(xml) && Parse(xml.path).value.kind.BuildXml?
    && JobOf(log) == JobOf(xml) && Parse(log.path).value.buildNumber == Parse(xml.path).value.buildNumber
    && HasConfig(fs, env, xml) && !HasBuild(fs, env, xml)
  }

  // --- The units of a bundle for one build ---

  lemma EntriesSnoc(files: seq<BundleFile>, f: BundleFile)
    requires Entries(files).Some? && EntryOf(f).Some?
    ensures Entries(files + [f]) == Some(Entries(files).value + [EntryOf(f).value])
  {
    assert (files + [f])[..|files|] == files;
  }

  lemma GroupSnoc(es: seq<Entry>, e: Entry)
    ensures GroupAll(es + [e]) == AddEntry(GroupAll(es), e)
    ensures e.slot.BuildOf? ==> NumberUnits(es + [e]) == NumberUnits(es)
  {
    assert (es + [e])[..|es|] == es;
    assert NumberUnits(es) + [] == NumberUnits(es);
  }

  lemma OneBuild(s: Slot, g: Group)
    ensures BuildUnits([s], map[s := g]) == [Unit(s, g.jobPath, GroupEntries(g))]
  {
    assert [s][..0] == [] && BuildUnits([], map[s := g]) == [];
  }

  lemma LoneUnit(x: Entry)
    requires x.slot.BuildOf? && x.name == BUILD_FILE
    ensures Units([x]) == [Unit(x.slot, x.jobPath, [x])]
  {
    GroupSnoc([], x);
    assert [] + [x] == [x];
    OneBuild(x.slot, Group(x.jobPath, Some(x), None));
    assert [] + [x.slot] == [x.slot];
  }

  lemma OneUnit(c: Entry, x: Entry)
    requires c.slot == x.slot && c.slot.BuildOf? && c.name == CHANGELOG_FILE && x.name == BUILD_FILE
    ensures Units([c, x]) == [Unit(c.slot, c.jobPath, [c, x])]
  {
    GroupSnoc([], c);
    GroupSnoc([c], x);
    assert [] + [c] == [c] && [c] + [x] == [c, x];
    var g1 := Grouping([c.slot], map[c.slot := Group(c.jobPath, None, Some(c))]);
    assert GroupAll([c]) == g1 by { assert [] + [c.slot] == [c.slot] && CHANGELOG_FILE != BUILD_FILE; }
    var group := Group(c.jobPath, Some(x), Some(c));
    assert AddEntry(g1, x) == Grouping([c.slot], map[c.slot := group]);
    OneBuild(c.slot, group);
    assert GroupEntries(group) == [c, x];
  }

  lemma TwoEntries(log: BundleFile, xml: BundleFile)
    requires EntryOf(log).Some? && EntryOf(xml).Some?
    ensures Entries([log, xml]) == Some([EntryOf(log).value, EntryOf(xml).value])
  {
    EntriesSnoc([], log);
    EntriesSnoc([log], xml);
    var c, x := EntryOf(log).value, EntryOf(xml).value;
    assert [] + [log] == [log] && [log] + [xml] == [log, xml];
    assert [] + [c] == [c] && [c] + [x] == [c, x];
  }

  // --- A failed build ---

  lemma OneUnitApplied(fs: Fs, env: Env, u: Unit)
    requires ApplyUnit(fs, env, u).1.Failed?
    ensures ApplyUnits(fs, env, [u]) == Outcome(ApplyUnit(fs, env, u).0, [], false)
  {
    assert [u][..0] == [];
  }

  lemma StopsAtXml(fs: Fs, env: Env, c: Entry, x: Entry)
    requires c.file.inflates && !x.file.inflates
    ensures PutAll(fs, env, [c, x]) == (Put(fs, Target(env, c), Data(env, c)), Failed)
  {
    assert [c, x][1..] == [x];
  }

  /** The apply stops at a build.xml that does not inflate, with the changelog
      written. */
  lemma FailsHalfway(fs: Fs, env: Env, log: BundleFile, xml: BundleFile)
    requires NewBuild(fs, env, log, xml) && log.inflates && !xml.inflates
    ensures EntryOf(log).Some?
    ensures var c := EntryOf(log).value;
            Apply(fs, env, [log, xml]) == Outcome(Put(fs, Target(env, c), Data(env, c)), [], false)
  {
    EntryExactly(log);
    EntryExactly(xml);
    WhenItFires(fs, env, xml);
    var c, x := EntryOf(log).value, EntryOf(xml).value;
    TwoEntries(log, xml);
    OneUnit(c, x);
    StopsAtXml(fs, env, c, x);
    OneUnitApplied(fs, env, Unit(c.slot, c.jobPath, [c, x]));
  }

  lemma BuildIsThere(fs: Fs, env: Env, log: BundleFile)
    requires GoodFile(log) && Parse(log.path).value.kind.Changelog?
    ensures EntryOf(log).Some?
    ensures var c := EntryOf(log).value;
            BuildAt(env.resolve(JobOf(log)), Parse(log.path).value.buildNumber)
              in Put(fs, Target(env, c), Data(env, c)).dirs
  {
    EntryExactly(log);
    BuildDirIsParent(env, EntryOf(log).value);
  }

  /** Nothing is below a directory that does not exist. */
  lemma NothingThere(fs: Fs, d: Path, p: Path)
    requires Closed(fs) && d !in fs.dirs && Under(d, p)
    ensures p !in fs.files
  {
    assert p[..|d|] in Parents(p);
  }

  lemma XmlPlace(env: Env, log: BundleFile, xml: BundleFile)
    requires GoodFile(log) && Parse(log.path).value.kind.Changelog?
    requires GoodFile(xml) && Parse(xml.path).value.kind.BuildXml?
    requires JobOf(log) == JobOf(xml) && Parse(log.path).value.buildNumber == Parse(xml.path).value.buildNumber
    ensures Under(BuildAt(env.resolve(JobOf(xml)), Parse(xml.path).value.buildNumber), Landing(env, xml))
    ensures Landing(env, xml) != Landing(env, log)
  {
    EntryExactly(xml);
    EntryExactly(log);
    LandsAt(env, xml);
    LandsAt(env, log);
    var dir := BuildAt(env.resolve(JobOf(xml)), Parse(xml.path).value.buildNumber);
    assert Landing(env, xml) == dir + [BUILD_FILE] && Landing(env, log) == dir + [CHANGELOG_FILE];
    assert BUILD_FILE != CHANGELOG_FILE;
  }

  /** A build whose build.xml does not inflate keeps its changelog and gets no
      build.xml, in whatever applies follow: the directory the changelog made
      shuts every later one out. */
  lemma HalfWrittenForever(fs: Fs, env: Env, log: BundleFile, xml: BundleFile, later: seq<seq<BundleFile>>)
    requires Closed(fs) && ResolvesToJobs(env) && NewBuild(fs, env, log, xml) && log.inflates && !xml.inflates
    ensures var r := Apply(fs, env, [log, xml]);
            var end := ApplyAll(r.fs, env, later);
            !r.ok && HasFile(end, Landing(env, log), log.content) && Landing(env, xml) !in end.files
  {
    FailsHalfway(fs, env, log, xml);
    LandsAt(env, log);
    DataIs(env, log);
    BuildIsThere(fs, env, log);
    XmlPlace(env, log, xml);
    var job, n := env.resolve(JobOf(xml)), Parse(xml.path).value.buildNumber;
    NothingThere(fs, BuildAt(job, n), Landing(env, xml));
    var half := Apply(fs, env, [log, xml]).fs;
    assert Landing(env, xml) !in half.files && HasFile(half, Landing(env, log), log.content);
    BuildFrozen(half, env, later, job, n);
    assert Under(BuildAt(job, n), Landing(env, log)) by {
      EntryExactly(log);
      assert Landing(env, log) == BuildAt(job, n) + [CHANGELOG_FILE];
    }
  }

  /** Without a changelog the failure leaves nothing behind, and a later apply
      starts from the same tree. */
  lemma LoneXmlLeavesNothing(fs: Fs, env: Env, xml: BundleFile)
    requires GoodFile(xml) && Parse(xml.path).value.kind.BuildXml?
    requires HasConfig(fs, env, xml) && !HasBuild(fs, env, xml) && !xml.inflates
    ensures Apply(fs, env, [xml]) == Outcome(fs, [], false)
  {
    EntryExactly(xml);
    WhenItFires(fs, env, xml);
    var x := EntryOf(xml).value;
    EntriesSnoc([], xml);
    assert [] + [xml] == [xml] && [] + [x] == [x];
    LoneUnit(x);
    OneUnitApplied(fs, env, Unit(x.slot, x.jobPath, [x]));
  }
}

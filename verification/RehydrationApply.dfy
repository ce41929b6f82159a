/** Applying a rehydration bundle to the Jenkins home: group the files by
    build, raise build numbers, then write the builds that do not exist yet. */
module RehydrationApply {
  import opened Options
  import opened Strings
  import opened RehydrationPath

  /** A path below the Jenkins home, part by part. */
  type Path = seq<string>

  datatype Fs = Fs(files: map<Path, string>, dirs: set<Path>)

  /** content is what the gzip payload inflates to; inflates is false when it
      does not inflate to its declared size. */
  datatype BundleFile = BundleFile(path: string, content: string, inflates: bool)

  /** resolve maps a job's logical directory to the one that holds it; escape
      writes a text as XML character data. */
  datatype Env = Env(resolve: Path -> Path, escape: string -> string)

  datatype Slot = NumberOf(job: Path) | BuildOf(job: Path, n: nat)

  /** One checked bundle file: the build or number it belongs to and the name
      it is written under. */
  datatype Entry = Entry(slot: Slot, jobPath: string, name: string, file: BundleFile)

  const NUMBER_FILE := "nextBuildNumber"
  const BUILD_FILE := "build.xml"
  const CHANGELOG_FILE := "changelog0.xml"
  const CONFIG_FILE := "config.xml"

  /** Every kind but build.xml and nextBuildNumber lands as the changelog. */
  function EntryOf(f: BundleFile): Option<Entry> {
    match Parse(f.path)
    case Err => None
    case Ok(p) =>
      match p.kind
      case NextBuildNumber => Some(Entry(NumberOf(p.jobDirParts), p.jobPath, NUMBER_FILE, f))
      case BuildXml => Some(Entry(BuildOf(p.jobDirParts, p.buildNumber), p.jobPath, BUILD_FILE, f))
      case _ => Some(Entry(BuildOf(p.jobDirParts, p.buildNumber), p.jobPath, CHANGELOG_FILE, f))
  }

  // --- Integers as strconv.Atoi reads them ---

  function Atoi(s: string): Option<int> {
    if s == "" then None
    else if s[0] == '-' then
      var below: int := Value(s[1..]);
      if IsNumeral(s[1..]) && below <= MAX_INT + 1 then Some(-below) else None
    else
      var digits := if s[0] == '+' then s[1..] else s;
      if IsNumeral(digits) && Value(digits) <= MAX_INT then Some(Value(digits)) else None
  }

  predicate IsNumeral(s: string) {
    s != "" && AllDigits(s)
  }

  function NumberIn(text: string): Option<int> {
    Atoi(TrimSpace(text))
  }

  // --- Places and contents ---

  function JobDir(env: Env, slot: Slot): Path {
    env.resolve(slot.job)
  }

  function BuildDir(env: Env, slot: Slot): Path
    requires slot.BuildOf?
  {
    JobDir(env, slot) + ["builds", Decimal(slot.n)]
  }

  function Target(env: Env, e: Entry): Path {
    if e.slot.NumberOf? then JobDir(env, e.slot) + [NUMBER_FILE] else BuildDir(env, e.slot) + [e.name]
  }

  /** Replaces the first occurrence of x. */
  function ReplaceFirst(s: string, x: string, y: string): string {
    if x <= s then y + s[|x|..] else if s == "" then s else [s[0]] + ReplaceFirst(s[1..], x, y)
  }

  /** The end of the element that names a build's changelog below a job
      directory. */
  function ChangelogRef(env: Env, job: Path, n: nat): string {
    env.escape("/" + Join(job, '/') + "/builds/" + Decimal(n) + "/" + CHANGELOG_FILE) + "</changelogFile>"
  }

  /** The build.xml of a moved job names the changelog where it now lies. */
  function Data(env: Env, e: Entry): string {
    if e.slot.BuildOf? && e.name == BUILD_FILE && JobDir(env, e.slot) != e.slot.job
    then
      var was, now := ChangelogRef(env, e.slot.job, e.slot.n), ChangelogRef(env, JobDir(env, e.slot), e.slot.n);
      ReplaceFirst(e.file.content, was, now)
    else e.file.content
  }

  predicate JobExists(fs: Fs, env: Env, slot: Slot) {
    JobDir(env, slot) + [CONFIG_FILE] in fs.files
  }

  ghost function Parents(p: Path): set<Path> {
    set i | 0 <= i < |p| :: p[..i]
  }

  /** The temporary file a write goes through. */
  function Temp(p: Path): Path {
    if p == [] then [".tmp"] else p[..|p| - 1] + [p[|p| - 1] + ".tmp"]
  }

  /** Writes a file and creates the directories above it. The rename takes the
      temporary file away, one left by an earlier crash included. */
  ghost function Put(fs: Fs, p: Path, data: string): Fs {
    Fs((fs.files - {Temp(p)})[p := data], fs.dirs + Parents(p))
  }

  /** Whether the entry's own rule lets it write: never lower a stored number,
      never write into an existing build directory. */
  predicate Fires(fs: Fs, env: Env, e: Entry) {
    && JobExists(fs, env, e.slot)
    && match e.slot
       case NumberOf(_) => !Holds(fs, Target(env, e), NumberIn(e.file.content))
       case BuildOf(_, _) => BuildDir(env, e.slot) !in fs.dirs
  }

  /** The stored number parses and is at least the proposed one. */
  predicate Holds(fs: Fs, p: Path, proposed: Option<int>) {
    && p in fs.files && NumberIn(fs.files[p]).Some? && proposed.Some?
    && NumberIn(fs.files[p]).value >= proposed.value
  }

  // --- The units of one apply ---

  /** A number file, or the files of one build: changelog first. */
  datatype Unit = Unit(slot: Slot, jobPath: string, entries: seq<Entry>)

  datatype Status = Done | Deferred | Failed

  ghost function PutAll(fs: Fs, env: Env, es: seq<Entry>): (Fs, Status)
    decreases |es|
  {
    if es == [] then (fs, Done)
    else if !es[0].file.inflates then (fs, Failed)
    else PutAll(Put(fs, Target(env, es[0]), Data(env, es[0])), env, es[1..])
  }

  ghost function ApplyUnit(fs: Fs, env: Env, u: Unit): (Fs, Status) {
    if !JobExists(fs, env, u.slot) then (fs, Deferred)
    else if u.slot.BuildOf? then
      if BuildDir(env, u.slot) in fs.dirs then (fs, Done) else PutAll(fs, env, u.entries)
    else if u.entries == [] then (fs, Done)
    else
      var e := u.entries[0];
      if !e.file.inflates || NumberIn(e.file.content).None? then (fs, Failed)
      else if Holds(fs, Target(env, e), NumberIn(e.file.content)) then (fs, Done)
      else (Put(fs, Target(env, e), Data(env, e)), Done)
  }

  function Mark(deferred: seq<string>, jobPath: string): seq<string> {
    if jobPath in deferred then deferred else deferred + [jobPath]
  }

  datatype Outcome = Outcome(fs: Fs, deferred: seq<string>, ok: bool)

  /** One unit more; nothing after a failure. */
  ghost function Then(before: Outcome, env: Env, u: Unit): Outcome {
    if !before.ok then before
    else
      var (after, status) := ApplyUnit(before.fs, env, u);
      match status
      case Done => before.(fs := after)
      case Deferred => before.(fs := after, deferred := Mark(before.deferred, u.jobPath))
      case Failed => before.(fs := after, ok := false)
  }

  /** Applies the units in order and stops at the first failure. */
  ghost function ApplyUnits(fs: Fs, env: Env, us: seq<Unit>): Outcome {
    if us == [] then Outcome(fs, [], true) else Then(ApplyUnits(fs, env, us[..|us| - 1]), env, us[|us| - 1])
  }

  // --- From the bundle to its units ---

  /** The entries of the bundle up to the first refused path. */
  function Entries(files: seq<BundleFile>): Option<seq<Entry>> {
    if files == [] then Some([])
    else
      var last := |files| - 1;
      match (Entries(files[..last]), EntryOf(files[last]))
      case (Some(es), Some(e)) => Some(es + [e])
      case _ => None
  }

  function NumberUnits(es: seq<Entry>): seq<Unit> {
    if es == [] then []
    else
      var e := es[|es| - 1];
      NumberUnits(es[..|es| - 1]) + if e.slot.NumberOf? then [Unit(e.slot, e.jobPath, [e])] else []
  }

  /** The files of one build so far: the last of each name counts. */
  datatype Group = Group(jobPath: string, xml: Option<Entry>, changelog: Option<Entry>)

  datatype Grouping = Grouping(order: seq<Slot>, groups: map<Slot, Group>)

  function AddEntry(g: Grouping, e: Entry): Grouping {
    if e.slot.NumberOf? then g
    else
      var was := if e.slot in g.groups then g.groups[e.slot] else Group(e.jobPath, None, None);
      var now := if e.name == BUILD_FILE then was.(xml := Some(e)) else was.(changelog := Some(e));
      Grouping(if e.slot in g.groups then g.order else g.order + [e.slot], g.groups[e.slot := now])
  }

  function GroupAll(es: seq<Entry>): Grouping {
    if es == [] then Grouping([], map[]) else AddEntry(GroupAll(es[..|es| - 1]), es[|es| - 1])
  }

  function GroupEntries(g: Group): seq<Entry> {
    (if g.changelog.Some? then [g.changelog.value] else []) + (if g.xml.Some? then [g.xml.value] else [])
  }

  function BuildUnits(order: seq<Slot>, groups: map<Slot, Group>): seq<Unit> {
    if order == [] then []
    else
      var slot := order[|order| - 1];
      BuildUnits(order[..|order| - 1], groups)
        + if slot in groups then [Unit(slot, groups[slot].jobPath, GroupEntries(groups[slot]))] else []
  }

  function Units(es: seq<Entry>): seq<Unit> {
    var g := GroupAll(es);
    NumberUnits(es) + BuildUnits(g.order, g.groups)
  }

  ghost function Apply(fs: Fs, env: Env, files: seq<BundleFile>): Outcome {
    match Entries(files)
    case None => Outcome(fs, [], false)
    case Some(es) => ApplyUnits(fs, env, Units(es))
  }

  // --- The apply as the source runs it ---

  class FileTree {
    var files: map<Path, string>
    var dirs: set<Path>

    ghost function Value(): Fs
      reads this
    {
      Fs(files, dirs)
    }

    /** Creates the parent directories, writes the temporary file, then replaces
        the file by a rename. */
    method WriteFile(p: Path, data: string)
      modifies this
      ensures Value() == Put(old(Value()), p, data)
    {
      for i := 0 to |p|
        invariant files == old(files) && dirs == old(dirs) + set j | 0 <= j < i :: p[..j]
      {
        dirs := dirs + {p[..i]};
      }
      files := files[Temp(p) := data];
      files := (files - {Temp(p)})[p := files[Temp(p)]];
    }

    method WriteEntry(env: Env, e: Entry) returns (ok: bool)
      modifies this
      ensures ok == e.file.inflates
      ensures Value() == if ok then Put(old(Value()), Target(env, e), Data(env, e)) else old(Value())
    {
      if !e.file.inflates { return false; }
      WriteFile(Target(env, e), Data(env, e));
      return true;
    }

    method RunUnit(env: Env, u: Unit) returns (status: Status)
      modifies this
      ensures (Value(), status) == ApplyUnit(old(Value()), env, u)
    {
      if JobDir(env, u.slot) + [CONFIG_FILE] !in files { return Deferred; }
      if u.slot.BuildOf? {
        if BuildDir(env, u.slot) in dirs { return Done; }
        for i := 0 to |u.entries|
          invariant PutAll(old(Value()), env, u.entries) == PutAll(Value(), env, u.entries[i..])
        {
          assert u.entries[i..][0] == u.entries[i] && u.entries[i..][1..] == u.entries[i + 1..];
          var ok := WriteEntry(env, u.entries[i]);
          if !ok { return Failed; }
        }
        return Done;
      }
      if u.entries == [] { return Done; }
      var e := u.entries[0];
      if !e.file.inflates { return Failed; }
      var proposed := NumberIn(e.file.content);
      if proposed.None? { return Failed; }
      var at := Target(env, e);
      if at in files {
        var existing := NumberIn(files[at]);
        if existing.Some? && existing.value >= proposed.value { return Done; }
      }
      WriteFile(at, Data(env, e));
      return Done;
    }

    /** The whole apply: no write before every path passed, then the numbers,
        then the builds. */
    method ApplyBundle(env: Env, bundle: seq<BundleFile>) returns (deferred: seq<string>, ok: bool)
      modifies this
      ensures ok == Apply(old(Value()), env, bundle).ok
      ensures Value() == Apply(old(Value()), env, bundle).fs
      ensures ok ==> deferred == Apply(old(Value()), env, bundle).deferred
    {
      var units := PlanUnits(bundle);
      if units.None? { return [], false; }
      deferred, ok := RunUnits(env, units.value);
    }

    method RunUnits(env: Env, us: seq<Unit>) returns (deferred: seq<string>, ok: bool)
      modifies this
      ensures Outcome(Value(), deferred, ok) == ApplyUnits(old(Value()), env, us)
    {
      deferred, ok := [], true;
      for i := 0 to |us|
        invariant ok && Outcome(Value(), deferred, ok) == ApplyUnits(old(Value()), env, us[..i])
      {
        assert us[..i + 1][..i] == us[..i];
        var status := RunUnit(env, us[i]);
        if status == Deferred { deferred := Mark(deferred, us[i].jobPath); }
        if status == Failed {
          StopsAt(old(Value()), env, us, i + 1);
          return deferred, false;
        }
      }
      assert us[..|us|] == us;
    }
  }

  lemma {:induction false} StopsAt(fs: Fs, env: Env, us: seq<Unit>, i: nat)
    requires i <= |us| && !ApplyUnits(fs, env, us[..i]).ok
    ensures ApplyUnits(fs, env, us) == ApplyUnits(fs, env, us[..i])
    decreases |us|
  {
    if i == |us| {
      assert us[..i] == us;
    } else {
      assert us[..|us| - 1][..i] == us[..i];
      StopsAt(fs, env, us[..|us| - 1], i);
    }
  }

  /** The first loop: check every path, collect numbers and group builds. */
  method PlanUnits(bundle: seq<BundleFile>) returns (units: Option<seq<Unit>>)
    ensures units == match Entries(bundle) { case None => None case Some(es) => Some(Units(es)) }
  {
    var g, numbers := Grouping([], map[]), [];
    ghost var es := [];
    for i := 0 to |bundle|
      invariant Entries(bundle[..i]) == Some(es) && g == GroupAll(es) && numbers == NumberUnits(es)
    {
      assert bundle[..i + 1][..i] == bundle[..i];
      var e := EntryOf(bundle[i]);
      if e.None? {
        assert Entries(bundle[..i + 1]) == None;
        RefusedStays(bundle, i + 1);
        return None;
      }
      assert (es + [e.value])[..|es|] == es;
      g := AddEntry(g, e.value);
      if e.value.slot.NumberOf? { numbers := numbers + [Unit(e.value.slot, e.value.jobPath, [e.value])]; }
      es := es + [e.value];
    }
    assert bundle[..|bundle|] == bundle;
    return Some(numbers + BuildUnits(g.order, g.groups));
  }

  lemma {:induction false} RefusedStays(files: seq<BundleFile>, i: nat)
    requires i <= |files| && Entries(files[..i]) == None
    ensures Entries(files) == None
    decreases |files|
  {
    if i == |files| {
      assert files[..i] == files;
    } else {
      assert files[..|files| - 1][..i] == files[..i];
      RefusedStays(files[..|files| - 1], i);
    }
  }
}

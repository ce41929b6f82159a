/** What applying a list of units leaves behind, said without order: each entry
    that its own rule lets write on the original tree is written, and nothing
    else changes. */
module RehydrationEffects {
  import opened Strings
  import opened RehydrationApply

  /** The names a checked bundle file is written under. */
  ghost predicate Named(e: Entry) {
    match e.slot
    case NumberOf(_) => e.name == NUMBER_FILE
    case BuildOf(_, _) => e.name == BUILD_FILE || e.name == CHANGELOG_FILE
  }

  /** Every file lies in directories that exist. */
  ghost predicate Closed(fs: Fs) {
    forall p | p in fs.files :: Parents(p) <= fs.dirs
  }

  /** Different jobs of the bundle resolve to different directories. */
  ghost predicate Separate(env: Env, es: set<Entry>) {
    forall e, f | e in es && f in es && JobDir(env, e.slot) == JobDir(env, f.slot) :: e.slot.job == f.slot.job
  }

  /** What the entries that may write do to the original tree. */
  ghost predicate IsResult(fs: Fs, after: Fs, env: Env, es: set<Entry>) {
    && FilesAre(fs.files, after.files, Written(fs, env, es), Wiped(fs, env, es))
    && DataWritten(fs, after.files, env, es)
    && after.dirs == fs.dirs + Made(fs, env, es)
  }

  /** The files that are there, and those left as they were. */
  ghost predicate FilesAre(was: map<Path, string>, after: map<Path, string>, written: set<Path>, wiped: set<Path>) {
    && after.Keys == written + (was.Keys - wiped)
    && (forall p | p in was && p !in written && p !in wiped :: after[p] == was[p])
  }

  ghost predicate DataWritten(fs: Fs, after: map<Path, string>, env: Env, es: set<Entry>) {
    forall e | e in es && Fires(fs, env, e) :: Target(env, e) in after && after[Target(env, e)] == Data(env, e)
  }

  ghost function Written(fs: Fs, env: Env, es: set<Entry>): set<Path> {
    set e | e in es && Fires(fs, env, e) :: Target(env, e)
  }

  /** The temporary files of the writes: whatever had such a name is gone. */
  ghost function Wiped(fs: Fs, env: Env, es: set<Entry>): set<Path> {
    set e | e in es && Fires(fs, env, e) :: Temp(Target(env, e))
  }

  ghost function Made(fs: Fs, env: Env, es: set<Entry>): set<Path> {
    set e, d | e in es && Fires(fs, env, e) && d in Parents(Target(env, e)) :: d
  }

  /** The result is determined: the order of the entries cannot matter. */
  lemma ResultUnique(fs: Fs, a: Fs, b: Fs, env: Env, es: set<Entry>)
    requires IsResult(fs, a, env, es) && IsResult(fs, b, env, es)
    ensures a == b
  {
    assert a.files.Keys == b.files.Keys;
    forall p | p in a.files ensures a.files[p] == b.files[p] {
      if p in Written(fs, env, es) {
        var e :| e in es && Fires(fs, env, e) && Target(env, e) == p;
      }
    }
    assert a.dirs == b.dirs;
  }

  // --- Targets do not collide ---

  lemma LastParts(env: Env, e: Entry)
    requires Named(e)
    ensures var t := Target(env, e);
            && t != [] && t[|t| - 1] == e.name
            && (e.slot.NumberOf? ==> t[..|t| - 1] == JobDir(env, e.slot))
            && (e.slot.BuildOf? ==> t[..|t| - 1] == BuildDir(env, e.slot))
  {
  }

  lemma BuildDirsDiffer(env: Env, a: Slot, b: Slot)
    requires a.BuildOf? && b.BuildOf? && BuildDir(env, a) == BuildDir(env, b)
    ensures JobDir(env, a) == JobDir(env, b) && a.n == b.n
  {
    var x, y := BuildDir(env, a), BuildDir(env, b);
    assert x[|x| - 1] == Decimal(a.n) && y[|y| - 1] == Decimal(b.n);
    DecimalInjective(a.n, b.n);
    assert x[..|x| - 2] == JobDir(env, a) && y[..|y| - 2] == JobDir(env, b);
  }

  lemma TargetsDiffer(env: Env, e: Entry, f: Entry)
    requires Named(e) && Named(f) && Target(env, e) == Target(env, f)
    ensures JobDir(env, e.slot) == JobDir(env, f.slot) && e.name == f.name
    ensures e.slot.NumberOf? <==> f.slot.NumberOf?
    ensures e.slot.BuildOf? ==> e.slot.n == f.slot.n
  {
    LastParts(env, e);
    LastParts(env, f);
    if e.slot.BuildOf? && f.slot.BuildOf? { BuildDirsDiffer(env, e.slot, f.slot); }
  }

  lemma ConfigUntouched(env: Env, e: Entry, slot: Slot)
    requires Named(e)
    ensures Target(env, e) != JobDir(env, slot) + [CONFIG_FILE]
  {
    LastParts(env, e);
    var c := JobDir(env, slot) + [CONFIG_FILE];
    assert c[|c| - 1] == CONFIG_FILE;
  }

  /** A temporary file is none of the files an apply reads or writes. */
  lemma TempApart(env: Env, e: Entry, p: Path)
    requires Named(e) && p != [] && p[|p| - 1] in {CONFIG_FILE, NUMBER_FILE, BUILD_FILE, CHANGELOG_FILE}
    ensures Temp(Target(env, e)) != p
  {
    var last, q := p[|p| - 1], Temp(Target(env, e));
    LastParts(env, e);
    assert q[|q| - 1] == e.name + ".tmp";
    assert (e.name + ".tmp")[|e.name + ".tmp"| - 1] == 'p';
    assert last[|last| - 1] != 'p';
  }

  /** No write of good entries wipes a file of these names. */
  lemma NotWiped(fs: Fs, env: Env, es: set<Entry>, p: Path)
    requires forall e | e in es :: Named(e)
    requires p != [] && p[|p| - 1] in {CONFIG_FILE, NUMBER_FILE, BUILD_FILE, CHANGELOG_FILE}
    ensures p !in Wiped(fs, env, es)
  {
    forall e | e in es ensures Temp(Target(env, e)) != p { TempApart(env, e, p); }
  }

  lemma TargetNotWiped(fs: Fs, env: Env, es: set<Entry>, e: Entry)
    requires Named(e) && forall f | f in es :: Named(f)
    ensures Target(env, e) !in Wiped(fs, env, es)
  {
    LastParts(env, e);
    NotWiped(fs, env, es, Target(env, e));
  }

  /** A build directory that writing e may create is e's own, or one that the
      job's directory already implies. */
  lemma MadeDirs(env: Env, e: Entry, slot: Slot)
    requires Named(e) && slot.BuildOf? && BuildDir(env, slot) in Parents(Target(env, e))
    ensures || BuildDir(env, slot) in Parents(JobDir(env, e.slot) + [CONFIG_FILE])
            || (e.slot.BuildOf? && BuildDir(env, slot) == BuildDir(env, e.slot))
  {
    var t, d, dir := Target(env, e), BuildDir(env, slot), JobDir(env, e.slot);
    var i :| 0 <= i < |t| && d == t[..i];
    if i <= |dir| {
      assert t[..i] == (dir + [CONFIG_FILE])[..i];
    } else {
      DecimalValue(slot.n);
      assert d[i - 1] == Decimal(slot.n) && IsDigit(d[i - 1][0]);
      assert t[i - 1] == d[i - 1];
      assert i == |dir| + 2;
      assert t[..i] == BuildDir(env, e.slot);
    }
  }

  // --- One entry ---

  /** Entries of other slots do not change whether e may write. */
  lemma FiresStable(fs: Fs, g: Fs, env: Env, es: set<Entry>, e: Entry)
    requires Closed(fs) && IsResult(fs, g, env, es) && Named(e) && Separate(env, es + {e})
    requires forall f | f in es :: Named(f) && f.slot != e.slot
    ensures Fires(g, env, e) <==> Fires(fs, env, e)
    ensures JobExists(g, env, e.slot) <==> JobExists(fs, env, e.slot)
  {
    var cfg := JobDir(env, e.slot) + [CONFIG_FILE];
    forall f | f in es ensures Target(env, f) != cfg { ConfigUntouched(env, f, e.slot); }
    assert cfg !in Written(fs, env, es);
    NotWiped(fs, env, es, cfg);
    if e.slot.NumberOf? {
      forall f | f in es ensures Target(env, f) != Target(env, e) {
        if Target(env, f) == Target(env, e) { TargetsDiffer(env, e, f); }
      }
      assert Target(env, e) !in Written(fs, env, es);
      TargetNotWiped(fs, env, es, e);
    } else {
      if BuildDir(env, e.slot) in Made(fs, env, es) { DirStable(fs, env, es, e); }
    }
  }

  lemma DirStable(fs: Fs, env: Env, es: set<Entry>, e: Entry)
    requires Closed(fs) && e.slot.BuildOf? && Separate(env, es + {e})
    requires forall f | f in es :: Named(f) && f.slot != e.slot
    requires BuildDir(env, e.slot) in Made(fs, env, es)
    ensures BuildDir(env, e.slot) in fs.dirs
  {
    var f :| f in es && Fires(fs, env, f) && BuildDir(env, e.slot) in Parents(Target(env, f));
    MadeDirs(env, f, e.slot);
    if f.slot.BuildOf? && BuildDir(env, e.slot) == BuildDir(env, f.slot) { BuildDirsDiffer(env, e.slot, f.slot); }
  }

  lemma WrittenWith(fs: Fs, env: Env, es: set<Entry>, e: Entry)
    ensures Written(fs, env, es + {e}) == Written(fs, env, es) + if Fires(fs, env, e) then {Target(env, e)} else {}
  {
  }

  lemma WipedWith(fs: Fs, env: Env, es: set<Entry>, e: Entry)
    ensures Wiped(fs, env, es + {e}) == Wiped(fs, env, es) + if Fires(fs, env, e) then {Temp(Target(env, e))} else {}
  {
  }

  lemma MadeWith(fs: Fs, env: Env, es: set<Entry>, e: Entry)
    ensures Made(fs, env, es + {e}) == Made(fs, env, es) + if Fires(fs, env, e) then Parents(Target(env, e)) else {}
  {
  }

  /** One more write on a map of files. */
  lemma PutMap(was: map<Path, string>, g: map<Path, string>, written: set<Path>, wiped: set<Path>,
               t: Path, temp: Path, data: string)
    requires FilesAre(was, g, written, wiped) && temp != t && temp !in written && t !in wiped
    ensures FilesAre(was, (g - {temp})[t := data], written + {t}, wiped + {temp})
  {
  }

  lemma PutData(fs: Fs, g: map<Path, string>, env: Env, es: set<Entry>, e: Entry)
    requires DataWritten(fs, g, env, es) && NoClash(env, es, e)
    ensures DataWritten(fs, (g - {Temp(Target(env, e))})[Target(env, e) := Data(env, e)], env, es + {e})
  {
  }

  /** Neither the file nor the temporary file of e is one of the others'. */
  ghost predicate NoClash(env: Env, es: set<Entry>, e: Entry) {
    && Temp(Target(env, e)) != Target(env, e)
    && forall f | f in es ::
         && Target(env, f) != Target(env, e)
         && Temp(Target(env, f)) != Target(env, e) && Temp(Target(env, e)) != Target(env, f)
  }

  lemma GoodNoClash(env: Env, es: set<Entry>, e: Entry)
    requires Named(e) && forall f | f in es :: Named(f) && Target(env, f) != Target(env, e)
    ensures NoClash(env, es, e)
  {
    LastParts(env, e);
    TempApart(env, e, Target(env, e));
    forall f | f in es ensures Temp(Target(env, f)) != Target(env, e) && Temp(Target(env, e)) != Target(env, f) {
      LastParts(env, f);
      TempApart(env, e, Target(env, f));
      TempApart(env, f, Target(env, e));
    }
  }

  lemma PutResult(fs: Fs, g: Fs, env: Env, es: set<Entry>, e: Entry)
    requires IsResult(fs, g, env, es) && Fires(fs, env, e)
    requires Named(e) && forall f | f in es :: Named(f) && Target(env, f) != Target(env, e)
    ensures IsResult(fs, Put(g, Target(env, e), Data(env, e)), env, es + {e})
  {
    GoodNoClash(env, es, e);
    PutFiles(fs, g.files, env, es, e);
    PutData(fs, g.files, env, es, e);
    MadeWith(fs, env, es, e);
  }

  lemma PutFiles(fs: Fs, g: map<Path, string>, env: Env, es: set<Entry>, e: Entry)
    requires FilesAre(fs.files, g, Written(fs, env, es), Wiped(fs, env, es)) && Fires(fs, env, e) && NoClash(env, es, e)
    ensures FilesAre(fs.files, (g - {Temp(Target(env, e))})[Target(env, e) := Data(env, e)],
                     Written(fs, env, es + {e}), Wiped(fs, env, es + {e}))
  {
    var t := Target(env, e);
    assert Temp(t) !in Written(fs, env, es) && t !in Wiped(fs, env, es);
    PutMap(fs.files, g, Written(fs, env, es), Wiped(fs, env, es), t, Temp(t), Data(env, e));
    WrittenWith(fs, env, es, e);
    WipedWith(fs, env, es, e);
  }

  lemma SkipResult(fs: Fs, g: Fs, env: Env, es: set<Entry>, e: Entry)
    requires IsResult(fs, g, env, es) && !Fires(fs, env, e)
    ensures IsResult(fs, g, env, es + {e})
  {
    WrittenWith(fs, env, es, e);
    WipedWith(fs, env, es, e);
    MadeWith(fs, env, es, e);
  }

  // --- One unit ---

  ghost predicate GoodUnit(u: Unit) {
    && u.entries != [] && (u.slot.NumberOf? ==> |u.entries| == 1)
    && (forall i | 0 <= i < |u.entries| ::
          Named(u.entries[i]) && u.entries[i].slot == u.slot && u.entries[i].jobPath == u.jobPath)
    && (forall i, j | 0 <= i < j < |u.entries| :: u.entries[i].name != u.entries[j].name)
  }

  ghost function SetOf(es: seq<Entry>): set<Entry> {
    set e | e in es
  }

  lemma SetOfCons(es: set<Entry>, todo: seq<Entry>)
    requires todo != []
    ensures es + {todo[0]} + SetOf(todo[1..]) == es + SetOf(todo)
  {
    assert todo == [todo[0]] + todo[1..];
  }

  /** Files of one build, each under its own name. */
  ghost predicate SameBuild(slot: Slot, todo: seq<Entry>) {
    && slot.BuildOf?
    && (forall i | 0 <= i < |todo| :: Named(todo[i]) && todo[i].slot == slot)
    && (forall i, j | 0 <= i < j < |todo| :: todo[i].name != todo[j].name)
  }

  ghost predicate NoTarget(env: Env, es: set<Entry>, todo: seq<Entry>) {
    forall f, i | f in es && 0 <= i < |todo| :: Target(env, f) != Target(env, todo[i])
  }

  lemma NoTargetTail(env: Env, es: set<Entry>, slot: Slot, todo: seq<Entry>)
    requires SameBuild(slot, todo) && NoTarget(env, es, todo) && todo != []
    ensures SameBuild(slot, todo[1..]) && NoTarget(env, es + {todo[0]}, todo[1..])
  {
    forall f, i | f in es + {todo[0]} && 0 <= i < |todo[1..]| ensures Target(env, f) != Target(env, todo[1..][i]) {
      assert todo[1..][i] == todo[i + 1];
      LastParts(env, todo[0]);
      LastParts(env, todo[i + 1]);
    }
  }

  /** Entries of one build may all write together. */
  lemma {:induction false} PutAllResult(fs: Fs, g: Fs, env: Env, es: set<Entry>, slot: Slot, todo: seq<Entry>)
    requires IsResult(fs, g, env, es) && SameBuild(slot, todo) && NoTarget(env, es, todo)
    requires forall i | 0 <= i < |todo| :: todo[i].file.inflates
    requires JobExists(fs, env, slot) && BuildDir(env, slot) !in fs.dirs && forall f | f in es :: Named(f)
    ensures PutAll(g, env, todo).1 == Done && IsResult(fs, PutAll(g, env, todo).0, env, es + SetOf(todo))
    decreases |todo|
  {
    if todo == [] {
      assert es + SetOf(todo) == es;
    } else {
      var e := todo[0];
      assert Named(e) && Fires(fs, env, e);
      PutResult(fs, g, env, es, e);
      NoTargetTail(env, es, slot, todo);
      PutAllResult(fs, Put(g, Target(env, e), Data(env, e)), env, es + {e}, slot, todo[1..]);
      SetOfCons(es, todo);
    }
  }

  lemma {:induction false} SkipAll(fs: Fs, g: Fs, env: Env, es: set<Entry>, todo: seq<Entry>)
    requires IsResult(fs, g, env, es)
    requires forall i | 0 <= i < |todo| :: !Fires(fs, env, todo[i])
    ensures IsResult(fs, g, env, es + SetOf(todo))
    decreases |todo|
  {
    if todo == [] {
      assert es + SetOf(todo) == es;
    } else {
      SkipResult(fs, g, env, es, todo[0]);
      SkipAll(fs, g, env, es + {todo[0]}, todo[1..]);
      SetOfCons(es, todo);
    }
  }

  ghost predicate Apart(env: Env, es: set<Entry>, u: Unit) {
    && GoodUnit(u) && Separate(env, es + SetOf(u.entries))
    && (forall f | f in es :: Named(f) && f.slot != u.slot)
  }

  lemma TargetsApart(env: Env, es: set<Entry>, u: Unit, f: Entry, e: Entry)
    requires Apart(env, es, u) && f in es && e in u.entries
    ensures Target(env, f) != Target(env, e)
  {
    assert e in es + SetOf(u.entries) && f in es + SetOf(u.entries);
    if Target(env, f) == Target(env, e) { TargetsDiffer(env, e, f); }
  }

  lemma UnitStable(fs: Fs, g: Fs, env: Env, es: set<Entry>, u: Unit)
    requires Closed(fs) && IsResult(fs, g, env, es) && Apart(env, es, u)
    ensures JobExists(g, env, u.slot) <==> JobExists(fs, env, u.slot)
    ensures forall i | 0 <= i < |u.entries| :: Fires(g, env, u.entries[i]) <==> Fires(fs, env, u.entries[i])
  {
    forall i | 0 <= i < |u.entries|
      ensures Fires(g, env, u.entries[i]) <==> Fires(fs, env, u.entries[i])
      ensures JobExists(g, env, u.slot) <==> JobExists(fs, env, u.slot)
    {
      assert Separate(env, es + {u.entries[i]});
      FiresStable(fs, g, env, es, u.entries[i]);
    }
    assert Named(u.entries[0]);
  }

  /** The entry does not stop the apply: its job is missing, or its build exists
      already, or its content inflates and, for a number file, is a number. */
  ghost predicate Passes(fs: Fs, env: Env, e: Entry) {
    || !JobExists(fs, env, e.slot)
    || (e.slot.BuildOf? && (BuildDir(env, e.slot) in fs.dirs || e.file.inflates))
    || (e.slot.NumberOf? && e.file.inflates && NumberIn(e.file.content).Some?)
  }

  ghost predicate AllPass(fs: Fs, env: Env, u: Unit) {
    forall i | 0 <= i < |u.entries| :: Passes(fs, env, u.entries[i])
  }

  lemma {:induction false} PutAllStops(g: Fs, env: Env, todo: seq<Entry>, i: nat)
    requires i < |todo| && !todo[i].file.inflates
    ensures PutAll(g, env, todo).1 == Failed
    decreases |todo|
  {
    if todo[0].file.inflates {
      PutAllStops(Put(g, Target(env, todo[0]), Data(env, todo[0])), env, todo[1..], i - 1);
    }
  }

  /** A unit with an entry that does not pass stops the apply. */
  lemma UnitFails(fs: Fs, g: Fs, env: Env, es: set<Entry>, u: Unit)
    requires Closed(fs) && IsResult(fs, g, env, es) && Apart(env, es, u) && !AllPass(fs, env, u)
    ensures ApplyUnit(g, env, u).1 == Failed
  {
    UnitStable(fs, g, env, es, u);
    var i :| 0 <= i < |u.entries| && !Passes(fs, env, u.entries[i]);
    assert u.entries[i].slot == u.slot && Named(u.entries[i]);
    if u.slot.BuildOf? {
      assert Fires(fs, env, u.entries[i]) && Fires(g, env, u.entries[i]);
      PutAllStops(g, env, u.entries, i);
    }
  }

  /** Applying a unit on top of a result extends the result by its entries. */
  lemma UnitResult(fs: Fs, g: Fs, env: Env, es: set<Entry>, u: Unit)
    requires Closed(fs) && IsResult(fs, g, env, es) && Apart(env, es, u) && AllPass(fs, env, u)
    ensures IsResult(fs, ApplyUnit(g, env, u).0, env, es + SetOf(u.entries))
    ensures ApplyUnit(g, env, u).1 == if JobExists(fs, env, u.slot) then Done else Deferred
  {
    UnitStable(fs, g, env, es, u);
    if !JobExists(fs, env, u.slot) {
      SkipAll(fs, g, env, es, u.entries);
    } else if u.slot.BuildOf? {
      BuildResult(fs, g, env, es, u);
    } else {
      NumberResult(fs, g, env, es, u);
    }
  }

  lemma BuildResult(fs: Fs, g: Fs, env: Env, es: set<Entry>, u: Unit)
    requires IsResult(fs, g, env, es) && Apart(env, es, u) && u.slot.BuildOf? && AllPass(fs, env, u)
    requires JobExists(fs, env, u.slot) && JobExists(g, env, u.slot)
    requires forall i | 0 <= i < |u.entries| :: Fires(g, env, u.entries[i]) <==> Fires(fs, env, u.entries[i])
    ensures IsResult(fs, ApplyUnit(g, env, u).0, env, es + SetOf(u.entries)) && ApplyUnit(g, env, u).1 == Done
  {
    assert Named(u.entries[0]) && (Fires(g, env, u.entries[0]) <==> Fires(fs, env, u.entries[0]));
    if BuildDir(env, u.slot) in g.dirs {
      SkipAll(fs, g, env, es, u.entries);
    } else {
      forall f, i | f in es && 0 <= i < |u.entries| ensures Target(env, f) != Target(env, u.entries[i]) {
        TargetsApart(env, es, u, f, u.entries[i]);
      }
      assert forall i | 0 <= i < |u.entries| :: Passes(fs, env, u.entries[i]) && u.entries[i].file.inflates;
      PutAllResult(fs, g, env, es, u.slot, u.entries);
    }
  }

  lemma NumberResult(fs: Fs, g: Fs, env: Env, es: set<Entry>, u: Unit)
    requires IsResult(fs, g, env, es) && Apart(env, es, u) && u.slot.NumberOf? && AllPass(fs, env, u)
    requires JobExists(fs, env, u.slot) && JobExists(g, env, u.slot)
    requires forall i | 0 <= i < |u.entries| :: Fires(g, env, u.entries[i]) <==> Fires(fs, env, u.entries[i])
    ensures IsResult(fs, ApplyUnit(g, env, u).0, env, es + SetOf(u.entries)) && ApplyUnit(g, env, u).1 == Done
  {
    assert Passes(fs, env, u.entries[0]);
    NumberStep(g, env, u);
    NumberAfter(fs, g, env, es, u, u.entries[0]);
    SingleEntry(u);
  }

  lemma SingleEntry(u: Unit)
    requires |u.entries| == 1
    ensures SetOf(u.entries) == {u.entries[0]}
  {
  }

  lemma NumberAfter(fs: Fs, g: Fs, env: Env, es: set<Entry>, u: Unit, e: Entry)
    requires IsResult(fs, g, env, es) && Apart(env, es, u) && e in u.entries
    requires Fires(g, env, e) <==> Fires(fs, env, e)
    ensures IsResult(fs, if Fires(g, env, e) then Put(g, Target(env, e), Data(env, e)) else g, env, es + {e})
  {
    if Fires(fs, env, e) {
      NumberPut(fs, g, env, es, u, e);
    } else {
      SkipResult(fs, g, env, es, e);
    }
  }

  lemma NumberPut(fs: Fs, g: Fs, env: Env, es: set<Entry>, u: Unit, e: Entry)
    requires IsResult(fs, g, env, es) && Apart(env, es, u) && e in u.entries && Fires(fs, env, e)
    ensures IsResult(fs, Put(g, Target(env, e), Data(env, e)), env, es + {e})
  {
    forall f | f in es ensures Target(env, f) != Target(env, e) { TargetsApart(env, es, u, f, e); }
    PutResult(fs, g, env, es, e);
  }

  lemma NumberStep(g: Fs, env: Env, u: Unit)
    requires GoodUnit(u) && u.slot.NumberOf? && JobExists(g, env, u.slot)
    requires u.entries[0].file.inflates && NumberIn(u.entries[0].file.content).Some?
    ensures var e := u.entries[0];
            ApplyUnit(g, env, u) == (if Fires(g, env, e) then Put(g, Target(env, e), Data(env, e)) else g, Done)
  {
    assert Named(u.entries[0]) && u.entries[0].slot == u.slot;
  }
}

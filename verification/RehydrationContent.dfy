/** What a successful apply leaves of each bundle file, said by its path: where
    it lands, when it is written, and with which content. */
module RehydrationContent {
  import opened Options
  import opened Strings
  import opened RehydrationPath
  import opened RehydrationApply
  import opened RehydrationEffects
  import RehydrationSafety
  import opened RehydrationTheorems

  // --- Bundle files and numbers ---

  /** Every accepted path is an entry, filed by its job and build; only number
      files and build.xml keep their names. */
  lemma EntryExactly(f: BundleFile)
    ensures EntryOf(f).Some? <==> Parse(f.path).Ok?
    ensures EntryOf(f).Some? ==>
              var e, p := EntryOf(f).value, Parse(f.path).value;
              && e.file == f && e.jobPath == p.jobPath
              && (if p.kind.NextBuildNumber? then e.slot == NumberOf(p.jobDirParts) && e.name == "nextBuildNumber"
                  else && e.slot == BuildOf(p.jobDirParts, p.buildNumber)
                       && e.name == if p.kind.BuildXml? then "build.xml" else "changelog0.xml")
  {
  }

  /** The text is a sign and digits between blanks, and they say n. */
  ghost predicate Spells(text: string, before: string, sign: string, digits: string, behind: string, n: int) {
    && text == before + (sign + digits) + behind && Blank(before) && Blank(behind)
    && (sign == "" || sign == "+" || sign == "-") && digits != "" && AllDigits(digits)
    && n == (if sign == "-" then -1 else 1) * Value(digits)
  }

  /** A text holds a number exactly when it spells one within 64 bits. */
  lemma NumberInExactly(text: string, n: int)
    ensures NumberIn(text) == Some(n) <==>
              && -0x8000_0000_0000_0000 <= n <= 0x7FFF_FFFF_FFFF_FFFF
              && exists before, sign, digits, behind :: Spells(text, before, sign, digits, behind, n)
  {
    if NumberIn(text) == Some(n) {
      var before, behind := TrimmedBetween(text);
      var s := TrimSpace(text);
      if s[0] == '-' || s[0] == '+' {
        assert s == [s[0]] + s[1..];
        assert Spells(text, before, [s[0]], s[1..], behind, n);
      } else {
        assert s == "" + s;
        assert Spells(text, before, "", s, behind, n);
      }
    }
    if before, sign, digits, behind :| Spells(text, before, sign, digits, behind, n) {
      SpelledNumber(text, before, sign, digits, behind, n);
    }
  }

  lemma SpelledNumber(text: string, before: string, sign: string, digits: string, behind: string, n: int)
    requires Spells(text, before, sign, digits, behind, n)
    ensures NumberIn(text) == if -0x8000_0000_0000_0000 <= n <= 0x7FFF_FFFF_FFFF_FFFF then Some(n) else None
  {
    var s := sign + digits;
    assert IsDigit(digits[0]) && IsDigit(digits[|digits| - 1]);
    assert s[|s| - 1] == digits[|digits| - 1];
    assert sign == "" ==> s == digits;
    assert sign != "" ==> s[0] == sign[0] && s[1..] == digits;
    TrimmedText(before, s, behind);
  }

  // --- Where a file lands ---

  /** The job's resolved directory, then what the path has behind the job. */
  function Landing(env: Env, f: BundleFile): Path
    requires GoodFile(f)
  {
    var parts := Split(f.path, '/');
    env.resolve(JobOf(f)) + if |JobOf(f)| <= |parts| then parts[|JobOf(f)|..] else []
  }

  lemma LandsAt(env: Env, f: BundleFile)
    requires GoodFile(f)
    ensures EntryOf(f).Some? && Landing(env, f) == Target(env, EntryOf(f).value)
    ensures |JobOf(f)| <= |Split(f.path, '/')| && Split(f.path, '/')[..|JobOf(f)|] == JobOf(f)
  {
    var s := GoodShape(f);
    GoodFileEntry(f);
    ParsePrint(s);
    PartsFree(s);
    SplitJoin(Parts(s), '/');
    assert Split(f.path, '/') == JobDirs(s.segs) + Tail(s) && JobOf(f) == JobDirs(s.segs);
    assert Split(f.path, '/')[|JobOf(f)|..] == Tail(s);
  }

  /** A job that keeps its own directory gets the file at the parts of its path. */
  lemma LandsAtPath(env: Env, f: BundleFile)
    requires GoodFile(f) && env.resolve(JobOf(f)) == JobOf(f)
    ensures Landing(env, f) == Split(f.path, '/')
  {
    LandsAt(env, f);
  }

  // --- Replacing the first occurrence ---

  predicate OccursAt(s: string, x: string, k: nat) {
    k + |x| <= |s| && s[k..k + |x|] == x
  }

  ghost predicate FirstAt(s: string, x: string, k: nat) {
    OccursAt(s, x, k) && forall i: nat | i < k :: !OccursAt(s, x, i)
  }

  /** r is s with the first x, if any, replaced by y. */
  ghost predicate Replaced(s: string, x: string, y: string, r: string) {
    && (forall k: nat | FirstAt(s, x, k) :: r == s[..k] + y + s[k + |x|..])
    && ((forall k: nat :: !OccursAt(s, x, k)) ==> r == s)
  }

  lemma OccursTail(s: string, x: string, k: nat)
    requires s != ""
    ensures OccursAt(s, x, k + 1) <==> OccursAt(s[1..], x, k)
  {
    if k + 1 + |x| <= |s| { assert s[k + 1..k + 1 + |x|] == s[1..][k..k + |x|]; }
  }

  lemma {:induction false} ReplacesFirst(s: string, x: string, y: string)
    ensures Replaced(s, x, y, ReplaceFirst(s, x, y))
  {
    if x <= s {
      assert OccursAt(s, x, 0);
      assert s[..0] + y + s[|x|..] == y + s[|x|..];
    } else if s != "" {
      ReplacesFirst(s[1..], x, y);
      assert !OccursAt(s, x, 0) by { if |x| <= |s| { assert s[0..|x|] == s[..|x|]; } }
      forall k: nat ensures OccursAt(s, x, k + 1) <==> OccursAt(s[1..], x, k) { OccursTail(s, x, k); }
      forall k: nat | FirstAt(s, x, k) ensures ReplaceFirst(s, x, y) == s[..k] + y + s[k + |x|..] {
        ReplaceStep(s, x, y, k, ReplaceFirst(s[1..], x, y));
      }
      if forall k: nat :: !OccursAt(s, x, k) {
        assert forall k: nat :: !OccursAt(s[1..], x, k) by {
          forall k: nat ensures !OccursAt(s[1..], x, k) { assert !OccursAt(s, x, k + 1); }
        }
      }
    }
  }

  lemma FirstInTail(s: string, x: string, k: nat)
    requires s != "" && FirstAt(s, x, k) && k > 0
    ensures FirstAt(s[1..], x, k - 1)
  {
    OccursTail(s, x, k - 1);
    forall i: nat | i < k - 1 ensures !OccursAt(s[1..], x, i) { OccursTail(s, x, i); }
  }

  lemma Regrouped(s: string, y: string, k: nat, m: nat)
    requires 0 < k <= m <= |s|
    ensures [s[0]] + (s[1..][..k - 1] + y + s[1..][m - 1..]) == s[..k] + y + s[m..]
  {
    assert s[..k] == [s[0]] + s[1..][..k - 1];
    assert s[1..][m - 1..] == s[m..];
  }

  lemma ReplaceStep(s: string, x: string, y: string, k: nat, rest: string)
    requires s != "" && FirstAt(s, x, k) && k > 0 && Replaced(s[1..], x, y, rest)
    ensures [s[0]] + rest == s[..k] + y + s[k + |x|..]
  {
    FirstInTail(s, x, k);
    Regrouped(s, y, k, k + |x|);
  }

  // --- What becomes of each file ---

  ghost predicate SameAt(a: Fs, b: Fs, p: Path) {
    (p in a.files <==> p in b.files) && (p in a.files && p in b.files ==> a.files[p] == b.files[p])
  }

  ghost predicate HasFile(fs: Fs, p: Path, content: string) {
    p in fs.files && fs.files[p] == content
  }

  predicate HasConfig(fs: Fs, env: Env, f: BundleFile)
    requires GoodFile(f)
  {
    env.resolve(JobOf(f)) + ["config.xml"] in fs.files
  }

  predicate HasBuild(fs: Fs, env: Env, f: BundleFile)
    requires GoodFile(f)
  {
    env.resolve(JobOf(f)) + ["builds", Decimal(Parse(f.path).value.buildNumber)] in fs.dirs
  }

  /** The job's stored number parses and is at least the file's. */
  predicate HasNumber(fs: Fs, env: Env, f: BundleFile)
    requires GoodFile(f)
  {
    var p := env.resolve(JobOf(f)) + ["nextBuildNumber"];
    && p in fs.files && NumberIn(fs.files[p]).Some? && NumberIn(f.content).Some?
    && NumberIn(fs.files[p]).value >= NumberIn(f.content).value
  }

  /** The changelog reference in a build.xml below the given job directory. */
  function RefBelow(env: Env, f: BundleFile, dir: Path): string
    requires GoodFile(f)
  {
    var n := Decimal(Parse(f.path).value.buildNumber);
    env.escape("/" + Join(dir, '/') + "/builds/" + n + "/changelog0.xml") + "</changelogFile>"
  }

  /** A build.xml of a moved job: its content with the first reference to the
      changelog below the logical directory moved to the resolved one. */
  ghost predicate MovedContent(env: Env, f: BundleFile, written: string)
    requires GoodFile(f)
  {
    Replaced(f.content, RefBelow(env, f, JobOf(f)), RefBelow(env, f, env.resolve(JobOf(f))), written)
  }

  lemma WhenItFires(fs: Fs, env: Env, f: BundleFile)
    requires GoodFile(f)
    ensures EntryOf(f).Some?
    ensures var e, kind := EntryOf(f).value, Parse(f.path).value.kind;
            && (JobExists(fs, env, e.slot) <==> HasConfig(fs, env, f))
            && (Fires(fs, env, e) <==>
                  && HasConfig(fs, env, f)
                  && if kind.NextBuildNumber? then !HasNumber(fs, env, f) else !HasBuild(fs, env, f))
            && (Passes(fs, env, e) <==>
                  || !HasConfig(fs, env, f)
                  || (if kind.NextBuildNumber? then f.inflates && NumberIn(f.content).Some?
                      else HasBuild(fs, env, f) || f.inflates))
  {
    GoodFileEntry(f);
  }

  /** The apply of a good bundle succeeds exactly when every file of a job with
      a config.xml whose content is needed inflates, and every such number file
      holds a number. */
  lemma SucceedsExactly(fs: Fs, env: Env, files: seq<BundleFile>)
    requires Closed(fs) && GoodBundle(env, files)
    ensures Apply(fs, env, files).ok <==>
              forall f | f in files && HasConfig(fs, env, f) ::
                if Parse(f.path).value.kind.NextBuildNumber? then f.inflates && NumberIn(f.content).Some?
                else HasBuild(fs, env, f) || f.inflates
  {
    ApplyExactly(fs, env, files);
    forall f | f in files
      ensures GoodFile(f) && EntryOf(f).Some? && EntryOf(f).value in EntrySet(files)
      ensures Passes(fs, env, EntryOf(f).value) <==>
                || !HasConfig(fs, env, f)
                || (if Parse(f.path).value.kind.NextBuildNumber? then f.inflates && NumberIn(f.content).Some?
                    else HasBuild(fs, env, f) || f.inflates)
    {
      WhenItFires(fs, env, f);
    }
  }

  /** A bundle with a path outside the accepted shapes is refused before
      anything is written. */
  lemma RefusedWritesNothing(fs: Fs, env: Env, files: seq<BundleFile>, f: BundleFile)
    requires f in files && Parse(f.path).Err?
    ensures Apply(fs, env, files) == Outcome(fs, [], false)
  {
    RehydrationSafety.EntriesAre(files);
    var i :| 0 <= i < |files| && files[i] == f;
  }

  lemma ResultAt(fs: Fs, after: Fs, env: Env, es: set<Entry>, e: Entry)
    requires IsResult(fs, after, env, es) && OwnTargets(env, es) && e in es
    ensures if Fires(fs, env, e)
            then HasFile(after, Target(env, e), Data(env, e))
            else SameAt(fs, after, Target(env, e))
  {
    if !Fires(fs, env, e) {
      assert Target(env, e) !in Written(fs, env, es);
      TargetNotWiped(fs, env, es, e);
    }
  }

  lemma DataIs(env: Env, f: BundleFile)
    requires GoodFile(f)
    ensures EntryOf(f).Some?
    ensures var data := Data(env, EntryOf(f).value);
            if Parse(f.path).value.kind.BuildXml? && env.resolve(JobOf(f)) != JobOf(f)
            then MovedContent(env, f, data) else data == f.content
  {
    GoodFileEntry(f);
    var e := EntryOf(f).value;
    assert "/" + CHANGELOG_FILE == "/changelog0.xml";
    if Parse(f.path).value.kind.BuildXml? && env.resolve(JobOf(f)) != JobOf(f) {
      RefIs(env, f, JobOf(f));
      RefIs(env, f, env.resolve(JobOf(f)));
      ReplacesFirst(f.content, RefBelow(env, f, JobOf(f)), RefBelow(env, f, env.resolve(JobOf(f))));
    }
  }

  lemma RefIs(env: Env, f: BundleFile, dir: Path)
    requires GoodFile(f)
    ensures ChangelogRef(env, dir, Parse(f.path).value.buildNumber) == RefBelow(env, f, dir)
  {
    var n := Decimal(Parse(f.path).value.buildNumber);
    assert "/" + CHANGELOG_FILE == "/changelog0.xml";
    assert "/" + Join(dir, '/') + "/builds/" + n + "/" + CHANGELOG_FILE
        == "/" + Join(dir, '/') + "/builds/" + n + "/changelog0.xml";
  }

  /** After a successful apply each file is where its path says, with its own
      content, when its job exists and nothing newer is there; otherwise that
      place is as it was. A moved job's files land below its resolved directory,
      its build.xml with the changelog reference moved along. */
  lemma FileExactly(fs: Fs, env: Env, files: seq<BundleFile>, f: BundleFile)
    requires Closed(fs) && GoodBundle(env, files) && f in files && Apply(fs, env, files).ok
    ensures var after, at, kind := Apply(fs, env, files).fs, Landing(env, f), Parse(f.path).value.kind;
            var held := if kind.NextBuildNumber? then HasNumber(fs, env, f) else HasBuild(fs, env, f);
            if !HasConfig(fs, env, f) || held then SameAt(fs, after, at)
            else if kind.BuildXml? && env.resolve(JobOf(f)) != JobOf(f)
            then at in after.files && MovedContent(env, f, after.files[at])
            else HasFile(after, at, f.content)
  {
    ApplyExactly(fs, env, files);
    BundleOwnTargets(env, files);
    WhenItFires(fs, env, f);
    LandsAt(env, f);
    DataIs(env, f);
    var e := EntryOf(f).value;
    assert e in EntrySet(files);
    ResultAt(fs, Apply(fs, env, files).fs, env, EntrySet(files), e);
  }

  /** A job is deferred exactly when it has no config.xml. */
  lemma DeferredExactly(fs: Fs, env: Env, files: seq<BundleFile>, f: BundleFile)
    requires Closed(fs) && GoodBundle(env, files) && f in files && Apply(fs, env, files).ok
    ensures Parse(f.path).value.jobPath in Apply(fs, env, files).deferred <==> !HasConfig(fs, env, f)
  {
    ApplyExactly(fs, env, files);
    WhenItFires(fs, env, f);
    GoodFileEntry(f);
    var e := EntryOf(f).value;
    assert e in EntrySet(files);
    forall h | h in EntrySet(files) && h.jobPath == e.jobPath ensures h.slot.job == e.slot.job {
      var g :| g in files && EntryOf(g) == Some(h);
      GoodFileEntry(g);
      JobPathDeterminesDirs(f.path, g.path);
    }
  }

  predicate IsTempOf(p: Path, q: Path) {
    |p| == |q| > 0 && p[..|p| - 1] == q[..|q| - 1] && p[|p| - 1] == q[|q| - 1] + ".tmp"
  }

  /** A place where no file of the bundle and none of their temporary files lies
      is as it was. */
  lemma ElsewhereSame(fs: Fs, env: Env, files: seq<BundleFile>, p: Path)
    requires Closed(fs) && GoodBundle(env, files) && Apply(fs, env, files).ok && p != []
    requires forall f | f in files :: Landing(env, f) != p && !IsTempOf(p, Landing(env, f))
    ensures SameAt(fs, Apply(fs, env, files).fs, p)
  {
    ApplyExactly(fs, env, files);
    forall e | e in EntrySet(files) ensures Target(env, e) != p && Temp(Target(env, e)) != p {
      var f :| f in files && EntryOf(f) == Some(e);
      LandsAt(env, f);
    }
    assert p !in Written(fs, env, EntrySet(files)) && p !in Wiped(fs, env, EntrySet(files));
  }
}

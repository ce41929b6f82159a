/** The grammar of rehydration file paths: what the parser accepts, what it
    reports, and that an accepted path always stays below the Jenkins home. */
module RehydrationPath {
  import opened Strings

  datatype Kind = BuildXml | Changelog | NextBuildNumber | ProgramDat | WorkflowNode | NodeConfig

  datatype Parsed = Parsed(kind: Kind, jobPath: string, jobDirParts: seq<string>, buildNumber: nat, nodeName: string)

  datatype Result<T> = Ok(value: T) | Err

  /** The largest int of a 64-bit platform. */
  const MAX_INT := 0x7FFF_FFFF_FFFF_FFFF

  // --- The parser ---

  predicate ValidSegment(seg: string) {
    seg != "" && seg[0] != '.' && '/' !in seg && '\\' !in seg
  }

  /** [1-9][0-9]* within int range. */
  function ParseNumber(s: string): Result<nat> {
    if s == "" || !('1' <= s[0] <= '9') || !AllDigits(s) || Value(s) > MAX_INT then Err else Ok(Value(s))
  }

  function FileKind(name: string): Result<Kind> {
    if name == "build.xml" then Ok(BuildXml)
    else if name == "changelog0.xml" then Ok(Changelog)
    else if name == "program.dat" then Ok(ProgramDat)
    else Err
  }

  predicate EndsXml(s: string) {
    |s| >= 4 && s[|s| - 4..] == ".xml"
  }

  function JobDirs(segs: seq<string>): seq<string> {
    if segs == [] then [] else ["jobs", segs[0]] + JobDirs(segs[1..])
  }

  /** The leading jobs/<seg> pairs: each further "jobs" must start a pair. */
  function TakeJobs(parts: seq<string>): Result<seq<string>> {
    if |parts| < 2 || parts[0] != "jobs" || !ValidSegment(parts[1]) then Err
    else if |parts| > 2 && parts[2] == "jobs" then
      match TakeJobs(parts[2..])
      case Ok(segs) => Ok([parts[1]] + segs)
      case Err => Err
    else Ok([parts[1]])
  }

  function ParseRest(segs: seq<string>, rest: seq<string>): Result<Parsed> {
    var job := Parsed(NextBuildNumber, Join(segs, '/'), JobDirs(segs), 0, "");
    if rest == ["nextBuildNumber"] then Ok(job)
    else if |rest| == 3 && rest[0] == "builds" && FileKind(rest[2]).Ok? then
      match ParseNumber(rest[1])
      case Ok(n) => Ok(job.(kind := FileKind(rest[2]).value, buildNumber := n))
      case Err => Err
    else if |rest| == 4 && rest[0] == "builds" && rest[2] == "workflow" && EndsXml(rest[3]) then
      match (ParseNumber(rest[1]), ParseNumber(rest[3][..|rest[3]| - 4]))
      case (Ok(n), Ok(_)) => Ok(job.(kind := WorkflowNode, buildNumber := n))
      case _ => Err
    else Err
  }

  function ParseNode(parts: seq<string>): Result<Parsed> {
    if |parts| == 3 && parts[2] == "config.xml" && ValidSegment(parts[1])
    then Ok(Parsed(NodeConfig, "", [], 0, parts[1])) else Err
  }

  function ParseParts(parts: seq<string>): Result<Parsed>
    requires parts != []
  {
    if parts[0] == "nodes" then ParseNode(parts)
    else
      match TakeJobs(parts)
      case Ok(segs) => if 2 * |segs| <= |parts| then ParseRest(segs, parts[2 * |segs|..]) else Err
      case Err => Err
  }

  function Parse(rel: string): Result<Parsed> {
    if rel == "" then Err else ParseParts(Split(rel, '/'))
  }

  method ParseRehydrationPath(rel: string) returns (r: Result<Parsed>)
    ensures r == Parse(rel)
  {
    if rel == "" { return Err; }
    var parts := Split(rel, '/');
    if parts[0] == "nodes" { return ParseNode(parts); }
    var segs := TakeJobPairs(parts);
    if segs.Err? { return Err; }
    return ParseRest(segs.value, parts[2 * |segs.value|..]);
  }

  /** The parser's index loop over the job pairs. */
  method TakeJobPairs(parts: seq<string>) returns (r: Result<seq<string>>)
    ensures r == TakeJobs(parts)
    ensures r.Ok? ==> 2 * |r.value| <= |parts|
  {
    var segs: seq<string>, i := [], 0;
    assert parts[0..] == parts;
    while true
      invariant i == 2 * |segs| <= |parts|
      invariant TakeJobs(parts).Ok? <==> TakeJobs(parts[i..]).Ok?
      invariant TakeJobs(parts).Ok? ==> TakeJobs(parts).value == segs + TakeJobs(parts[i..]).value
      decreases |parts| - i
    {
      if i >= |parts| || parts[i] != "jobs" { return Err; }
      if i + 1 >= |parts| { return Err; }
      if !ValidSegment(parts[i + 1]) { return Err; }
      assert parts[i..][2..] == parts[i + 2..];
      segs := segs + [parts[i + 1]];
      i := i + 2;
      if i >= |parts| || parts[i] != "jobs" { return Ok(segs); }
    }
  }

  // --- The six shapes ---

  datatype FilePath =
    | BuildFile(segs: seq<string>, n: nat, file: Kind)
    | WorkflowFile(segs: seq<string>, n: nat, m: nat)
    | NumberFile(segs: seq<string>)
    | NodeFile(name: string)

  ghost predicate Segments(segs: seq<string>) {
    segs != [] && forall i | 0 <= i < |segs| :: ValidSegment(segs[i])
  }

  predicate Number(n: nat) {
    1 <= n <= 0x7FFF_FFFF_FFFF_FFFF
  }

  ghost predicate WellFormed(f: FilePath) {
    match f
    case BuildFile(segs, n, file) =>
      Segments(segs) && Number(n) && (file.BuildXml? || file.Changelog? || file.ProgramDat?)
    case WorkflowFile(segs, n, m) => Segments(segs) && Number(n) && Number(m)
    case NumberFile(segs) => Segments(segs)
    case NodeFile(name) => ValidSegment(name)
  }

  function FileName(k: Kind): string {
    match k
    case BuildXml => "build.xml"
    case Changelog => "changelog0.xml"
    case ProgramDat => "program.dat"
    case NextBuildNumber => "nextBuildNumber"
    case WorkflowNode => "workflow"
    case NodeConfig => "config.xml"
  }

  function Tail(f: FilePath): seq<string> {
    match f
    case BuildFile(_, n, file) => ["builds", Decimal(n), FileName(file)]
    case WorkflowFile(_, n, m) => ["builds", Decimal(n), "workflow", Decimal(m) + ".xml"]
    case NumberFile(_) => ["nextBuildNumber"]
    case NodeFile(_) => []
  }

  function Parts(f: FilePath): seq<string> {
    if f.NodeFile? then ["nodes", f.name, "config.xml"] else JobDirs(f.segs) + Tail(f)
  }

  function Print(f: FilePath): string {
    Join(Parts(f), '/')
  }

  function Describe(f: FilePath): Parsed {
    match f
    case BuildFile(segs, n, file) => Parsed(file, Join(segs, '/'), JobDirs(segs), n, "")
    case WorkflowFile(segs, n, _) => Parsed(WorkflowNode, Join(segs, '/'), JobDirs(segs), n, "")
    case NumberFile(segs) => Parsed(NextBuildNumber, Join(segs, '/'), JobDirs(segs), 0, "")
    case NodeFile(name) => Parsed(NodeConfig, "", [], 0, name)
  }

  // --- Numbers ---

  lemma NumberParses(n: nat)
    requires Number(n)
    ensures ParseNumber(Decimal(n)) == Ok(n)
  {
    DecimalValue(n);
    assert IsDigit(Decimal(n)[0]);
  }

  /** A digit string without a leading zero is the decimal of its value. */
  lemma {:induction false} DigitsAreDecimal(s: string)
    requires s != "" && AllDigits(s) && s[0] != '0'
    ensures Value(s) >= 1 && Decimal(Value(s)) == s
    decreases |s|
  {
    var last := |s| - 1;
    if last == 0 {
      assert s[..0] == "" && s == [s[0]];
    } else {
      DigitsAreDecimal(s[..last]);
      assert s == s[..last] + [s[last]];
      assert Value(s) / 10 == Value(s[..last]) && Value(s) % 10 == DigitValue(s[last]);
    }
  }

  lemma NumberPrints(s: string)
    requires ParseNumber(s).Ok?
    ensures Number(ParseNumber(s).value) && Decimal(ParseNumber(s).value) == s
  {
    DigitsAreDecimal(s);
  }

  // --- Job pairs ---

  lemma {:induction false} JobDirsLength(segs: seq<string>)
    ensures |JobDirs(segs)| == 2 * |segs|
  {
    if segs != [] { JobDirsLength(segs[1..]); }
  }

  lemma TakeJobsCons(seg: string, more: seq<string>)
    requires ValidSegment(seg)
    ensures var r := TakeJobs(["jobs", seg] + more);
            if more == [] || more[0] != "jobs" then r == Ok([seg])
            else TakeJobs(more).Ok? ==> r == Ok([seg] + TakeJobs(more).value)
  {
    assert (["jobs", seg] + more)[2..] == more;
  }

  lemma {:induction false} TakeJobsPrinted(segs: seq<string>, rest: seq<string>)
    requires Segments(segs) && (rest != [] ==> rest[0] != "jobs")
    ensures TakeJobs(JobDirs(segs) + rest) == Ok(segs)
    decreases |segs|
  {
    var more := JobDirs(segs[1..]) + rest;
    assert JobDirs(segs) + rest == ["jobs", segs[0]] + more;
    TakeJobsCons(segs[0], more);
    assert segs == [segs[0]] + segs[1..];
    if |segs| > 1 {
      assert more[0] == "jobs";
      TakeJobsPrinted(segs[1..], rest);
    } else {
      assert segs == [segs[0]] && more == rest;
    }
  }

  lemma {:induction false} TakeJobsSound(parts: seq<string>)
    requires TakeJobs(parts).Ok?
    ensures var segs := TakeJobs(parts).value;
            Segments(segs) && 2 * |segs| <= |parts| && parts == JobDirs(segs) + parts[2 * |segs|..]
    decreases |parts|
  {
    var segs := TakeJobs(parts).value;
    if |parts| > 2 && parts[2] == "jobs" {
      TakeJobsSound(parts[2..]);
      var more := TakeJobs(parts[2..]).value;
      assert segs[1..] == more;
      assert parts[2..][2 * |more|..] == parts[2 * |segs|..];
      assert parts == ["jobs", parts[1]] + parts[2..];
    } else {
      assert JobDirs(segs[1..]) == [];
      assert parts == ["jobs", parts[1]] + parts[2..];
    }
  }

  // --- Exactly the six shapes ---

  lemma {:induction false} JobDirsFree(segs: seq<string>)
    requires forall i | 0 <= i < |segs| :: ValidSegment(segs[i])
    ensures Free(JobDirs(segs), '/')
  {
    if segs != [] { JobDirsFree(segs[1..]); }
  }

  lemma DecimalFree(n: nat)
    ensures '/' !in Decimal(n)
  {
    DecimalValue(n);
  }

  lemma TailFree(f: FilePath)
    ensures Free(Tail(f), '/')
  {
    match f
    case BuildFile(_, n, _) => DecimalFree(n);
    case WorkflowFile(_, n, m) => DecimalFree(n); DecimalFree(m);
    case _ =>
  }

  lemma PartsFree(f: FilePath)
    requires WellFormed(f)
    ensures Parts(f) != [] && Free(Parts(f), '/')
  {
    if !f.NodeFile? {
      JobDirsFree(f.segs);
      TailFree(f);
    }
  }

  lemma RestParses(f: FilePath)
    requires WellFormed(f) && !f.NodeFile?
    ensures ParseRest(f.segs, Tail(f)) == Ok(Describe(f))
  {
    match f
    case BuildFile(_, n, _) => NumberParses(n);
    case WorkflowFile(_, n, m) =>
      NumberParses(n);
      NumberParses(m);
      var last := Tail(f)[3];
      assert last[|last| - 4..] == ".xml" && last[..|last| - 4] == Decimal(m);
    case NumberFile(_) =>
  }

  /** Every path of a listed shape is accepted and described exactly. */
  lemma ParsePrint(f: FilePath)
    requires WellFormed(f)
    ensures Parse(Print(f)) == Ok(Describe(f))
  {
    PartsFree(f);
    SplitJoin(Parts(f), '/');
    PrintNonEmpty(f);
    if !f.NodeFile? {
      TakeJobsPrinted(f.segs, Tail(f));
      JobDirsLength(f.segs);
      assert (JobDirs(f.segs) + Tail(f))[2 * |f.segs|..] == Tail(f);
      RestParses(f);
      assert Parts(f)[0] == "jobs";
    }
  }

  lemma PrintNonEmpty(f: FilePath)
    requires WellFormed(f)
    ensures Print(f) != ""
  {
    if !f.NodeFile? {
      assert Parts(f)[0] == "jobs";
    }
  }

  lemma RestSound(segs: seq<string>, rest: seq<string>) returns (f: FilePath)
    requires Segments(segs) && ParseRest(segs, rest).Ok?
    ensures WellFormed(f) && !f.NodeFile? && f.segs == segs && Tail(f) == rest
  {
    if rest == ["nextBuildNumber"] {
      f := NumberFile(segs);
    } else if |rest| == 3 {
      NumberPrints(rest[1]);
      f := BuildFile(segs, ParseNumber(rest[1]).value, FileKind(rest[2]).value);
      assert Tail(f) == rest;
    } else {
      var stem := rest[3][..|rest[3]| - 4];
      NumberPrints(rest[1]);
      NumberPrints(stem);
      f := WorkflowFile(segs, ParseNumber(rest[1]).value, ParseNumber(stem).value);
      assert stem + ".xml" == rest[3];
      assert Tail(f) == rest;
    }
  }

  /** Every accepted path has a listed shape. */
  lemma ParseSound(rel: string) returns (f: FilePath)
    requires Parse(rel).Ok?
    ensures WellFormed(f) && Print(f) == rel
  {
    var parts := Split(rel, '/');
    JoinSplit(rel, '/');
    if parts[0] == "nodes" {
      f := NodeFile(parts[1]);
      assert Parts(f) == parts;
    } else {
      TakeJobsSound(parts);
      var segs := TakeJobs(parts).value;
      f := RestSound(segs, parts[2 * |segs|..]);
      assert Parts(f) == parts;
    }
  }

  /** The parser accepts exactly the six shapes. */
  lemma AcceptsExactly(rel: string)
    ensures Parse(rel).Ok? <==> exists f :: WellFormed(f) && Print(f) == rel
  {
    if Parse(rel).Ok? {
      var f := ParseSound(rel);
    }
    if f :| WellFormed(f) && Print(f) == rel {
      ParsePrint(f);
    }
  }

  // --- Job path and directory parts ---

  lemma {:induction false} JobDirsInjective(a: seq<string>, b: seq<string>)
    requires JobDirs(a) == JobDirs(b)
    ensures a == b
    decreases |a|
  {
    JobDirsLength(a);
    JobDirsLength(b);
    if a != [] {
      assert JobDirs(a)[2..] == JobDirs(a[1..]) && JobDirs(b)[2..] == JobDirs(b[1..]);
      assert a[0] == JobDirs(a)[1] && b[0] == JobDirs(b)[1];
      JobDirsInjective(a[1..], b[1..]);
      assert a == [a[0]] + a[1..] && b == [b[0]] + b[1..];
    }
  }

  /** The job path and the directory parts of job files determine each other. */
  lemma JobPathDeterminesDirs(x: string, y: string)
    requires Parse(x).Ok? && Parse(y).Ok?
    requires Parse(x).value.kind != NodeConfig && Parse(y).value.kind != NodeConfig
    ensures Parse(x).value.jobPath == Parse(y).value.jobPath
            <==> Parse(x).value.jobDirParts == Parse(y).value.jobDirParts
  {
    var f := ParseSound(x);
    var g := ParseSound(y);
    ParsePrint(f);
    ParsePrint(g);
    SplitJoin(f.segs, '/');
    SplitJoin(g.segs, '/');
    if Parse(x).value.jobDirParts == Parse(y).value.jobDirParts { JobDirsInjective(f.segs, g.segs); }
  }

  /** strings.ReplaceAll(s, "/", "/jobs/"). */
  function ReplaceSlashes(s: string): string {
    if s == "" then "" else (if s[0] == '/' then "/jobs/" else [s[0]]) + ReplaceSlashes(s[1..])
  }

  lemma {:induction false} ReplaceConcat(a: string, b: string)
    ensures ReplaceSlashes(a + b) == ReplaceSlashes(a) + ReplaceSlashes(b)
  {
    if a == "" {
      assert a + b == b;
    } else {
      assert (a + b)[1..] == a[1..] + b;
      ReplaceConcat(a[1..], b);
    }
  }

  lemma {:induction false} ReplaceNone(a: string)
    requires '/' !in a
    ensures ReplaceSlashes(a) == a
  {
    if a != "" { ReplaceNone(a[1..]); }
  }

  lemma JoinJobDirs(seg: string, rest: seq<string>)
    requires rest != []
    ensures Join(["jobs", seg] + JobDirs(rest), '/') == "jobs/" + (seg + "/" + Join(JobDirs(rest), '/'))
  {
    var dirs := ["jobs", seg] + JobDirs(rest);
    assert dirs[1..] == [seg] + JobDirs(rest) && dirs[1..][1..] == JobDirs(rest);
    assert JobDirs(rest) != [];
    assert "jobs" + "/" == "jobs/";
  }

  lemma ReplaceStep(seg: string, more: string)
    requires '/' !in seg
    ensures ReplaceSlashes(seg + "/" + more) == seg + "/" + ("jobs/" + ReplaceSlashes(more))
  {
    ReplaceNone(seg);
    ReplaceConcat(seg + "/", more);
    ReplaceConcat(seg, "/");
    assert ReplaceSlashes("/") == "/" + "jobs/" by { assert "/"[1..] == ""; }
    Regroup(seg, "/", "jobs/", ReplaceSlashes(more));
  }

  lemma Regroup(a: string, b: string, c: string, d: string)
    ensures a + (b + c) + d == a + b + (c + d)
  {
  }

  lemma {:induction false} ReplaceJoined(segs: seq<string>)
    requires segs != [] && Free(segs, '/')
    ensures "jobs/" + ReplaceSlashes(Join(segs, '/')) == Join(JobDirs(segs), '/')
    decreases |segs|
  {
    if |segs| == 1 {
      ReplaceNone(segs[0]);
      assert JobDirs(segs) == ["jobs", segs[0]];
      assert JobDirs(segs)[1..] == [segs[0]];
      assert "jobs" + "/" == "jobs/";
    } else {
      ReplaceStep(segs[0], Join(segs[1..], '/'));
      ReplaceJoined(segs[1..]);
      JoinJobDirs(segs[0], segs[1..]);
    }
  }

  function NumberPathOf(jobPath: string): string {
    "jobs/" + ReplaceSlashes(jobPath) + "/nextBuildNumber"
  }

  lemma RewriteIsPrint(segs: seq<string>)
    requires Segments(segs)
    ensures NumberPathOf(Join(segs, '/')) == Print(NumberFile(segs))
  {
    RewriteIsJoin(segs);
    PrintIsJoin(segs);
  }

  lemma RewriteIsJoin(segs: seq<string>)
    requires segs != [] && Free(segs, '/')
    ensures NumberPathOf(Join(segs, '/')) == Join(JobDirs(segs), '/') + "/nextBuildNumber"
  {
    ReplaceJoined(segs);
  }

  lemma PrintIsJoin(segs: seq<string>)
    requires Segments(segs)
    ensures Print(NumberFile(segs)) == Join(JobDirs(segs), '/') + "/nextBuildNumber"
  {
    assert "/nextBuildNumber" == ['/'] + "nextBuildNumber";
    PrintName(NumberFile(segs), "/nextBuildNumber", "nextBuildNumber");
  }

  lemma PrintName(f: FilePath, slashed: string, name: string)
    requires WellFormed(f) && !f.NodeFile? && Tail(f) == [name] && slashed == ['/'] + name
    ensures Print(f) == Join(JobDirs(f.segs), '/') + slashed
  {
    JobDirsLength(f.segs);
    JoinConcat(JobDirs(f.segs), [name], '/');
  }

  lemma {:induction false} TakeJobsRejects(segs: seq<string>, rest: seq<string>)
    requires segs != [] && !Segments(segs)
    ensures TakeJobs(JobDirs(segs) + rest).Err?
    decreases |segs|
  {
    var parts := JobDirs(segs) + rest;
    assert parts[0] == "jobs" && parts[1] == segs[0];
    if ValidSegment(segs[0]) {
      assert !Segments(segs[1..]);
      assert segs[1..] != [];
      assert parts[2..] == JobDirs(segs[1..]) + rest;
      TakeJobsRejects(segs[1..], rest);
    }
  }

  lemma {:induction false} JobDirsSlashFree(segs: seq<string>)
    requires Free(segs, '/')
    ensures Free(JobDirs(segs), '/')
  {
    if segs != [] { JobDirsSlashFree(segs[1..]); }
  }

  lemma SplitDirs(segs: seq<string>, name: string, slashed: string)
    requires segs != [] && Free(segs, '/') && '/' !in name && slashed == ['/'] + name
    ensures Split(Join(JobDirs(segs), '/') + slashed, '/') == JobDirs(segs) + [name]
  {
    JobDirsLength(segs);
    JobDirsSlashFree(segs);
    JoinConcat(JobDirs(segs), [name], '/');
    SplitJoin(JobDirs(segs) + [name], '/');
    assert Join(JobDirs(segs), '/') + slashed == Join(JobDirs(segs), '/') + ['/'] + name;
  }

  lemma DirsRejected(segs: seq<string>, name: string, slashed: string)
    requires segs != [] && Free(segs, '/') && !Segments(segs) && '/' !in name && slashed == ['/'] + name
    ensures Parse(Join(JobDirs(segs), '/') + slashed).Err?
  {
    SplitDirs(segs, name, slashed);
    TakeJobsRejects(segs, [name]);
    assert (JobDirs(segs) + [name])[0] == "jobs";
  }

  lemma RewriteRejected(segs: seq<string>, path: string)
    requires segs != [] && Free(segs, '/') && !Segments(segs)
    requires path == Join(JobDirs(segs), '/') + "/nextBuildNumber"
    ensures Parse(path).Err?
  {
    assert "/nextBuildNumber" == ['/'] + "nextBuildNumber";
    DirsRejected(segs, "nextBuildNumber", "/nextBuildNumber");
  }

  /** The rewriting of a job path is accepted exactly when every segment is
      valid. */
  lemma RewriteAcceptedExactly(segs: seq<string>)
    requires segs != [] && Free(segs, '/')
    ensures Parse(NumberPathOf(Join(segs, '/'))).Ok? <==> Segments(segs)
  {
    if Segments(segs) {
      RewriteParsesBack(segs);
    } else {
      RewriteIsJoin(segs);
      RewriteRejected(segs, NumberPathOf(Join(segs, '/')));
    }
  }

  /** The rewriting of a job path parses back to the same directory parts. */
  lemma RewriteParsesBack(segs: seq<string>)
    requires Segments(segs)
    ensures Parse(NumberPathOf(Join(segs, '/'))) == Ok(Parsed(NextBuildNumber, Join(segs, '/'), JobDirs(segs), 0, ""))
  {
    RewriteIsPrint(segs);
    ParsePrint(NumberFile(segs));
  }
}

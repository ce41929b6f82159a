/** What a push leaves in the marker, said by the outcomes of its steps: it
    writes exactly when everything it ran came out well, and records exactly
    what is done. Restarts and steps that do not apply may fall between. */
module ConvergenceOutcomes {
  import opened Options
  import Marker
  import opened Convergence
  import opened ConvergenceTheorems

  // --- One push after the gate ---

  /** What happens between two steps of the push. */
  datatype Gaps = Gaps(
    captured: seq<Step>, configured: seq<Step>, seeded: seq<Step>, itemized: seq<Step>, reloaded: seq<Step>)

  /** The answers a push gets: the session probe, the config reload, the bundle
      apply, the items apply, the second bundle apply and the item reloads. */
  datatype Attempt = Attempt(
    probe: bool,
    config: bool, leftConfig: Live,
    seed: bool, deferred: bool,
    items: bool, deletions: bool, leftItems: Live,
    retry: bool, still: bool, reloadFailed: bool,
    gaps: Gaps)

  function PushSteps(t: Attempt): seq<Step> {
    [Capture(t.probe)] + t.gaps.captured
    + [ApplyConfig(t.config, t.leftConfig)] + t.gaps.configured
    + [Seed(t.seed, t.deferred)] + t.gaps.seeded
    + [ApplyItems(t.items, t.deletions, t.leftItems)] + t.gaps.itemized
    + [Reload(t.retry, t.still, t.reloadFailed)] + t.gaps.reloaded
  }

  /** No step of a gap ends the push or is its next step. */
  ghost predicate Quiet(g: Gaps) {
    && (forall x | x in g.captured :: !x.Abort? && !x.ApplyConfig?)
    && (forall x | x in g.configured :: !x.Abort? && !x.Seed?)
    && (forall x | x in g.seeded :: !x.Abort? && !x.ApplyItems?)
    && (forall x | x in g.itemized :: !x.Abort? && !x.Reload?)
    && (forall x | x in g.reloaded :: !x.Abort? && !x.Write?)
  }

  // --- Which sections run, and whether all went well ---

  /** The marker of this boot records the section with this hash. */
  predicate Known(m: Mark, session: string, s: Section, hash: string) {
    session != "" && m.session == session && m.sections.Some? && Recorded(m, s) == hash
  }

  predicate ConfigRan(cmd: Command, m: Mark, session: string, sha: string -> string) {
    || (cmd.config != "" && !Known(m, session, Config, sha(cmd.config)))
    || (cmd.rbac != "" && !Known(m, session, Rbac, sha(cmd.rbac)))
  }

  predicate SeedRan(cmd: Command, m: Mark, session: string) {
    cmd.rehydration.Some? && !Known(m, session, Rehydration, cmd.rehydration.value)
  }

  predicate RetryRan(cmd: Command, m: Mark, session: string, t: Attempt) {
    SeedRan(cmd, m, session) && t.seed && t.deferred
  }

  predicate ItemsRan(cmd: Command, m: Mark, session: string, sha: string -> string) {
    cmd.items != "" && !Known(m, session, Items, sha(cmd.items))
  }

  predicate Succeeded(cmd: Command, m: Mark, session: string, t: Attempt, sha: string -> string) {
    && (ConfigRan(cmd, m, session, sha) ==> t.config)
    && (SeedRan(cmd, m, session) ==> t.seed)
    && (RetryRan(cmd, m, session, t) ==> t.retry)
    && (ItemsRan(cmd, m, session, sha) ==> t.items)
  }

  /** What the push's marker holds for a section: nothing for a section left
      undone, the hash asked for, or else what the captured marker held. */
  function Record(cmd: Command, m: Mark, session: string, t: Attempt, sha: string -> string, s: Section): string {
    match s
    case Config => if cmd.config != "" then sha(cmd.config) else Recorded(m, s)
    case Plugins => Recorded(m, s)
    case Rbac => if cmd.rbac != "" then sha(cmd.rbac) else Recorded(m, s)
    case Items =>
      if ItemsRan(cmd, m, session, sha) && t.deletions then ""
      else if cmd.items != "" then sha(cmd.items) else Recorded(m, s)
    case Rehydration =>
      if cmd.rehydration.None? then Recorded(m, s)
      else if t.reloadFailed || (RetryRan(cmd, m, session, t) && t.still) then ""
      else cmd.rehydration.value
  }

  /** The marker of a push that captured m in the given session; a file with
      one line only is misread, which takes a push without a session. */
  ghost predicate Wrote(after: Mark, cmd: Command, m: Mark, session: string, t: Attempt, sha: string -> string) {
    || (&& after.composite == cmd.hash && after.session == session && after.sections.Some?
        && forall s :: Recorded(after, s) == Record(cmd, m, session, t, sha, s))
    || (session == "" && after == Mark("composite", cmd.hash, None))
  }

  // --- Gaps ---

  predicate Moves(ph: Phase, x: Step) {
    || x.Abort? || (ph.Captured? && x.ApplyConfig?) || (ph.Configured? && x.Seed?) || (ph.Seeded? && x.ApplyItems?)
    || (ph.Itemized? && x.Reload?) || (ph.Reloaded? && x.Write?)
  }

  lemma GapStep(w: World, x: Step, d: Deal)
    requires InPush(w.phase) && !Moves(w.phase, x)
    ensures var v := Next(w, x, d.sha);
            v.mark == w.mark && InPush(v.phase) && AfterRestart(v.phase) == AfterRestart(w.phase)
  {
  }

  lemma SameKind(a: Phase, b: Phase)
    requires AfterRestart(a) == AfterRestart(b)
    ensures forall x :: Moves(a, x) <==> Moves(b, x)
  {
  }

  lemma {:induction false} GapRun(w: World, gap: seq<Step>, d: Deal)
    requires InPush(w.phase) && forall x | x in gap :: !Moves(w.phase, x)
    ensures var v := Run(w, gap, d);
            v.mark == w.mark && InPush(v.phase) && AfterRestart(v.phase) == AfterRestart(w.phase)
    decreases |gap|
  {
    if gap != [] {
      GapStep(w, gap[0], d);
      SameKind(Next(w, gap[0], d.sha).phase, w.phase);
      GapRun(Next(w, gap[0], d.sha), gap[1..], d);
    }
  }

  /** One step of the push and the gap behind it. */
  lemma SegmentRun(w: World, x: Step, gap: seq<Step>, d: Deal)
    requires InPush(Next(w, x, d.sha).phase) && forall y | y in gap :: !Moves(Next(w, x, d.sha).phase, y)
    ensures var u, v := Next(w, x, d.sha), Run(w, [x] + gap, d);
            v.mark == u.mark && InPush(v.phase) && AfterRestart(v.phase) == AfterRestart(u.phase)
  {
    assert ([x] + gap)[1..] == gap;
    GapRun(Next(w, x, d.sha), gap, d);
  }

  // --- The push, stage by stage ---

  ghost predicate Carries(p: Push, cmd: Command, session: string, m: Mark) {
    p.cmd == cmd && p.session == session && p.mark == m
  }

  ghost predicate ConfigFine(p: Push) {
    (p.cmd.config != "" ==> p.configOk) && (p.cmd.rbac != "" ==> p.rbacOk)
  }

  ghost predicate Stage1(p: Push, t: Attempt, d: Deal) {
    && (ConfigFine(p) <==> (ConfigRan(p.cmd, p.mark, p.session, d.sha) ==> t.config))
    && !p.deferredJobs && !p.rehydrationApplied && !p.deferredDeletions
  }

  ghost predicate Stage2(p: Push, t: Attempt, d: Deal) {
    && (ConfigFine(p) <==> (ConfigRan(p.cmd, p.mark, p.session, d.sha) ==> t.config))
    && (p.rehydrationOk <==> (SeedRan(p.cmd, p.mark, p.session) ==> t.seed))
    && (p.rehydrationApplied && p.deferredJobs <==> RetryRan(p.cmd, p.mark, p.session, t))
    && (p.deferredJobs ==> p.rehydrationApplied)
    && !p.deferredDeletions
  }

  ghost predicate Stage3(p: Push, t: Attempt, d: Deal) {
    && (ConfigFine(p) <==> (ConfigRan(p.cmd, p.mark, p.session, d.sha) ==> t.config))
    && (p.rehydrationOk <==> (SeedRan(p.cmd, p.mark, p.session) ==> t.seed))
    && (p.rehydrationApplied && p.deferredJobs <==> RetryRan(p.cmd, p.mark, p.session, t))
    && (p.deferredJobs ==> p.rehydrationApplied)
    && (p.itemsOk <==> (ItemsRan(p.cmd, p.mark, p.session, d.sha) ==> t.items))
    && (p.deferredDeletions <==> ItemsRan(p.cmd, p.mark, p.session, d.sha) && t.deletions)
  }

  ghost predicate Stage4(p: Push, t: Attempt, d: Deal) {
    && (AllSucceeded(p) <==> Succeeded(p.cmd, p.mark, p.session, t, d.sha))
    && (AllSucceeded(p) ==> (p.deferredJobs <==> RetryRan(p.cmd, p.mark, p.session, t) && t.still))
    && (p.reloadFailed <==> p.cmd.rehydration.Some? && t.reloadFailed)
    && (p.deferredDeletions <==> ItemsRan(p.cmd, p.mark, p.session, d.sha) && t.deletions)
  }

  lemma ToConfigured(w: World, t: Attempt, d: Deal)
    requires w.phase.Captured? && Rebooted(w.phase.p) == Fresh(w.phase.p.cmd, w.phase.p.session, w.phase.p.mark)
    ensures var v := Next(w, ApplyConfig(t.config, t.leftConfig), d.sha);
            && v.phase.Configured? && v.mark == w.mark && Stage1(v.phase.p, t, d)
            && Carries(v.phase.p, w.phase.p.cmd, w.phase.p.session, w.phase.p.mark)
  {
  }

  lemma ToSeeded(w: World, t: Attempt, d: Deal)
    requires w.phase.Configured? && Stage1(w.phase.p, t, d)
    ensures var v := Next(w, Seed(t.seed, t.deferred), d.sha);
            && v.phase.Seeded? && v.mark == w.mark && Stage2(v.phase.p, t, d)
            && Carries(v.phase.p, w.phase.p.cmd, w.phase.p.session, w.phase.p.mark)
  {
  }

  lemma ItemsSkipped(p: Push, d: Deal)
    ensures p.cmd.items == "" || Converged(p, Items, d.sha) <==> !ItemsRan(p.cmd, p.mark, p.session, d.sha)
  {
  }

  lemma ItemsRanStep(w: World, p: Push, t: Attempt, d: Deal)
    requires !(p.cmd.items == "" || Converged(p, Items, d.sha))
    ensures var v := NextItems(w, p, t.items, t.deletions, t.leftItems, d.sha);
            && v.phase.Itemized? && v.mark == w.mark
            && Rebooted(v.phase.p) == Rebooted(p).(itemsOk := t.items, deferredDeletions := t.deletions)
  {
  }

  lemma ItemsStep(w: World, p: Push, t: Attempt, d: Deal)
    requires !p.deferredDeletions
    ensures var v := NextItems(w, p, t.items, t.deletions, t.leftItems, d.sha);
            var ran := ItemsRan(p.cmd, p.mark, p.session, d.sha);
            && v.phase.Itemized? && v.mark == w.mark
            && Rebooted(v.phase.p)
               == Rebooted(p).(itemsOk := ran ==> t.items, deferredDeletions := ran && t.deletions)
  {
    ItemsSkipped(p, d);
    if ItemsRan(p.cmd, p.mark, p.session, d.sha) {
      ItemsRanStep(w, p, t, d);
    } else {
      assert Rebooted(p).deferredDeletions == false;
    }
  }

  lemma ToItemized(w: World, t: Attempt, d: Deal)
    requires w.phase.Seeded? && Stage2(w.phase.p, t, d)
    ensures var v := Next(w, ApplyItems(t.items, t.deletions, t.leftItems), d.sha);
            && v.phase.Itemized? && v.mark == w.mark && Stage3(v.phase.p, t, d)
            && Carries(v.phase.p, w.phase.p.cmd, w.phase.p.session, w.phase.p.mark)
  {
    ItemsStep(w, w.phase.p, t, d);
  }

  lemma ToReloaded(w: World, t: Attempt, d: Deal)
    requires w.phase.Itemized? && Stage3(w.phase.p, t, d)
    ensures var v := Next(w, Reload(t.retry, t.still, t.reloadFailed), d.sha);
            && v.phase.Reloaded? && v.mark == w.mark && Stage4(v.phase.p, t, d)
            && Carries(v.phase.p, w.phase.p.cmd, w.phase.p.session, w.phase.p.mark)
  {
  }

  lemma SamePush(a: Phase, b: Phase)
    requires InPush(a) && InPush(b) && AfterRestart(a) == AfterRestart(b)
    ensures Rebooted(a.p) == Rebooted(b.p)
    ensures (a.Captured? <==> b.Captured?) && (a.Configured? <==> b.Configured?) && (a.Seeded? <==> b.Seeded?)
    ensures (a.Itemized? <==> b.Itemized?) && (a.Reloaded? <==> b.Reloaded?)
  {
  }

  // --- The whole push ---

  lemma TwoSegments(w: World, x1: Step, g1: seq<Step>, x2: Step, g2: seq<Step>, d: Deal)
    ensures Run(w, [x1] + g1 + [x2] + g2, d) == Run(Run(w, [x1] + g1, d), [x2] + g2, d)
  {
    RunConcat(w, [x1] + g1, [x2] + g2, d);
    assert [x1] + g1 + [x2] + g2 == [x1] + g1 + ([x2] + g2);
  }

  lemma FirstHalf(w: World, cmd: Command, t: Attempt, d: Deal)
    requires w.phase == Ready(cmd) && Quiet(t.gaps)
    ensures var v := Run(w, FirstSteps(t), d);
            && v.phase.Configured? && v.mark == w.mark && Stage1(v.phase.p, t, d)
            && Carries(v.phase.p, cmd, if t.probe then w.session else "", w.mark)
  {
    var x1, g1, x2, g2 := Capture(t.probe), t.gaps.captured, ApplyConfig(t.config, t.leftConfig), t.gaps.configured;
    SegmentRun(w, x1, g1, d);
    var w1 := Run(w, [x1] + g1, d);
    SamePush(w1.phase, Next(w, x1, d.sha).phase);
    ToConfigured(w1, t, d);
    SegmentRun(w1, x2, g2, d);
    SamePush(Run(w1, [x2] + g2, d).phase, Next(w1, x2, d.sha).phase);
    TwoSegments(w, x1, g1, x2, g2, d);
  }

  lemma SeedSegment(w: World, t: Attempt, d: Deal)
    requires w.phase.Configured? && Stage1(w.phase.p, t, d) && Quiet(t.gaps)
    ensures var v := Run(w, [Seed(t.seed, t.deferred)] + t.gaps.seeded, d);
            && v.phase.Seeded? && v.mark == w.mark && Stage2(v.phase.p, t, d)
            && Carries(v.phase.p, w.phase.p.cmd, w.phase.p.session, w.phase.p.mark)
  {
    var x := Seed(t.seed, t.deferred);
    ToSeeded(w, t, d);
    SegmentRun(w, x, t.gaps.seeded, d);
    SamePush(Run(w, [x] + t.gaps.seeded, d).phase, Next(w, x, d.sha).phase);
  }

  lemma ItemsSegment(w: World, t: Attempt, d: Deal)
    requires w.phase.Seeded? && Stage2(w.phase.p, t, d) && Quiet(t.gaps)
    ensures var v := Run(w, [ApplyItems(t.items, t.deletions, t.leftItems)] + t.gaps.itemized, d);
            && v.phase.Itemized? && v.mark == w.mark && Stage3(v.phase.p, t, d)
            && Carries(v.phase.p, w.phase.p.cmd, w.phase.p.session, w.phase.p.mark)
  {
    var x := ApplyItems(t.items, t.deletions, t.leftItems);
    ToItemized(w, t, d);
    SegmentRun(w, x, t.gaps.itemized, d);
    SamePush(Run(w, [x] + t.gaps.itemized, d).phase, Next(w, x, d.sha).phase);
  }

  lemma SecondHalf(w: World, t: Attempt, d: Deal)
    requires w.phase.Configured? && Stage1(w.phase.p, t, d) && Quiet(t.gaps)
    ensures var v := Run(w, SecondSteps(t), d);
            && v.phase.Itemized? && v.mark == w.mark && Stage3(v.phase.p, t, d)
            && Carries(v.phase.p, w.phase.p.cmd, w.phase.p.session, w.phase.p.mark)
  {
    var x1, g1 := Seed(t.seed, t.deferred), t.gaps.seeded;
    var x2, g2 := ApplyItems(t.items, t.deletions, t.leftItems), t.gaps.itemized;
    SeedSegment(w, t, d);
    ItemsSegment(Run(w, [x1] + g1, d), t, d);
    TwoSegments(w, x1, g1, x2, g2, d);
  }

  lemma LastStep(w: World, t: Attempt, d: Deal)
    requires w.phase.Itemized? && Stage3(w.phase.p, t, d) && Quiet(t.gaps)
    ensures var v := Run(w, LastSteps(t), d);
            && v.phase.Reloaded? && v.mark == w.mark && Stage4(v.phase.p, t, d)
            && Carries(v.phase.p, w.phase.p.cmd, w.phase.p.session, w.phase.p.mark)
  {
    var x := Reload(t.retry, t.still, t.reloadFailed);
    ToReloaded(w, t, d);
    SegmentRun(w, x, t.gaps.reloaded, d);
    SamePush(Run(w, [x] + t.gaps.reloaded, d).phase, Next(w, x, d.sha).phase);
  }

  function FirstSteps(t: Attempt): seq<Step> {
    [Capture(t.probe)] + t.gaps.captured + [ApplyConfig(t.config, t.leftConfig)] + t.gaps.configured
  }

  function SecondSteps(t: Attempt): seq<Step> {
    [Seed(t.seed, t.deferred)] + t.gaps.seeded
    + [ApplyItems(t.items, t.deletions, t.leftItems)] + t.gaps.itemized
  }

  function LastSteps(t: Attempt): seq<Step> {
    [Reload(t.retry, t.still, t.reloadFailed)] + t.gaps.reloaded
  }

  lemma PushRuns(w: World, t: Attempt, d: Deal)
    ensures Run(w, PushSteps(t), d) == Run(Run(Run(w, FirstSteps(t), d), SecondSteps(t), d), LastSteps(t), d)
  {
    var a, b, c := FirstSteps(t), SecondSteps(t), LastSteps(t);
    RunConcat(w, a, b, d);
    RunConcat(w, a + b, c, d);
    assert PushSteps(t) == a + b + c;
  }

  /** Before its write the push knows exactly what came out well. */
  lemma PushEnds(w: World, cmd: Command, t: Attempt, d: Deal)
    requires w.phase == Ready(cmd) && Quiet(t.gaps)
    ensures var v := Run(w, PushSteps(t), d);
            && v.phase.Reloaded? && v.mark == w.mark && Stage4(v.phase.p, t, d)
            && Carries(v.phase.p, cmd, if t.probe then w.session else "", w.mark)
  {
    FirstHalf(w, cmd, t, d);
    var w1 := Run(w, FirstSteps(t), d);
    SecondHalf(w1, t, d);
    var w2 := Run(w1, SecondSteps(t), d);
    LastStep(w2, t, d);
    PushRuns(w, t, d);
  }

  // --- The marker it leaves ---

  lemma NewRecordsAre(p: Push, t: Attempt, d: Deal, s: Section)
    requires Fair(d) && Writes(p) && Stage4(p, t, d) && (p.mark.sections.Some? ==> Wordy(p.mark.sections.value))
    ensures Recorded(NewMark(p, d.sha), s) == Record(p.cmd, p.mark, p.session, t, d.sha, s)
  {
    if s in CONTENT_SECTIONS { NewMarkRecords(p, s, d); }
  }

  lemma WroteIt(v: World, t: Attempt, d: Deal)
    requires Fair(d) && v.phase.Reloaded? && Writes(v.phase.p) && Proper(v.phase.p.cmd, d) && Stage4(v.phase.p, t, d)
    requires v.phase.p.mark.sections.Some? ==> Wordy(v.phase.p.mark.sections.value)
    requires v.phase.p.session == "" || Marker.Word(v.phase.p.session)
    ensures var p := v.phase.p; Wrote(NextWrite(v, p, d.sha).mark, p.cmd, p.mark, p.session, t, d.sha)
  {
    WrittenMark(v, d);
    var p := v.phase.p;
    forall s ensures Recorded(NewMark(p, d.sha), s) == Record(p.cmd, p.mark, p.session, t, d.sha, s) {
      NewRecordsAre(p, t, d, s);
    }
  }

  /** A push writes its marker exactly when it has a hash and everything it ran,
      config with RBAC, the bundle, its retry and the items, came out well; the
      marker records exactly what is done. Otherwise the old marker stands. */
  lemma MarkerExactly(w: World, cmd: Command, t: Attempt, d: Deal)
    requires Fair(d) && Base(w, d) && w.phase == Ready(cmd) && Quiet(t.gaps)
    ensures var session := if t.probe then w.session else "";
            var after := Run(w, PushSteps(t) + [Write], d).mark;
            if cmd.hash != "" && Succeeded(cmd, w.mark, session, t, d.sha)
            then Wrote(after, cmd, w.mark, session, t, d.sha) else after == w.mark
  {
    PushEnds(w, cmd, t, d);
    var v := Run(w, PushSteps(t), d);
    RunConcat(w, PushSteps(t), [Write], d);
    assert Run(v, [Write], d) == Next(v, Write, d.sha);
    if Writes(v.phase.p) { WroteIt(v, t, d); }
  }

  /** The same in every run from the first boot. */
  lemma FirstBootMarkerExactly(session: string, boot: Live, before: seq<Step>, cmd: Command, t: Attempt, d: Deal)
    requires Fair(d) && Marker.Word(session) && ProperSteps(before, d) && Quiet(t.gaps)
    requires Run(Initial(session, boot), before, d).phase == Ready(cmd)
    ensures var w := Run(Initial(session, boot), before, d);
            var captured := if t.probe then w.session else "";
            var after := Run(Initial(session, boot), before + PushSteps(t) + [Write], d).mark;
            if cmd.hash != "" && Succeeded(cmd, w.mark, captured, t, d.sha)
            then Wrote(after, cmd, w.mark, captured, t, d.sha) else after == w.mark
  {
    var w0 := Initial(session, boot);
    InitialInv(session, boot, d);
    RunKeeps(w0, before, d);
    MarkerExactly(Run(w0, before, d), cmd, t, d);
    RunConcat(w0, before, PushSteps(t) + [Write], d);
    assert before + PushSteps(t) + [Write] == before + (PushSteps(t) + [Write]);
  }

  // --- The gate ---

  /** The gate lets every reload, every push without a hash, every push it could
      not probe Jenkins for and every push of another boot through. */
  lemma GateLetsThrough(w: World, cmd: Command, probeOk: bool, d: Deal)
    requires w.phase == Received(cmd)
    requires cmd.reload || cmd.hash == "" || !probeOk || w.mark.session != w.session || w.mark.composite != cmd.hash
    ensures Next(w, Gate(probeOk), d.sha) == w.(phase := Ready(cmd))
  {
  }
}

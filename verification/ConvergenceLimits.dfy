/** Runs in which every skip is right, what the marker never lets a push skip,
    and exactly when a resend is skipped. */
module ConvergenceLimits {
  import opened Options
  import Marker
  import opened Convergence
  import opened ConvergenceTheorems

  // --- Runs without a partial push or a carried section ---

  /** The step ends a push without a marker after it changed live content. */
  ghost predicate EndsPartial(w: World, step: Step) {
    Touched(w.phase) != {} && (step.Abort? || (step.Write? && w.phase.Reloaded? && !Writes(w.phase.p)))
  }

  /** The step writes a marker that takes a section over from another boot. */
  ghost predicate CarriesOver(w: World, step: Step, d: Deal) {
    && step.Write? && w.phase.Reloaded? && Writes(w.phase.p) && w.phase.p.session == w.session
    && Carried(w.phase.p, d.sha) != {}
  }

  ghost predicate CleanRun(w: World, steps: seq<Step>, d: Deal)
    decreases |steps|
  {
    steps == [] ||
    (!EndsPartial(w, steps[0]) && !CarriesOver(w, steps[0], d) && CleanRun(Next(w, steps[0], d.sha), steps[1..], d))
  }

  /** These two events are the only ones that make a section stale. */
  lemma {:induction false} CleanRunStaysClean(w: World, steps: seq<Step>, d: Deal)
    requires w.stale == {} && CleanRun(w, steps, d)
    ensures Run(w, steps, d).stale == {}
    decreases |steps|
  {
    if steps != [] {
      assert Next(w, steps[0], d.sha).stale == {};
      CleanRunStaysClean(Next(w, steps[0], d.sha), steps[1..], d);
    }
  }

  /** From the first boot on, in every clean run, a push the gate skips has all
      it asks for in force. */
  lemma CleanRunsSkipSoundly(session: string, boot: Live, steps: seq<Step>, d: Deal, probeOk: bool)
    requires Fair(d) && Marker.Word(session) && ProperSteps(steps, d) && CleanRun(Initial(session, boot), steps, d)
    requires var w := Run(Initial(session, boot), steps, d);
             w.phase.Received? && Skips(w, w.phase.cmd, probeOk, d.sha)
    ensures var w := Run(Initial(session, boot), steps, d);
            forall s :: InForce(w.phase.cmd, w.live, s)
  {
    InitialInv(session, boot, d);
    CleanRunStaysClean(Initial(session, boot), steps, d);
    var w := Run(Initial(session, boot), steps, d);
    forall s ensures InForce(w.phase.cmd, w.live, s) { GateSound(Initial(session, boot), steps, d, probeOk, s); }
  }

  /** The same for the section a push skips in the boot it captured. */
  lemma CleanRunsSkipSectionsSoundly(session: string, boot: Live, steps: seq<Step>, d: Deal, s: Section)
    requires Fair(d) && Marker.Word(session) && ProperSteps(steps, d) && CleanRun(Initial(session, boot), steps, d)
    requires var w := Run(Initial(session, boot), steps, d);
             && Deciding(w.phase, s) && w.phase.p.session == w.session
             && Requested(w.phase.p.cmd, s) && Converged(w.phase.p, s, d.sha)
    ensures var w := Run(Initial(session, boot), steps, d); InForce(w.phase.p.cmd, w.live, s)
  {
    InitialInv(session, boot, d);
    CleanRunStaysClean(Initial(session, boot), steps, d);
    SectionSkipSound(Initial(session, boot), steps, d, s);
  }

  // --- Pushes that always ask for the same sections carry nothing ---

  ghost predicate HasShape(cmd: Command, shape: set<Section>) {
    RequestedOf(cmd, CONTENT_SECTIONS) == shape
  }

  ghost predicate SameShape(steps: seq<Step>, shape: set<Section>) {
    forall i | 0 <= i < |steps| :: steps[i].Begin? ==> HasShape(steps[i].cmd, shape)
  }

  function AtWork(ph: Phase): Option<Command> {
    if ph.Idle? then None else if ph.Received? || ph.Ready? then Some(ph.cmd) else Some(ph.p.cmd)
  }

  ghost predicate ShapeOk(w: World, shape: set<Section>) {
    && (w.mark.sections.Some? ==> w.mark.sections.value.Keys * CONTENT_SECTIONS <= shape)
    && (AtWork(w.phase).Some? ==> HasShape(AtWork(w.phase).value, shape))
  }

  lemma StepCommand(w: World, step: Step, d: Deal)
    ensures var v := Next(w, step, d.sha);
            && (|| AtWork(v.phase) == None || AtWork(v.phase) == AtWork(w.phase)
                || (step.Begin? && AtWork(v.phase) == Some(step.cmd)))
            && (|| v.mark == w.mark
                || (step.Write? && w.phase.Reloaded? && Writes(w.phase.p) && v == NextWrite(w, w.phase.p, d.sha)))
  {
    match step
    case Restart(_, _) => PhaseAfterRestart(w.phase);
    case ApplyConfig(ok, left) =>
    case ApplyItems(ok, dd, left) =>
    case _ =>
  }

  lemma NothingCarried(p: Push, shape: set<Section>, d: Deal)
    requires HasShape(p.cmd, shape)
    requires p.mark.sections.Some? ==> p.mark.sections.value.Keys * CONTENT_SECTIONS <= shape
    ensures Carried(p, d.sha) == {} && NewSections(p, d.sha).Keys * CONTENT_SECTIONS <= shape
  {
    forall s | s in NewSections(p, d.sha) && s in CONTENT_SECTIONS ensures Requested(p.cmd, s) && s in shape {
      assert s in shape ==> s in RequestedOf(p.cmd, CONTENT_SECTIONS);
    }
  }

  lemma StepKeepsShape(w: World, step: Step, shape: set<Section>, d: Deal)
    requires Fair(d) && Base(w, d) && ShapeOk(w, shape) && (step.Begin? ==> HasShape(step.cmd, shape))
    ensures ShapeOk(Next(w, step, d.sha), shape)
  {
    StepCommand(w, step, d);
    if Next(w, step, d.sha).mark != w.mark {
      WrittenMark(w, d);
      NothingCarried(w.phase.p, shape, d);
    }
  }

  ghost predicate NoPartialPush(w: World, steps: seq<Step>, d: Deal)
    decreases |steps|
  {
    steps == [] || (!EndsPartial(w, steps[0]) && NoPartialPush(Next(w, steps[0], d.sha), steps[1..], d))
  }

  /** Pushes that all ask for the same sections carry nothing over, so a run
      without a partial push is clean. */
  lemma {:induction false} SameShapeIsClean(w: World, steps: seq<Step>, shape: set<Section>, d: Deal)
    requires Fair(d) && Inv(w, d) && ShapeOk(w, shape) && ProperSteps(steps, d) && SameShape(steps, shape)
    requires NoPartialPush(w, steps, d)
    ensures CleanRun(w, steps, d)
    decreases |steps|
  {
    if steps != [] {
      StepKeeps(w, steps[0], d);
      StepKeepsShape(w, steps[0], shape, d);
      if steps[0].Write? && w.phase.Reloaded? { NothingCarried(w.phase.p, shape, d); }
      SameShapeIsClean(Next(w, steps[0], d.sha), steps[1..], shape, d);
    }
  }

  /** From the first boot on: when every push asks for the same sections and
      none ends partially, a push the gate skips has all it asks for in force. */
  lemma SameShapeSkipsSoundly(session: string, boot: Live, steps: seq<Step>, shape: set<Section>, d: Deal,
                              probeOk: bool)
    requires Fair(d) && Marker.Word(session) && ProperSteps(steps, d) && SameShape(steps, shape)
    requires NoPartialPush(Initial(session, boot), steps, d)
    requires var w := Run(Initial(session, boot), steps, d);
             w.phase.Received? && Skips(w, w.phase.cmd, probeOk, d.sha)
    ensures var w := Run(Initial(session, boot), steps, d);
            forall s :: InForce(w.phase.cmd, w.live, s)
  {
    InitialInv(session, boot, d);
    SameShapeIsClean(Initial(session, boot), steps, shape, d);
    CleanRunsSkipSoundly(session, boot, steps, d, probeOk);
  }

  /** The same for every section a push skips in the boot it captured. */
  lemma SameShapeSkipsSectionsSoundly(session: string, boot: Live, steps: seq<Step>, shape: set<Section>, d: Deal,
                                      s: Section)
    requires Fair(d) && Marker.Word(session) && ProperSteps(steps, d) && SameShape(steps, shape)
    requires NoPartialPush(Initial(session, boot), steps, d)
    requires var w := Run(Initial(session, boot), steps, d);
             && Deciding(w.phase, s) && w.phase.p.session == w.session
             && Requested(w.phase.p.cmd, s) && Converged(w.phase.p, s, d.sha)
    ensures var w := Run(Initial(session, boot), steps, d); InForce(w.phase.p.cmd, w.live, s)
  {
    InitialInv(session, boot, d);
    SameShapeIsClean(Initial(session, boot), steps, shape, d);
    CleanRunsSkipSectionsSoundly(session, boot, steps, d, s);
  }

  // --- Resends ---

  predicate Incomplete(p: Push) {
    p.deferredJobs || p.reloadFailed
  }

  /** A bundle with a content hash left jobs unseeded or items unloaded. */
  predicate LeftUndone(p: Push) {
    p.cmd.rehydration.Some? && p.cmd.rehydration.value != "" && Incomplete(p)
  }

  /** A push that just wrote its marker is skipped on a resend in the same boot
      exactly when it deferred no item deletion, and left no job unseeded or
      item unloaded unless its bundle has no content hash. */
  lemma ResendSkipsExactly(u: World, p: Push, sha: string -> string)
    requires GoodHash(sha) && p.cmd.hash != "" && !p.cmd.reload
    requires p.deferredDeletions ==> p.cmd.items != ""
    requires u.mark == NewMark(p, sha) && u.session == p.session != ""
    ensures Skips(u, p.cmd, true, sha) <==>
              && !p.deferredDeletions
              && (p.cmd.rehydration.Some? && Incomplete(p) ==> p.cmd.rehydration.value == "")
  {
    assert Marker.Word(sha(p.cmd.items));
    var n := NewSections(p, sha);
    if p.cmd.items != "" && !p.deferredDeletions { assert n[Items] == sha(p.cmd.items); }
    if p.cmd.rehydration.Some? && !Incomplete(p) { assert n[Rehydration] == p.cmd.rehydration.value; }
  }

  /** While the marker of an incomplete push stands, no world skips a resend,
      and no push that captures it skips the section left undone. */
  lemma IncompleteNeverSkipped(w: World, u: World, q: Push, probeOk: bool, d: Deal)
    requires Fair(d) && Inv(w, d) && w.phase.Reloaded?
    requires var p := w.phase.p;
             && Writes(p)
             && (LeftUndone(p) || (p.cmd.items != "" && p.deferredDeletions))
    requires u.mark == NextWrite(w, w.phase.p, d.sha).mark && q.mark == u.mark && q.cmd == w.phase.p.cmd
    ensures !Skips(u, w.phase.p.cmd, probeOk, d.sha)
    ensures LeftUndone(w.phase.p) ==> !Converged(q, Rehydration, d.sha)
    ensures w.phase.p.cmd.items != "" && w.phase.p.deferredDeletions ==> !Converged(q, Items, d.sha)
  {
    WrittenMark(w, d);
    NotRecorded(u.mark, w.phase.p, q, d);
  }

  lemma NotRecorded(m: Mark, p: Push, q: Push, d: Deal)
    requires Fair(d) && Proper(p.cmd, d) && p.cmd.hash != "" && q.mark == m && q.cmd == p.cmd
    requires LeftBy(m, p, d.sha)
    ensures LeftUndone(p) ==> !RehydrationConverged(m, p.cmd) && !Converged(q, Rehydration, d.sha)
    ensures p.cmd.items != "" && p.deferredDeletions ==> !ItemsConverged(m, p.cmd, d.sha) && !Converged(q, Items, d.sha)
  {
    assert Marker.Word(d.sha(p.cmd.items));
  }

  /** A restart during a push: the marker it writes names a boot that is gone,
      so the next push of this boot skips nothing. */
  lemma RestartForcesReapply(w: World, cmd: Command, q: Push, probeOk: bool, d: Deal)
    requires Fair(d) && Inv(w, d) && w.phase.Reloaded? && w.phase.p.session != w.session
    requires Writes(w.phase.p) && Proper(cmd, d)
    requires var v := NextWrite(w, w.phase.p, d.sha);
             q.mark == v.mark && q.session == v.session
    ensures !Skips(NextWrite(w, w.phase.p, d.sha), cmd, probeOk, d.sha)
    ensures forall s :: !Converged(q, s, d.sha)
  {
    WrittenMark(w, d);
  }
}

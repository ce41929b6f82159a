/** Soundness of the convergence gate and of the per-section skips over every
    run, section by section. */
module ConvergenceTheorems {
  import opened Options
  import Marker
  import opened Convergence

  /** What the operator promises of every push: a hash stands for one content.
      meaning gives the content each hash stands for. */
  datatype Deal = Deal(meaning: string -> Live, sha: string -> string)

  ghost predicate Fair(d: Deal) {
    GoodHash(d.sha)
  }

  ghost predicate Proper(cmd: Command, d: Deal) {
    && (cmd.hash != "" ==>
          && Marker.Word(cmd.hash) && cmd.hash != "composite"
          && d.meaning(cmd.hash) == Live(cmd.config, cmd.rbac, cmd.items))
    && (cmd.rehydration.Some? ==> cmd.rehydration.value == "" || Marker.Word(cmd.rehydration.value))
    && CleanTenants(cmd.tenants)
  }

  // --- What a marker claims ---

  /** The content the composite hash stands for. Items are recorded on their
      own, because a push may leave deletions for later. */
  ghost function Implied(m: Mark, s: Section, d: Deal): string {
    if m.composite == "" || m.composite == "composite" || s == Items then "" else Content(d.meaning(m.composite), s)
  }

  ghost predicate Claims(m: Mark, s: Section, d: Deal) {
    Recorded(m, s) != "" || Implied(m, s, d) != ""
  }

  /** All the marker claims of the section holds. */
  ghost predicate Told(m: Mark, live: Live, s: Section, d: Deal) {
    && (Recorded(m, s) != "" ==> Recorded(m, s) == d.sha(Content(live, s)))
    && (Implied(m, s, d) != "" ==> Implied(m, s, d) == Content(live, s))
  }

  /** Nothing the marker claims of the section holds. */
  ghost predicate Denied(m: Mark, live: Live, s: Section, d: Deal) {
    && (Recorded(m, s) != "" ==> Recorded(m, s) != d.sha(Content(live, s)))
    && (Implied(m, s, d) != "" ==> Implied(m, s, d) != Content(live, s))
  }

  // --- The invariant ---

  ghost predicate MarkOk(m: Mark, used: set<string>) {
    && (m.session == "" || m.session in used || (m.sections.None? && (m.composite == "" || m.composite == "composite")))
    && (m.sections.Some? ==> Wordy(m.sections.value))
  }

  ghost predicate Base(w: World, d: Deal) {
    && w.session in w.used && (forall x | x in w.used :: Marker.Word(x))
    && MarkOk(w.mark, w.used)
    && (w.phase.Received? || w.phase.Ready? ==> Proper(w.phase.cmd, d))
    && (InPush(w.phase) ==>
          var p := w.phase.p;
          Proper(p.cmd, d) && p.mark == w.mark && (p.session == "" || p.session in w.used))
  }

  /** The push has not come to the section yet. */
  predicate Before(ph: Phase, s: Section) {
    ph.Captured? || (s == Items && (ph.Configured? || ph.Seeded?))
  }

  predicate Done(p: Push, s: Section) {
    match s
    case Config => p.configOk
    case Rbac => p.rbacOk
    case Items => p.itemsOk && !p.deferredDeletions
    case _ => false
  }

  predicate ConfigFailed(p: Push) {
    (p.cmd.config != "" && !p.configOk) || (p.cmd.rbac != "" && !p.rbacOk)
  }

  ghost predicate PushTrue(w: World, p: Push, s: Section) {
    && (s in p.applied ==> Requested(p.cmd, s))
    && (Before(w.phase, s) ==> s !in p.touched && s !in p.applied)
    && (s in p.touched ==> s in p.applied || ConfigFailed(p) || (s == Items && p.cmd.items != "" && !p.itemsOk))
    && (Requested(p.cmd, s) && Done(p, s) && s in p.applied ==> Content(w.live, s) == Asked(p.cmd, s))
    && (!Before(w.phase, s) && Requested(p.cmd, s) && Done(p, s) && s !in p.applied && p.session == w.session ==>
          p.mark.session == p.session && (s !in w.stale ==> Content(w.live, s) == Asked(p.cmd, s)))
  }

  ghost predicate MarkTrue(w: World, s: Section, d: Deal) {
    w.mark.session == w.session && s !in w.stale ==>
      if s in Touched(w.phase) then Denied(w.mark, w.live, s, d) else Told(w.mark, w.live, s, d)
  }

  ghost predicate SectionInv(w: World, s: Section, d: Deal) {
    MarkTrue(w, s, d) && (InPush(w.phase) ==> PushTrue(w, w.phase.p, s))
  }

  ghost predicate Inv(w: World, d: Deal) {
    Base(w, d) && forall s | s in CONTENT_SECTIONS :: SectionInv(w, s, d)
  }

  ghost predicate ProperStep(step: Step, d: Deal) {
    step.Begin? ==> Proper(step.cmd, d)
  }

  // --- One step keeps it ---

  lemma ConfigRan(w: World, ok: bool, left: Live, s: Section, d: Deal)
    requires Fair(d) && Base(w, d) && SectionInv(w, s, d) && s in CONTENT_SECTIONS && w.phase.Captured?
    requires ConfigRuns(w.phase.p, d.sha)
    ensures SectionInv(NextConfig(w, w.phase.p, ok, left, d.sha), s, d)
  {
  }

  lemma ConfigKeeps(w: World, ok: bool, left: Live, s: Section, d: Deal)
    requires Fair(d) && Base(w, d) && SectionInv(w, s, d) && s in CONTENT_SECTIONS && w.phase.Captured?
    ensures SectionInv(NextConfig(w, w.phase.p, ok, left, d.sha), s, d)
  {
    if ConfigRuns(w.phase.p, d.sha) { ConfigRan(w, ok, left, s, d); }
  }

  lemma ItemsKeepOwn(w: World, ok: bool, dd: bool, left: Live, d: Deal)
    requires Fair(d) && Base(w, d) && SectionInv(w, Items, d) && w.phase.Seeded?
    ensures SectionInv(NextItems(w, w.phase.p, ok, dd, left, d.sha), Items, d)
  {
  }

  /** v differs from w in nothing that concerns the config sections. */
  lemma ConfigSame(w: World, v: World, s: Section, d: Deal)
    requires SectionInv(w, s, d) && (s == Config || s == Rbac) && w.phase.Seeded? && v.phase.Itemized?
    requires v.session == w.session && v.mark == w.mark && v.stale == w.stale
    requires Content(v.live, s) == Content(w.live, s)
    requires var p, q := w.phase.p, v.phase.p;
             && q.cmd == p.cmd && q.session == p.session && q.mark == p.mark
             && q.configOk == p.configOk && q.rbacOk == p.rbacOk
             && (s in q.touched <==> s in p.touched) && (s in q.applied <==> s in p.applied)
    ensures SectionInv(v, s, d)
  {
  }

  lemma ItemsKeepOther(w: World, ok: bool, dd: bool, left: Live, s: Section, d: Deal)
    requires SectionInv(w, s, d) && (s == Config || s == Rbac) && w.phase.Seeded?
    ensures SectionInv(NextItems(w, w.phase.p, ok, dd, left, d.sha), s, d)
  {
    ConfigSame(w, NextItems(w, w.phase.p, ok, dd, left, d.sha), s, d);
  }

  lemma PhaseAfterRestart(ph: Phase)
    ensures InPush(AfterRestart(ph)) <==> InPush(ph)
    ensures InPush(ph) ==> AfterRestart(ph).p == Rebooted(ph.p)
    ensures forall s :: Before(AfterRestart(ph), s) <==> Before(ph, s)
    ensures !InPush(ph) ==> AfterRestart(ph) == ph
  {
  }

  /** In a fresh boot the marker claims nothing and the push holds nothing. */
  lemma FreshBoot(v: World, s: Section, d: Deal)
    requires v.mark.session == v.session ==>
               v.mark.sections.None? && (v.mark.composite == "" || v.mark.composite == "composite")
    requires InPush(v.phase) ==> v.phase.p.touched == {} && v.phase.p.applied == {} && v.phase.p.session != v.session
    ensures SectionInv(v, s, d)
  {
  }

  lemma RestartKeeps(w: World, session: string, boot: Live, s: Section, d: Deal)
    requires Base(w, d) && session !in w.used && Marker.Word(session)
    ensures SectionInv(Next(w, Restart(session, boot), d.sha), s, d)
  {
    PhaseAfterRestart(w.phase);
    FreshBoot(Next(w, Restart(session, boot), d.sha), s, d);
  }

  lemma EntryKeeps(w: World, step: Step, s: Section, d: Deal)
    requires SectionInv(w, s, d) && s in CONTENT_SECTIONS && (step.Begin? || step.Gate? || step.Capture?)
    ensures SectionInv(Next(w, step, d.sha), s, d)
  {
  }

  lemma SeedKeeps(w: World, ok: bool, deferred: bool, s: Section, d: Deal)
    requires SectionInv(w, s, d) && s in CONTENT_SECTIONS && w.phase.Configured?
    ensures SectionInv(w.(phase := Seeded(NextSeed(w.phase.p, ok, deferred, d.sha))), s, d)
  {
  }

  lemma ReloadKeeps(w: World, retryOk: bool, still: bool, failed: bool, s: Section, d: Deal)
    requires SectionInv(w, s, d) && s in CONTENT_SECTIONS && w.phase.Itemized?
    ensures SectionInv(w.(phase := Reloaded(NextReload(w.phase.p, retryOk, still, failed))), s, d)
  {
  }

  /** A push that ends without a marker leaves what it changed stale. */
  lemma EndKeeps(w: World, s: Section, d: Deal)
    requires SectionInv(w, s, d)
    ensures SectionInv(Ended(w), s, d)
  {
  }

  lemma NewSectionsOk(p: Push, d: Deal)
    requires Fair(d) && Proper(p.cmd, d) && (p.mark.sections.Some? ==> Wordy(p.mark.sections.value))
    ensures var n := NewSections(p, d.sha);
            && Wordy(n)
            && (forall s | s in n && Requested(p.cmd, s) :: n[s] == SectionHash(p.cmd, s, d.sha))
            && (forall s | s in n && !Requested(p.cmd, s) ::
                  p.mark.sections.Some? && s in p.mark.sections.value && n[s] == p.mark.sections.value[s])
            && (Items in n ==> !p.deferredDeletions)
  {
  }

  /** The marker a successful push leaves, read back from the file. */
  lemma WrittenMark(w: World, d: Deal)
    requires Fair(d) && w.phase.Reloaded? && Writes(w.phase.p) && Proper(w.phase.p.cmd, d)
    requires w.phase.p.mark.sections.Some? ==> Wordy(w.phase.p.mark.sections.value)
    requires w.phase.p.session == "" || Marker.Word(w.phase.p.session)
    ensures LeftBy(NextWrite(w, w.phase.p, d.sha).mark, w.phase.p, d.sha)
  {
    var p := w.phase.p;
    NewSectionsOk(p, d);
    StoredMark(p.cmd.hash, p.session, NewSections(p, d.sha), p.cmd.cell, p.cmd.tenants);
  }

  /** What a push records of a section; a missing entry reads as empty. */
  function NewRecord(p: Push, s: Section, sha: string -> string): string {
    if s == Items && p.deferredDeletions then ""
    else if Requested(p.cmd, s) then SectionHash(p.cmd, s, sha)
    else Recorded(p.mark, s)
  }

  lemma NewSectionRecord(p: Push, s: Section, d: Deal)
    requires Fair(d) && s in CONTENT_SECTIONS && (p.mark.sections.Some? ==> Wordy(p.mark.sections.value))
    ensures var n := NewSections(p, d.sha);
            && (s in n <==> NewRecord(p, s, d.sha) != "")
            && (s in n ==> n[s] == NewRecord(p, s, d.sha))
  {
    assert Marker.Word(SectionHash(p.cmd, s, d.sha));
  }

  lemma KeptRecord(composite: string, session: string, sections: map<Section, string>, cell: bool, s: Section)
    requires s in CONTENT_SECTIONS
    ensures Recorded(Mark(composite, session, Some(Kept(sections, cell))), s)
         == if s in sections then sections[s] else ""
  {
  }

  lemma NewMarkRecords(p: Push, s: Section, d: Deal)
    requires Fair(d) && s in CONTENT_SECTIONS && (p.mark.sections.Some? ==> Wordy(p.mark.sections.value))
    ensures Recorded(NewMark(p, d.sha), s) == NewRecord(p, s, d.sha)
    ensures s in NewSections(p, d.sha) <==> NewRecord(p, s, d.sha) != ""
  {
    NewSectionRecord(p, s, d);
    KeptRecord(p.cmd.hash, p.session, NewSections(p, d.sha), p.cmd.cell, s);
  }

  /** A marker with the push's hash and record is true of a section the push has
      in force, or took over from a true marker of this boot. */
  lemma RecordIsTrue(w: World, p: Push, m: Mark, s: Section, d: Deal)
    requires Fair(d) && Proper(p.cmd, d) && p.mark == w.mark && w.phase == Reloaded(p) && Writes(p)
    requires SectionInv(w, s, d) && s in CONTENT_SECTIONS && p.session == w.session
    requires m.composite == p.cmd.hash && Recorded(m, s) == NewRecord(p, s, d.sha)
    requires if p.mark.session == p.session then s in p.applied || s !in w.stale
             else Requested(p.cmd, s) || NewRecord(p, s, d.sha) == ""
    ensures Told(m, w.live, s, d)
  {
  }

  /** What the new marker claims of a section holds, unless it is stale. */
  lemma WrittenTold(w: World, p: Push, s: Section, d: Deal)
    requires Fair(d) && Base(w, d) && w.phase == Reloaded(p) && Writes(p)
    requires SectionInv(w, s, d) && s in CONTENT_SECTIONS
    requires p.session == w.session && s !in StaleAfterWrite(w, p, d.sha)
    ensures Told(NewMark(p, d.sha), w.live, s, d)
  {
    NewMarkRecords(p, s, d);
    RecordIsTrue(w, p, NewMark(p, d.sha), s, d);
  }

  /** v is w after a push that wrote its marker. */
  predicate AfterWrite(w: World, p: Push, v: World, sha: string -> string) {
    && w.phase == Reloaded(p) && Writes(p) && LeftBy(v.mark, p, sha)
    && v == w.(mark := v.mark, phase := Idle, stale := StaleAfterWrite(w, p, sha))
  }

  lemma WritesAfter(w: World, d: Deal)
    requires Fair(d) && Base(w, d) && w.phase.Reloaded? && Writes(w.phase.p)
    ensures AfterWrite(w, w.phase.p, NextWrite(w, w.phase.p, d.sha), d.sha)
  {
    WrittenMark(w, d);
  }

  lemma WrittenSection(w: World, p: Push, v: World, s: Section, d: Deal)
    requires Fair(d) && Base(w, d) && SectionInv(w, s, d) && s in CONTENT_SECTIONS && AfterWrite(w, p, v, d.sha)
    ensures SectionInv(v, s, d)
  {
    if p.session == w.session && s !in v.stale { WrittenTold(w, p, s, d); }
  }

  lemma WriteKeeps(w: World, s: Section, d: Deal)
    requires Fair(d) && Base(w, d) && SectionInv(w, s, d) && s in CONTENT_SECTIONS && w.phase.Reloaded?
    ensures SectionInv(NextWrite(w, w.phase.p, d.sha), s, d)
  {
    if Writes(w.phase.p) {
      WritesAfter(w, d);
      WrittenSection(w, w.phase.p, NextWrite(w, w.phase.p, d.sha), s, d);
    } else {
      EndKeeps(w, s, d);
    }
  }

  lemma StepKeepsSection(w: World, step: Step, s: Section, d: Deal)
    requires Fair(d) && Base(w, d) && SectionInv(w, s, d) && s in CONTENT_SECTIONS && ProperStep(step, d)
    ensures SectionInv(Next(w, step, d.sha), s, d)
  {
    match step
    case ApplyConfig(ok, left) => if w.phase.Captured? { ConfigKeeps(w, ok, left, s, d); }
    case ApplyItems(ok, dd, left) =>
      if w.phase.Seeded? {
        if s == Items { ItemsKeepOwn(w, ok, dd, left, d); } else { ItemsKeepOther(w, ok, dd, left, s, d); }
      }
    case Write => if w.phase.Reloaded? { WriteKeeps(w, s, d); }
    case Restart(session, boot) =>
      if session !in w.used && Marker.Word(session) { RestartKeeps(w, session, boot, s, d); }
    case Abort => EndKeeps(w, s, d);
    case Seed(ok, deferred) => if w.phase.Configured? { SeedKeeps(w, ok, deferred, s, d); }
    case Reload(ok, still, failed) => if w.phase.Itemized? { ReloadKeeps(w, ok, still, failed, s, d); }
    case _ => EntryKeeps(w, step, s, d);
  }

  lemma MarkKeepsBase(w: World, v: World, d: Deal)
    requires Base(w, d) && v.session == w.session && v.used == w.used && v.phase.Idle? && MarkOk(v.mark, w.used)
    ensures Base(v, d)
  {
  }

  lemma WriteKeepsBase(w: World, d: Deal)
    requires Fair(d) && Base(w, d) && w.phase.Reloaded?
    ensures Base(NextWrite(w, w.phase.p, d.sha), d)
  {
    if Writes(w.phase.p) {
      WrittenMark(w, d);
      NewSectionsOk(w.phase.p, d);
    }
    MarkKeepsBase(w, NextWrite(w, w.phase.p, d.sha), d);
  }

  lemma SamePushKeepsBase(w: World, v: World, d: Deal)
    requires Base(w, d) && v.session == w.session && v.used == w.used && v.mark == w.mark
    requires InPush(w.phase) && InPush(v.phase)
    requires v.phase.p.cmd == w.phase.p.cmd && v.phase.p.mark == w.phase.p.mark
    requires v.phase.p.session == w.phase.p.session
    ensures Base(v, d)
  {
  }

  lemma PushKeepsBase(w: World, step: Step, d: Deal)
    requires Base(w, d) && (step.ApplyConfig? || step.Seed? || step.ApplyItems? || step.Reload?)
    ensures Base(Next(w, step, d.sha), d)
  {
    if Next(w, step, d.sha) != w { SamePushKeepsBase(w, Next(w, step, d.sha), d); }
  }

  lemma RestartKeepsBase(w: World, session: string, boot: Live, d: Deal)
    requires Base(w, d)
    ensures Base(Next(w, Restart(session, boot), d.sha), d)
  {
    PhaseAfterRestart(w.phase);
  }

  lemma StepKeepsBase(w: World, step: Step, d: Deal)
    requires Fair(d) && Base(w, d) && ProperStep(step, d)
    ensures Base(Next(w, step, d.sha), d)
  {
    match step
    case Write => if w.phase.Reloaded? { WriteKeepsBase(w, d); }
    case Begin(_) =>
    case Gate(_) =>
    case Capture(_) =>
    case Abort =>
    case Restart(session, boot) => RestartKeepsBase(w, session, boot, d);
    case _ => PushKeepsBase(w, step, d);
  }

  lemma StepKeeps(w: World, step: Step, d: Deal)
    requires Fair(d) && Inv(w, d) && ProperStep(step, d)
    ensures Inv(Next(w, step, d.sha), d)
  {
    StepKeepsBase(w, step, d);
    forall s | s in CONTENT_SECTIONS ensures SectionInv(Next(w, step, d.sha), s, d) { StepKeepsSection(w, step, s, d); }
  }

  ghost function Run(w: World, steps: seq<Step>, d: Deal): World
    decreases |steps|
  {
    if steps == [] then w else Run(Next(w, steps[0], d.sha), steps[1..], d)
  }

  lemma {:induction false} RunConcat(w: World, a: seq<Step>, b: seq<Step>, d: Deal)
    ensures Run(w, a + b, d) == Run(Run(w, a, d), b, d)
    decreases |a|
  {
    if a == [] {
      assert a + b == b;
    } else {
      assert (a + b)[1..] == a[1..] + b;
      RunConcat(Next(w, a[0], d.sha), a[1..], b, d);
    }
  }

  ghost predicate ProperSteps(steps: seq<Step>, d: Deal) {
    forall i | 0 <= i < |steps| :: ProperStep(steps[i], d)
  }

  lemma {:induction false} RunKeeps(w: World, steps: seq<Step>, d: Deal)
    requires Fair(d) && Inv(w, d) && ProperSteps(steps, d)
    ensures Inv(Run(w, steps, d), d)
    decreases |steps|
  {
    if steps != [] {
      StepKeeps(w, steps[0], d);
      RunKeeps(Next(w, steps[0], d.sha), steps[1..], d);
    }
  }

  function Initial(session: string, boot: Live): World {
    World(session, {session}, boot, Mark("", "", None), Idle, {})
  }

  lemma InitialInv(session: string, boot: Live, d: Deal)
    requires Marker.Word(session)
    ensures Inv(Initial(session, boot), d)
  {
  }

  /** A mite that finds a legacy one-line marker starts sound too, as long as
      the marker is true in the boot it names. */
  lemma LegacyInv(session: string, boot: Live, hash: string, written: string, d: Deal)
    requires Marker.Word(session) && Marker.Word(written)
    requires written == session ==> forall s | s in CONTENT_SECTIONS :: Told(Mark(hash, written, None), boot, s, d)
    ensures Inv(World(session, {session, written}, boot, Mark(hash, written, None), Idle, {}), d)
  {
  }

  // --- Soundness over whole runs ---

  ghost predicate InForce(cmd: Command, live: Live, s: Section) {
    Requested(cmd, s) && s in CONTENT_SECTIONS ==> Content(live, s) == Asked(cmd, s)
  }

  /** Whenever the gate skips a push, every section that is not stale is in
      force as the push asks. */
  lemma GateSound(w0: World, steps: seq<Step>, d: Deal, probeOk: bool, s: Section)
    requires Fair(d) && Inv(w0, d) && ProperSteps(steps, d)
    requires var w := Run(w0, steps, d);
             s !in w.stale && w.phase.Received? && Skips(w, w.phase.cmd, probeOk, d.sha)
    ensures var w := Run(w0, steps, d); InForce(w.phase.cmd, w.live, s)
  {
    RunKeeps(w0, steps, d);
    var w := Run(w0, steps, d);
    if s in CONTENT_SECTIONS { GateSoundHere(w, w.phase.cmd, probeOk, s, d); }
  }

  lemma GateSoundHere(w: World, cmd: Command, probeOk: bool, s: Section, d: Deal)
    requires Fair(d) && Base(w, d) && SectionInv(w, s, d) && s in CONTENT_SECTIONS
    requires s !in w.stale && w.phase == Received(cmd) && Skips(w, cmd, probeOk, d.sha)
    ensures InForce(cmd, w.live, s)
  {
    assert Marker.Word(d.sha(cmd.items));
  }

  /** The push is about to decide whether it skips the section. */
  predicate Deciding(ph: Phase, s: Section) {
    (ph.Captured? && (s == Config || s == Rbac)) || (ph.Seeded? && s == Items)
  }

  /** A push skips a section that is not stale, in the boot it captured, only
      when that section is in force. */
  lemma SectionSkipSound(w0: World, steps: seq<Step>, d: Deal, s: Section)
    requires Fair(d) && Inv(w0, d) && ProperSteps(steps, d)
    requires var w := Run(w0, steps, d);
             && s !in w.stale && Deciding(w.phase, s) && w.phase.p.session == w.session
             && Requested(w.phase.p.cmd, s) && Converged(w.phase.p, s, d.sha)
    ensures var w := Run(w0, steps, d); InForce(w.phase.p.cmd, w.live, s)
  {
    RunKeeps(w0, steps, d);
    SectionSkipHere(Run(w0, steps, d), s, d);
  }

  /** A true record of what the command asks for means it is in force. */
  lemma RecordInForce(m: Mark, live: Live, cmd: Command, s: Section, d: Deal)
    requires Fair(d) && Told(m, live, s, d) && s in CONTENT_SECTIONS && Requested(cmd, s)
    requires Recorded(m, s) == SectionHash(cmd, s, d.sha)
    ensures Content(live, s) == Asked(cmd, s)
  {
    assert SectionHash(cmd, s, d.sha) == d.sha(Asked(cmd, s)) && Marker.Word(d.sha(Asked(cmd, s)));
  }

  lemma SectionSkipHere(w: World, s: Section, d: Deal)
    requires Fair(d) && Base(w, d) && SectionInv(w, s, d) && s !in w.stale && Deciding(w.phase, s)
    requires w.phase.p.session == w.session && Requested(w.phase.p.cmd, s) && Converged(w.phase.p, s, d.sha)
    ensures InForce(w.phase.p.cmd, w.live, s)
  {
    assert PushTrue(w, w.phase.p, s) && Before(w.phase, s);
    assert Told(w.mark, w.live, s, d);
    RecordInForce(w.mark, w.live, w.phase.p.cmd, s, d);
  }
}

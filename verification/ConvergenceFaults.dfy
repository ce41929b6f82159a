/** Exactly when a skip goes wrong: after a push that ends without its marker,
    after a marker that takes a section over from another boot, and after a
    restart between the capture and the skip. Each is reached from the first
    boot. */
module ConvergenceFaults {
  import opened Options
  import Marker
  import opened Convergence
  import opened ConvergenceTheorems

  // --- A push that ends without its marker ---

  /** After a push changed a section the marker spoke of, the marker is true of
      it again exactly when the push writes its own. */
  lemma ChangedSectionExactly(w: World, s: Section, d: Deal)
    requires Fair(d) && Inv(w, d) && w.phase.Reloaded? && s in CONTENT_SECTIONS
    requires w.mark.session == w.session && Claims(w.mark, s, d) && s !in w.stale && s in w.phase.p.touched
    ensures var v := Next(w, Write, d.sha);
            Told(v.mark, v.live, s, d) <==> Writes(w.phase.p)
    ensures !Told(Next(w, Abort, d.sha).mark, Next(w, Abort, d.sha).live, s, d)
  {
    assert SectionInv(w, s, d);
    if Writes(w.phase.p) {
      WrittenMark(w, d);
      NewMarkRecords(w.phase.p, s, d);
      AppliedTold(w, w.phase.p, NextWrite(w, w.phase.p, d.sha).mark, s, d);
    }
  }

  lemma AppliedTold(w: World, p: Push, m: Mark, s: Section, d: Deal)
    requires Proper(p.cmd, d) && Writes(p) && PushTrue(w, p, s) && s in CONTENT_SECTIONS && s in p.touched
    requires w.phase == Reloaded(p)
    requires m == Mark("composite", p.cmd.hash, None)
             || (m.composite == p.cmd.hash && Recorded(m, s) == NewRecord(p, s, d.sha))
    ensures Told(m, w.live, s, d)
  {
    assert s in p.applied;
  }

  /** What the gate makes of an older push once p has ended in v. */
  lemma GuardAfter(w: World, p: Push, v: World, a: Command, s: Section, d: Deal)
    requires w.phase == Reloaded(p) && Proper(p.cmd, d) && Proper(a, d) && Skips(w, a, true, d.sha)
    requires s in CONTENT_SECTIONS && Asked(p.cmd, s) != Asked(a, s)
    requires if Writes(p) then AfterWrite(w, p, v, d.sha) else v == Ended(w)
    ensures Skips(v, a, true, d.sha) <==> !Writes(p)
  {
  }

  /** While another push's content is in force, an older push the gate would
      skip stays skipped exactly when the other push writes no marker. */
  lemma GuardExactly(w: World, v: World, a: Command, s: Section, d: Deal)
    requires Fair(d) && Base(w, d) && w.phase.Reloaded? && Proper(a, d) && Skips(w, a, true, d.sha)
    requires s in CONTENT_SECTIONS && Requested(w.phase.p.cmd, s)
    requires Content(w.live, s) == Asked(w.phase.p.cmd, s) != Asked(a, s)
    requires v == NextWrite(w, w.phase.p, d.sha)
    ensures Skips(v, a, true, d.sha) <==> !Writes(w.phase.p)
    ensures v.live == w.live
  {
    if Writes(w.phase.p) { WritesAfter(w, d); }
    GuardAfter(w, w.phase.p, v, a, s, d);
  }

  // --- A section taken over from another boot ---

  /** A successful push in the boot it captured records a section truly exactly
      when it asks for the section, or captured this boot's marker, or this
      boot already holds the content taken over. */
  lemma RecordedExactly(w: World, s: Section, d: Deal)
    requires Fair(d) && Inv(w, d) && w.phase.Reloaded? && Writes(w.phase.p) && w.phase.p.session == w.session
    requires s in CONTENT_SECTIONS && s in NewSections(w.phase.p, d.sha) && s !in w.stale
    ensures var p, m := w.phase.p, NextWrite(w, w.phase.p, d.sha).mark;
            Told(m, w.live, s, d) <==>
              || Requested(p.cmd, s)
              || p.mark.session == w.session
              || Recorded(p.mark, s) == d.sha(Content(w.live, s))
  {
    var p := w.phase.p;
    WrittenMark(w, d);
    assert SectionInv(w, s, d);
    RecordTold(w, p, s, d);
  }

  lemma RecordTold(w: World, p: Push, s: Section, d: Deal)
    requires Fair(d) && Base(w, d) && SectionInv(w, s, d)
    requires w.phase == Reloaded(p) && Writes(p) && p.session == w.session
    requires s in CONTENT_SECTIONS && s in NewSections(p, d.sha) && s !in w.stale
    ensures Told(NewMark(p, d.sha), w.live, s, d) <==>
              || Requested(p.cmd, s)
              || p.mark.session == w.session
              || Recorded(p.mark, s) == d.sha(Content(w.live, s))
  {
    NewMarkRecords(p, s, d);
    if Requested(p.cmd, s) || p.mark.session == w.session { RecordIsTrue(w, p, NewMark(p, d.sha), s, d); }
  }

  /** From a boot without stale sections a write leaves none exactly when every
      section it records was asked for, or the captured marker is this boot's. */
  lemma WriteStaysClean(w: World, d: Deal)
    requires w.phase.Reloaded? && Writes(w.phase.p) && w.phase.p.session == w.session && w.stale == {}
    ensures Next(w, Write, d.sha).stale == {} <==>
              || w.phase.p.mark.session == w.session
              || forall s | s in CONTENT_SECTIONS && s in NewSections(w.phase.p, d.sha) :: Requested(w.phase.p.cmd, s)
  {
    var p := w.phase.p;
    if p.mark.session != p.session {
      assert Next(w, Write, d.sha).stale == Carried(p, d.sha);
      if s :| s in CONTENT_SECTIONS && s in NewSections(p, d.sha) && !Requested(p.cmd, s) {
        assert s in Carried(p, d.sha);
      }
    }
  }

  /** An ordinary recovery: once a push that applied a section writes its marker
      in the boot it captured, the section is no longer stale. */
  lemma RecoveryClears(w: World, s: Section, d: Deal)
    requires Fair(d) && Inv(w, d) && w.phase.Reloaded? && Writes(w.phase.p) && w.phase.p.session == w.session
    requires s in CONTENT_SECTIONS && s in w.phase.p.applied
    ensures var m := NextWrite(w, w.phase.p, d.sha).mark;
            s !in NextWrite(w, w.phase.p, d.sha).stale && Told(m, w.live, s, d)
  {
    assert SectionInv(w, s, d);
    WrittenMark(w, d);
    WrittenTold(w, w.phase.p, s, d);
  }

  // --- A restart between the capture and the skip ---

  predicate Boots(w: World, step: Step) {
    step.Restart? && step.session !in w.used && Marker.Word(step.session)
  }

  /** What the last boot of the run came up with, if there was one. */
  ghost function LastBoot(w: World, steps: seq<Step>, d: Deal): Option<Live>
    decreases |steps|
  {
    if steps == [] then None
    else
      var later := LastBoot(Next(w, steps[0], d.sha), steps[1..], d);
      if later.Some? then later else if Boots(w, steps[0]) then Some(steps[0].boot) else None
  }

  /** The steps a push may see between its capture and its last skip. */
  predicate Between(step: Step) {
    step.Restart? || step.ApplyConfig? || step.Seed?
  }

  predicate Early(ph: Phase) {
    ph.Captured? || ph.Configured? || ph.Seeded?
  }

  /** The same push goes on, in a phase no earlier. */
  predicate GoesOn(w: World, v: World) {
    && Early(w.phase) && Early(v.phase) && (v.phase.Captured? ==> w.phase.Captured?)
    && v.phase.p.cmd == w.phase.p.cmd && v.phase.p.session == w.phase.p.session && v.phase.p.mark == w.phase.p.mark
    && w.used <= v.used && v.session in v.used
  }

  lemma BootStep(w: World, step: Step, d: Deal)
    requires Early(w.phase) && Boots(w, step)
    ensures var v := Next(w, step, d.sha); GoesOn(w, v) && v.session !in w.used && v.live == step.boot
  {
  }

  lemma QuietStep(w: World, step: Step, s: Section, d: Deal)
    requires Early(w.phase) && Between(step) && w.session in w.used && !Boots(w, step)
    ensures var v := Next(w, step, d.sha);
            && GoesOn(w, v) && v.session == w.session && v.stale == w.stale
            && (s == Items || v.phase.Captured? ==> Content(v.live, s) == Content(w.live, s))
  {
  }

  lemma {:induction false} BetweenRun(w: World, steps: seq<Step>, s: Section, d: Deal)
    requires Early(w.phase) && w.session in w.used && forall i | 0 <= i < |steps| :: Between(steps[i])
    ensures var v, last := Run(w, steps, d), LastBoot(w, steps, d);
            && GoesOn(w, v)
            && (last.None? ==> v.session == w.session && v.stale == w.stale)
            && (last.Some? ==> v.session !in w.used)
            && (last.Some? && (s == Items || v.phase.Captured?) ==> Content(v.live, s) == Content(last.value, s))
            && (last.None? && (s == Items || v.phase.Captured?) ==> Content(v.live, s) == Content(w.live, s))
    decreases |steps|
  {
    if steps != [] {
      if Boots(w, steps[0]) { BootStep(w, steps[0], d); } else { QuietStep(w, steps[0], s, d); }
      BetweenRun(Next(w, steps[0], d.sha), steps[1..], s, d);
    }
  }

  /** A skip decided in the captured boot's name is right exactly when Jenkins
      did not restart since the capture, or came up with the content. */
  lemma SkipSinceCaptureExactly(w: World, steps: seq<Step>, s: Section, d: Deal)
    requires Fair(d) && Inv(w, d) && w.phase.Captured? && w.phase.p.session == w.session && s !in w.stale
    requires forall i | 0 <= i < |steps| :: Between(steps[i])
    requires var v := Run(w, steps, d);
             Deciding(v.phase, s) && Requested(v.phase.p.cmd, s) && Converged(v.phase.p, s, d.sha)
    ensures var v, last := Run(w, steps, d), LastBoot(w, steps, d);
            InForce(v.phase.p.cmd, v.live, s) <==> last.None? || Content(last.value, s) == Asked(w.phase.p.cmd, s)
  {
    BetweenRun(w, steps, s, d);
    RunKeeps(w, steps, d);
    var v := Run(w, steps, d);
    if LastBoot(w, steps, d).None? { SectionSkipHere(v, s, d); }
  }

  // --- The three faults, reached from the first boot ---

  /** Every step of a push before its Write. */
  function PushSteps(cmd: Command, itemsOk: bool, left: Live): seq<Step> {
    [Begin(cmd), Gate(false), Capture(true), ApplyConfig(true, left), Seed(true, false),
     ApplyItems(itemsOk, false, left), Reload(true, false, false)]
  }

  ghost function BeforeWrite(w: World, cmd: Command, itemsOk: bool, left: Live, sha: string -> string): World {
    var w1 := Next(Next(Next(w, Begin(cmd), sha), Gate(false), sha), Capture(true), sha);
    var w2 := Next(Next(w1, ApplyConfig(true, left), sha), Seed(true, false), sha);
    Next(Next(w2, ApplyItems(itemsOk, false, left), sha), Reload(true, false, false), sha)
  }

  lemma PushUnrolled(w: World, cmd: Command, itemsOk: bool, left: Live, d: Deal)
    ensures Run(w, PushSteps(cmd, itemsOk, left), d) == BeforeWrite(w, cmd, itemsOk, left, d.sha)
  {
    var s := PushSteps(cmd, itemsOk, left);
    var w1 := Next(w, s[0], d.sha);
    var w2 := Next(w1, s[1], d.sha);
    var w3 := Next(w2, s[2], d.sha);
    var w4 := Next(w3, s[3], d.sha);
    var w5 := Next(w4, s[4], d.sha);
    var w6 := Next(w5, s[5], d.sha);
    assert Run(w6, s[6..], d) == Next(w6, s[6], d.sha);
    assert s[5..][1..] == s[6..] && s[4..][1..] == s[5..] && s[3..][1..] == s[4..];
    assert s[2..][1..] == s[3..] && s[1..][1..] == s[2..];
    assert Run(w5, s[5..], d) == Run(w6, s[6..], d);
    assert Run(w4, s[4..], d) == Run(w5, s[5..], d);
    assert Run(w3, s[3..], d) == Run(w4, s[4..], d);
    assert Run(w2, s[2..], d) == Run(w3, s[3..], d);
    assert Run(w1, s[1..], d) == Run(w2, s[2..], d);
  }

  function WholePush(cmd: Command, itemsOk: bool, left: Live): seq<Step> {
    PushSteps(cmd, itemsOk, left) + [Write]
  }

  lemma WholePushRuns(w: World, cmd: Command, itemsOk: bool, left: Live, d: Deal)
    ensures Run(w, WholePush(cmd, itemsOk, left), d) == Next(BeforeWrite(w, cmd, itemsOk, left, d.sha), Write, d.sha)
  {
    PushUnrolled(w, cmd, itemsOk, left, d);
    RunConcat(w, PushSteps(cmd, itemsOk, left), [Write], d);
    var v := BeforeWrite(w, cmd, itemsOk, left, d.sha);
    assert Run(v, [Write], d) == Next(v, Write, d.sha);
  }

  /** The push has all it asks for in force and is about to write its marker. */
  ghost predicate AboutToWrite(b: World, w: World, c: Command) {
    && b.phase.Reloaded? && AllSucceeded(b.phase.p) && b.phase.p.cmd == c && !b.phase.p.deferredDeletions
    && b.phase.p.session == w.session && b.phase.p.mark == w.mark
    && b.session == w.session && b.used == w.used && b.mark == w.mark
    && b.live == Overlay(c, w.live).(items := if c.items != "" then c.items else w.live.items)
  }

  lemma PushInNewBoot(w: World, c: Command, left: Live, d: Deal)
    requires w.phase.Idle? && w.session != "" && w.mark.session != w.session && c.config != "" && c.rehydration.None?
    ensures AboutToWrite(BeforeWrite(w, c, true, left, d.sha), w, c)
  {
  }

  /** A push that succeeds in a boot its marker does not name runs through. */
  lemma PushRuns(w: World, c: Command, left: Live, d: Deal) returns (b: World)
    requires w.phase.Idle? && w.session != "" && w.mark.session != w.session && c.config != "" && c.rehydration.None?
    ensures AboutToWrite(b, w, c) && Run(w, WholePush(c, true, left), d) == NextWrite(b, b.phase.p, d.sha)
  {
    WholePushRuns(w, c, true, left, d);
    PushInNewBoot(w, c, left, d);
    b := BeforeWrite(w, c, true, left, d.sha);
  }

  /** The marker that push leaves. */
  lemma MarkInNewBoot(w: World, c: Command, left: Live, d: Deal)
    requires Fair(d) && w.phase.Idle? && Marker.Word(w.session) && w.mark.session != w.session
    requires c.config != "" && c.rehydration.None? && c.hash != "" && Proper(c, d)
    requires w.mark.sections.Some? ==> Wordy(w.mark.sections.value)
    ensures var v := Run(w, WholePush(c, true, left), d);
            && v.phase.Idle? && v.session == w.session && v.used == w.used
            && v.live == Overlay(c, w.live).(items := if c.items != "" then c.items else w.live.items)
            && v.mark.composite == c.hash && v.mark.session == w.session
            && v.mark.sections.Some? && Wordy(v.mark.sections.value)
            && (c.items != "" ==> Recorded(v.mark, Items) == d.sha(c.items))
            && (c.items == "" ==> Recorded(v.mark, Items) == Recorded(w.mark, Items))
            && Recorded(v.mark, Config) == d.sha(c.config)
            && (c.rbac != "" ==> Recorded(v.mark, Rbac) == d.sha(c.rbac))
  {
    var b := PushRuns(w, c, left, d);
    MarkFromWrite(b, d);
  }

  lemma WriteStores(b: World, d: Deal)
    requires Fair(d) && b.phase.Reloaded? && Writes(b.phase.p)
    requires Proper(b.phase.p.cmd, d) && Marker.Word(b.phase.p.session)
    requires b.phase.p.mark.sections.Some? ==> Wordy(b.phase.p.mark.sections.value)
    ensures var p, v := b.phase.p, NextWrite(b, b.phase.p, d.sha);
            && v.mark == NewMark(p, d.sha)
            && v.phase.Idle? && v.session == b.session && v.used == b.used && v.live == b.live
  {
    WrittenMark(b, d);
  }

  lemma MarkFromWrite(b: World, d: Deal)
    requires Fair(d) && b.phase.Reloaded? && Writes(b.phase.p)
    requires Proper(b.phase.p.cmd, d) && Marker.Word(b.phase.p.session)
    requires b.phase.p.mark.sections.Some? ==> Wordy(b.phase.p.mark.sections.value)
    requires !b.phase.p.deferredDeletions && b.phase.p.cmd.rehydration.None? && b.phase.p.cmd.config != ""
    ensures var p, v := b.phase.p, NextWrite(b, b.phase.p, d.sha);
            && v.phase.Idle? && v.session == b.session && v.used == b.used && v.live == b.live
            && v.mark.composite == p.cmd.hash && v.mark.session == p.session
            && v.mark.sections.Some? && Wordy(v.mark.sections.value)
            && Recorded(v.mark, Items) == (if p.cmd.items != "" then d.sha(p.cmd.items) else Recorded(p.mark, Items))
            && Recorded(v.mark, Config) == d.sha(p.cmd.config)
            && (p.cmd.rbac != "" ==> Recorded(v.mark, Rbac) == d.sha(p.cmd.rbac))
  {
    WriteStores(b, d);
    NewRecords(b.phase.p, d);
    assert Wordy(NewSections(b.phase.p, d.sha)) by { NewSectionsOk(b.phase.p, d); }
  }

  lemma NewRecords(p: Push, d: Deal)
    requires Fair(d) && p.cmd.config != "" && !p.deferredDeletions
    requires p.mark.sections.Some? ==> Wordy(p.mark.sections.value)
    ensures var m := NewMark(p, d.sha);
            && Recorded(m, Config) == d.sha(p.cmd.config)
            && (p.cmd.rbac != "" ==> Recorded(m, Rbac) == d.sha(p.cmd.rbac))
            && Recorded(m, Items) == if p.cmd.items != "" then d.sha(p.cmd.items) else Recorded(p.mark, Items)
  {
    NewMarkRecords(p, Config, d);
    NewMarkRecords(p, Rbac, d);
    NewMarkRecords(p, Items, d);
  }

  ghost predicate Plain(c: Command, d: Deal) {
    Proper(c, d) && c.hash != "" && !c.reload && c.config != "" && c.rehydration.None?
  }

  lemma PartialPush(w: World, b: Command, left: Live, d: Deal)
    requires w.phase.Idle? && b.config != "" && b.items != "" && b.rehydration.None?
    requires !Converged(Fresh(b, w.session, w.mark), Config, d.sha)
    requires !Converged(Fresh(b, w.session, w.mark), Items, d.sha)
    ensures var v := BeforeWrite(w, b, false, left, d.sha);
            && v.phase.Reloaded? && !AllSucceeded(v.phase.p) && v.live.config == b.config
            && v.mark == w.mark && v.session == w.session
  {
  }

  /** From the first boot: push a succeeds, push b applies its config and fails
      its items, and the next push of a is skipped with b's config in force. */
  lemma PartialPushReached(session: string, boot: Live, a: Command, b: Command, left: Live, d: Deal)
    requires Fair(d) && Marker.Word(session) && Plain(a, d) && Plain(b, d)
    requires a.items != "" && b.items != "" && b.items != a.items && b.config != a.config
    ensures var v := Run(Initial(session, boot), WholePush(a, true, left) + WholePush(b, false, left), d);
            v.phase.Idle? && Skips(v, a, true, d.sha) && v.live.config == b.config != a.config
  {
    var w0 := Initial(session, boot);
    RunConcat(w0, WholePush(a, true, left), WholePush(b, false, left), d);
    MarkInNewBoot(w0, a, left, d);
    var w1 := Run(w0, WholePush(a, true, left), d);
    WholePushRuns(w1, b, false, left, d);
    PartialPush(w1, b, left, d);
    StillSkips(w1, BeforeWrite(w1, b, false, left, d.sha), a, d);
  }

  lemma StillSkips(w: World, b: World, a: Command, d: Deal)
    requires Skips(w, a, true, d.sha) && b.mark == w.mark && b.session == w.session
    requires b.phase.Reloaded? && !AllSucceeded(b.phase.p)
    ensures var v := Next(b, Write, d.sha); Skips(v, a, true, d.sha) && v.live == b.live && v.phase.Idle?
  {
  }

  function ToCapture(cmd: Command): seq<Step> {
    [Begin(cmd), Gate(false), Capture(true)]
  }

  lemma ToCaptureRuns(w: World, a: Command, d: Deal)
    requires w.phase.Idle?
    ensures Run(w, ToCapture(a), d) == w.(phase := Captured(Fresh(a, w.session, w.mark)))
  {
    var s := ToCapture(a);
    var w1 := Next(w, s[0], d.sha);
    var w2 := Next(w1, s[1], d.sha);
    assert Run(w2, s[2..], d) == Next(w2, s[2], d.sha);
    assert s[1..][1..] == s[2..];
    assert Run(w1, s[1..], d) == Run(w2, s[2..], d);
  }

  /** The steps between the capture and the skip of the section. */
  function ToSkip(s: Section, left: Live): seq<Step> {
    if s == Items then [ApplyConfig(true, left), Seed(true, false)] else []
  }

  lemma ToSkipRuns(w: World, s: Section, left: Live, d: Deal)
    requires w.phase.Captured? && s in CONTENT_SECTIONS && w.phase.p.cmd.rehydration.None?
    ensures var v := Run(w, ToSkip(s, left), d);
            && Deciding(v.phase, s) && v.phase.p.cmd == w.phase.p.cmd && v.phase.p.session == w.phase.p.session
            && v.phase.p.mark == w.phase.p.mark && v.session == w.session && Content(v.live, s) == Content(w.live, s)
  {
    if s == Items {
      RunTwo(w, ApplyConfig(true, left), Seed(true, false), d);
      ConfigGoesOn(w, left, d);
      SeedRuns(Next(w, ApplyConfig(true, left), d.sha), d);
    }
  }

  lemma RunTwo(w: World, x: Step, y: Step, d: Deal)
    ensures Run(w, [x, y], d) == Next(Next(w, x, d.sha), y, d.sha)
  {
    assert [x, y][1..] == [y];
    assert Run(Next(w, x, d.sha), [y], d) == Next(Next(w, x, d.sha), y, d.sha);
  }

  lemma ConfigGoesOn(w: World, left: Live, d: Deal)
    requires w.phase.Captured?
    ensures var v := Next(w, ApplyConfig(true, left), d.sha);
            && v.phase.Configured? && v.phase.p.cmd == w.phase.p.cmd && v.phase.p.session == w.phase.p.session
            && v.phase.p.mark == w.phase.p.mark && v.session == w.session && v.live.items == w.live.items
  {
  }

  lemma SeedRuns(w: World, d: Deal)
    requires w.phase.Configured? && w.phase.p.cmd.rehydration.None?
    ensures Next(w, Seed(true, false), d.sha) == w.(phase := Seeded(w.phase.p.(rehydrationOk := true)))
  {
  }

  /** From the first boot: push a records its items, Jenkins restarts without
      them, push c asks for no items and carries the record over, and push e
      skips the items a asked for although this boot never held them. */
  lemma CarriedSectionReached(session: string, boot: Live, session2: string, second: Live,
                              a: Command, c: Command, e: Command, left: Live, d: Deal)
    requires Fair(d) && Marker.Word(session) && Marker.Word(session2) && session2 != session
    requires Plain(a, d) && Plain(c, d)
    requires a.items != "" && c.items == "" && e.items == a.items != second.items && e.rehydration.None?
    ensures var steps := WholePush(a, true, left) + [Restart(session2, second)] + WholePush(c, true, left)
                         + ToCapture(e) + ToSkip(Items, left);
            var v := Run(Initial(session, boot), steps, d);
            && v.phase.Seeded? && v.phase.p.cmd == e && v.phase.p.session == v.session
            && Converged(v.phase.p, Items, d.sha) && !InForce(e, v.live, Items)
  {
    var w0 := Initial(session, boot);
    var s1, s2 := WholePush(a, true, left), [Restart(session2, second)];
    var s3, s4, s5 := WholePush(c, true, left), ToCapture(e), ToSkip(Items, left);
    RunConcat(w0, s1 + s2 + s3 + s4, s5, d);
    RunConcat(w0, s1 + s2 + s3, s4, d);
    RunConcat(w0, s1 + s2, s3, d);
    RunConcat(w0, s1, s2, d);
    MarkInNewBoot(w0, a, left, d);
    var w1 := Run(w0, s1, d);
    assert Run(w1, s2, d) == Next(w1, Restart(session2, second), d.sha);
    var w2 := Next(w1, Restart(session2, second), d.sha);
    assert w2.session == session2 && w2.mark == w1.mark;
    MarkInNewBoot(w2, c, left, d);
    var w3 := Run(w2, s3, d);
    ToCaptureRuns(w3, e, d);
    ToSkipRuns(Run(w3, s4, d), Items, left, d);
  }

  /** From the first boot, for every section: push a succeeds, its resend
      captures the boot, Jenkins restarts without the section, and the resend
      skips it. */
  lemma RestartedSkipReached(session: string, boot: Live, session2: string, second: Live, a: Command, s: Section,
                             left: Live, d: Deal)
    requires Fair(d) && Marker.Word(session) && Marker.Word(session2) && session2 != session && Plain(a, d)
    requires s in CONTENT_SECTIONS && Requested(a, s) && Content(second, s) != Asked(a, s)
    ensures var steps := WholePush(a, true, left) + ToCapture(a) + [Restart(session2, second)] + ToSkip(s, left);
            var v := Run(Initial(session, boot), steps, d);
            && Deciding(v.phase, s) && v.phase.p.cmd == a
            && Converged(v.phase.p, s, d.sha) && !InForce(a, v.live, s)
  {
    var w0 := Initial(session, boot);
    var s1, s2, s3, s4 := WholePush(a, true, left), ToCapture(a), [Restart(session2, second)], ToSkip(s, left);
    RunConcat(w0, s1 + s2 + s3, s4, d);
    RunConcat(w0, s1 + s2, s3, d);
    RunConcat(w0, s1, s2, d);
    MarkInNewBoot(w0, a, left, d);
    var w1 := Run(w0, s1, d);
    ToCaptureRuns(w1, a, d);
    var w2 := Run(w1, s2, d);
    var w3 := Next(w2, Restart(session2, second), d.sha);
    assert Run(w2, s3, d) == w3;
    ToSkipRuns(w3, s, left, d);
  }
}

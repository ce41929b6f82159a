/** When a desired-state push may skip its Jenkins writes: the convergence gate
    and the per-section skips, over every sequence of pushes, outcomes, aborts
    and Jenkins restarts, through the marker file. */
module Convergence {
  import opened Options
  import Marker

  datatype Section = Config | Plugins | Rbac | Items | Rehydration

  /** What the marker file says, as the reader returns it. */
  datatype Mark = Mark(composite: string, session: string, sections: Option<map<Section, string>>)

  /** rehydration is the bundle's ContentHash, when a bundle is requested. */
  datatype Command = Command(
    hash: string, reload: bool, config: string, rbac: string, items: string,
    rehydration: Option<string>, cell: bool, tenants: seq<string>)

  /** The content in force in the running Jenkins boot. */
  datatype Live = Live(config: string, rbac: string, items: string)

  /** One push past the gate: what it captured and what happened so far. The
      last two fields are history: the sections whose live content it changed
      in this boot, and those it applied with success in this boot. */
  datatype Push = Push(
    cmd: Command, session: string, mark: Mark,
    configOk: bool, rbacOk: bool, itemsOk: bool, rehydrationOk: bool,
    deferredJobs: bool, reloadFailed: bool, deferredDeletions: bool, rehydrationApplied: bool,
    touched: set<Section>, applied: set<Section>)

  datatype Phase =
    | Idle
    | Received(cmd: Command)
    | Ready(cmd: Command)
    | Captured(p: Push)
    | Configured(p: Push)
    | Seeded(p: Push)
    | Itemized(p: Push)
    | Reloaded(p: Push)

  /** used holds every boot session so far. stale is history: the sections a
      push of this boot changed and left out of the marker, and those the marker
      took over from another boot, until a push that applies the section again
      writes its marker. */
  datatype World = World(session: string, used: set<string>, live: Live, mark: Mark, phase: Phase, stale: set<Section>)

  datatype Step =
    | Begin(cmd: Command)
    | Gate(probeOk: bool)
    | Capture(probeOk: bool)
    | ApplyConfig(ok: bool, left: Live)
    | Seed(ok: bool, deferred: bool)
    | ApplyItems(ok: bool, deferredDeletions: bool, left: Live)
    | Reload(retryOk: bool, stillDeferred: bool, failed: bool)
    | Write
    | Abort
    | Restart(session: string, boot: Live)

  // --- Section hashes ---

  /** sha stands for SHA-256 in hex: injective, and never empty or spaced. */
  ghost predicate GoodHash(sha: string -> string) {
    && (forall a, b :: sha(a) == sha(b) ==> a == b)
    && (forall a :: Marker.Word(sha(a)))
  }

  function Desired(cmd: Command, sha: string -> string): map<Section, string> {
    map s: Section | Requested(cmd, s) :: SectionHash(cmd, s, sha)
  }

  predicate Requested(cmd: Command, s: Section) {
    match s
    case Config => cmd.config != ""
    case Plugins => false
    case Rbac => cmd.rbac != ""
    case Items => cmd.items != ""
    case Rehydration => cmd.rehydration.Some?
  }

  function SectionHash(cmd: Command, s: Section, sha: string -> string): string {
    match s
    case Config => sha(cmd.config)
    case Plugins => ""
    case Rbac => sha(cmd.rbac)
    case Items => sha(cmd.items)
    case Rehydration => if cmd.rehydration.Some? then cmd.rehydration.value else ""
  }

  /** A missing map entry reads as the empty string. */
  function Recorded(m: Mark, s: Section): string {
    if m.sections.Some? && s in m.sections.value then m.sections.value[s] else ""
  }

  // --- Contents ---

  /** The sections whose live content a push may rely on. */
  const CONTENT_SECTIONS := {Config, Rbac, Items}

  function Content(live: Live, s: Section): string {
    match s
    case Config => live.config
    case Rbac => live.rbac
    case Items => live.items
    case _ => ""
  }

  function Asked(cmd: Command, s: Section): string {
    Content(Live(cmd.config, cmd.rbac, cmd.items), s)
  }

  function Changed(before: Live, after: Live): set<Section> {
    set s: Section | s in CONTENT_SECTIONS && Content(before, s) != Content(after, s)
  }

  function RequestedOf(cmd: Command, sections: set<Section>): set<Section> {
    set s: Section | s in sections && Requested(cmd, s)
  }

  // --- The gate and the per-section skip ---

  predicate RehydrationConverged(m: Mark, cmd: Command) {
    cmd.rehydration.None? || (m.sections.Some? && Recorded(m, Rehydration) == cmd.rehydration.value)
  }

  predicate ItemsConverged(m: Mark, cmd: Command, sha: string -> string) {
    cmd.items == "" || (m.sections.Some? && Recorded(m, Items) == sha(cmd.items))
  }

  predicate Skips(w: World, cmd: Command, probeOk: bool, sha: string -> string) {
    && cmd.hash != "" && !cmd.reload
    && w.mark.composite == cmd.hash && RehydrationConverged(w.mark, cmd) && ItemsConverged(w.mark, cmd, sha)
    && probeOk && w.mark.session != "" && w.session == w.mark.session
  }

  predicate Converged(p: Push, s: Section, sha: string -> string) {
    && p.session != "" && p.mark.session == p.session && p.mark.sections.Some?
    && Recorded(p.mark, s) == (if Requested(p.cmd, s) then SectionHash(p.cmd, s, sha) else "")
  }

  predicate ConfigRuns(p: Push, sha: string -> string) {
    || (p.cmd.config != "" && !Converged(p, Config, sha))
    || (p.cmd.rbac != "" && !Converged(p, Rbac, sha))
  }

  // --- The steps ---

  function Overlay(cmd: Command, live: Live): Live {
    live.(config := if cmd.config != "" then cmd.config else live.config,
          rbac := if cmd.rbac != "" then cmd.rbac else live.rbac)
  }

  /** config.yaml and rbac.yaml are written and reloaded together. A failed
      reload leaves whatever the rollback left. */
  function NextConfig(w: World, p: Push, ok: bool, left: Live, sha: string -> string): World {
    if ConfigRuns(p, sha) then
      var live := if ok then Overlay(p.cmd, w.live) else w.live.(config := left.config, rbac := left.rbac);
      w.(live := live,
         phase := Configured(p.(configOk := ok, rbacOk := p.cmd.rbac != "" && ok,
                                touched := p.touched + Changed(w.live, live),
                                applied := p.applied + if ok then RequestedOf(p.cmd, {Config, Rbac}) else {})))
    else w.(phase := Configured(p.(configOk := p.cmd.config != "", rbacOk := p.cmd.rbac != "")))
  }

  function NextSeed(p: Push, ok: bool, deferred: bool, sha: string -> string): Push {
    if p.cmd.rehydration.None? || Converged(p, Rehydration, sha) then p.(rehydrationOk := true)
    else p.(rehydrationOk := ok, deferredJobs := ok && deferred, rehydrationApplied := ok)
  }

  /** A success without deferred deletions puts the items in force; any other
      outcome leaves whatever the walk left. */
  function NextItems(w: World, p: Push, ok: bool, deferredDeletions: bool, left: Live, sha: string -> string): World {
    if p.cmd.items == "" || Converged(p, Items, sha) then w.(phase := Itemized(p.(itemsOk := true)))
    else
      var live := w.live.(items := if ok && !deferredDeletions then p.cmd.items else left.items);
      w.(live := live,
         phase := Itemized(p.(itemsOk := ok, deferredDeletions := deferredDeletions,
                              touched := p.touched + Changed(w.live, live),
                              applied := p.applied + if ok then {Items} else {})))
  }

  /** The retry of deferred jobs after the items, then the item reloads. */
  function NextReload(p: Push, retryOk: bool, stillDeferred: bool, failed: bool): Push {
    var q := if p.rehydrationApplied && p.deferredJobs
             then p.(rehydrationOk := retryOk, deferredJobs := if retryOk then stillDeferred else p.deferredJobs)
             else p;
    q.(reloadFailed := p.cmd.rehydration.Some? && failed)
  }

  predicate AllSucceeded(p: Push) {
    && (p.cmd.config != "" ==> p.configOk) && (p.cmd.rbac != "" ==> p.rbacOk)
    && (p.cmd.items != "" ==> p.itemsOk) && (p.cmd.rehydration.Some? ==> p.rehydrationOk)
  }

  function NewSections(p: Push, sha: string -> string): map<Section, string> {
    var carried := if p.mark.sections.Some? then p.mark.sections.value else map[];
    carried + Desired(p.cmd, sha)
      - (if p.deferredJobs || p.reloadFailed then {Rehydration} else {})
      - (if p.deferredDeletions then {Items} else {})
  }

  predicate InPush(ph: Phase) {
    ph.Captured? || ph.Configured? || ph.Seeded? || ph.Itemized? || ph.Reloaded?
  }

  function Touched(ph: Phase): set<Section> {
    if InPush(ph) then ph.p.touched else {}
  }

  function Ended(w: World): World {
    w.(phase := Idle, stale := w.stale + Touched(w.phase))
  }

  /** Recorded by the push, asked for by nobody in it, and taken over from the
      marker of another boot. */
  function Carried(p: Push, sha: string -> string): set<Section> {
    set s: Section |
      s in CONTENT_SECTIONS && s in NewSections(p, sha) && !Requested(p.cmd, s) && p.mark.session != p.session
  }

  function StaleAfterWrite(w: World, p: Push, sha: string -> string): set<Section> {
    if p.session != w.session then {}
    else if p.mark.session == p.session then w.stale - p.applied
    else Carried(p, sha)
  }

  predicate Writes(p: Push) {
    AllSucceeded(p) && p.cmd.hash != ""
  }

  function NextWrite(w: World, p: Push, sha: string -> string): World {
    if Writes(p) then
      w.(mark := Stored(p.cmd.hash, p.session, NewSections(p, sha), p.cmd.cell, p.cmd.tenants),
         phase := Idle, stale := StaleAfterWrite(w, p, sha))
    else Ended(w)
  }

  function Rebooted(p: Push): Push {
    p.(touched := {}, applied := {})
  }

  /** A restart takes the push's work with it; the push itself goes on. */
  function AfterRestart(ph: Phase): Phase {
    match ph
    case Captured(p) => Captured(Rebooted(p))
    case Configured(p) => Configured(Rebooted(p))
    case Seeded(p) => Seeded(Rebooted(p))
    case Itemized(p) => Itemized(Rebooted(p))
    case Reloaded(p) => Reloaded(Rebooted(p))
    case _ => ph
  }

  function Fresh(cmd: Command, session: string, mark: Mark): Push {
    Push(cmd, session, mark, false, false, false, false, false, false, false, false, {}, {})
  }

  function Next(w: World, step: Step, sha: string -> string): World {
    match step
    case Begin(cmd) => if w.phase.Idle? then w.(phase := Received(cmd)) else w
    case Gate(probeOk) =>
      if w.phase.Received? then
        w.(phase := if Skips(w, w.phase.cmd, probeOk, sha) then Idle else Ready(w.phase.cmd))
      else w
    case Capture(probeOk) =>
      if w.phase.Ready? then
        w.(phase := Captured(Fresh(w.phase.cmd, if probeOk then w.session else "", w.mark)))
      else w
    case ApplyConfig(ok, left) => if w.phase.Captured? then NextConfig(w, w.phase.p, ok, left, sha) else w
    case Seed(ok, deferred) =>
      if w.phase.Configured? then w.(phase := Seeded(NextSeed(w.phase.p, ok, deferred, sha))) else w
    case ApplyItems(ok, dd, left) => if w.phase.Seeded? then NextItems(w, w.phase.p, ok, dd, left, sha) else w
    case Reload(retryOk, still, failed) =>
      if w.phase.Itemized? then w.(phase := Reloaded(NextReload(w.phase.p, retryOk, still, failed))) else w
    case Write => if w.phase.Reloaded? then NextWrite(w, w.phase.p, sha) else w
    case Abort => Ended(w)
    case Restart(session, boot) =>
      if session in w.used || !Marker.Word(session) then w
      else World(session, w.used + {session}, boot, w.mark, AfterRestart(w.phase), {})
  }

  // --- The marker file ---

  function Name(s: Section): string {
    match s
    case Config => "config"
    case Plugins => "plugins"
    case Rbac => "rbac"
    case Items => "items"
    case Rehydration => "rehydration"
  }

  function ToFile(sections: map<Section, string>): map<string, string> {
    map n | n in Marker.SECTION_NAMES && SectionOf(n) in sections :: sections[SectionOf(n)]
  }

  function SectionOf(n: string): Section {
    if n == "config" then Config else if n == "plugins" then Plugins else if n == "rbac" then Rbac
    else if n == "items" then Items else Rehydration
  }

  function FromFile(m: Marker.AppliedMarker): Mark {
    Mark(m.composite, m.session,
         if m.sections.Sections? then Some(map s: Section | Name(s) in m.sections.hashes :: m.sections.hashes[Name(s)])
         else None)
  }

  function FileOf(composite: string, session: string, sections: map<Section, string>, cell: bool, tenants: seq<string>)
    : Marker.AppliedMarker
  {
    Marker.AppliedMarker(composite, session, Marker.Sections(ToFile(sections)), cell, if cell then tenants else [])
  }

  /** Writes the marker file and reads it back. */
  function Stored(composite: string, session: string, sections: map<Section, string>, cell: bool, tenants: seq<string>)
    : Mark
  {
    FromFile(Marker.ReadText(Marker.Text(Marker.Lines(FileOf(composite, session, sections, cell, tenants)))))
  }

  lemma NamesRoundTrip(s: Section)
    ensures SectionOf(Name(s)) == s && Name(s) in Marker.SECTION_NAMES
  {
    match s
    case Config => assert Marker.SECTION_NAMES[0] == Name(s);
    case Plugins => assert Marker.SECTION_NAMES[1] == Name(s);
    case Rbac => assert Marker.SECTION_NAMES[2] == Name(s);
    case Items => assert Marker.SECTION_NAMES[3] == Name(s);
    case Rehydration => assert Marker.SECTION_NAMES[4] == Name(s);
  }

  lemma FileRoundTrip(sections: map<Section, string>)
    ensures (map s: Section | Name(s) in ToFile(sections) :: ToFile(sections)[Name(s)]) == sections
  {
    forall s: Section ensures SectionOf(Name(s)) == s && Name(s) in Marker.SECTION_NAMES { NamesRoundTrip(s); }
  }

  /** Section hashes as a push records them: words, except that the content hash
      of a rehydration bundle may be empty. */
  ghost predicate Wordy(sections: map<Section, string>) {
    forall s | s in sections :: Marker.Word(sections[s]) || (s == Rehydration && sections[s] == "")
  }

  ghost predicate CleanTenants(tenants: seq<string>) {
    forall i | 0 <= i < |tenants| :: Marker.Word(tenants[i]) && ',' !in tenants[i]
  }

  /** An empty content hash at the end of the file is lost. */
  function Kept(sections: map<Section, string>, cell: bool): map<Section, string> {
    if Rehydration in sections && sections[Rehydration] == "" && !cell then sections - {Rehydration} else sections
  }

  /** The marker a push means to leave. */
  function NewMark(p: Push, sha: string -> string): Mark {
    Mark(p.cmd.hash, p.session, Some(Kept(NewSections(p, sha), p.cmd.cell)))
  }

  /** The marker a push leaves: the one it means to, or, without a session, a
      misread one-line file. */
  predicate LeftBy(m: Mark, p: Push, sha: string -> string) {
    m == NewMark(p, sha) || (p.session == "" && m == Mark("composite", p.cmd.hash, None))
  }

  /** The file keeps the marker, up to an empty content hash, except a one-line
      file, which reads back as a marker that matches nothing. */
  lemma StoredMark(composite: string, session: string, sections: map<Section, string>, cell: bool, tenants: seq<string>)
    requires Marker.Word(composite) && (session == "" || Marker.Word(session))
    requires Wordy(sections) && CleanTenants(tenants)
    ensures var m := Stored(composite, session, sections, cell, tenants);
            && (m == Mark(composite, session, Some(Kept(sections, cell))) || m == Mark("composite", composite, None))
            && (session != "" ==> m == Mark(composite, session, Some(Kept(sections, cell))))
  {
    var m := FileOf(composite, session, sections, cell, tenants);
    TidyFile(composite, session, sections, cell, tenants);
    Marker.ReadsBack(m);
    FileRoundTrip(Kept(sections, cell));
    KeptInFile(sections);
  }

  lemma TidyFile(composite: string, session: string, sections: map<Section, string>, cell: bool, tenants: seq<string>)
    requires Marker.Word(composite) && (session == "" || Marker.Word(session))
    requires Wordy(sections) && CleanTenants(tenants)
    ensures Marker.Tidy(FileOf(composite, session, sections, cell, tenants))
  {
    forall n | n in ToFile(sections) && SectionOf(n) == Rehydration ensures n == Marker.REHYDRATION {
    }
  }

  lemma KeptInFile(sections: map<Section, string>)
    ensures Marker.REHYDRATION in ToFile(sections) <==> Rehydration in sections
    ensures Rehydration in sections ==> ToFile(sections)[Marker.REHYDRATION] == sections[Rehydration]
    ensures ToFile(sections - {Rehydration}) == ToFile(sections) - {Marker.REHYDRATION}
  {
    NamesRoundTrip(Rehydration);
    forall n | n in Marker.SECTION_NAMES ensures SectionOf(n) == Rehydration <==> n == Marker.REHYDRATION {
    }
  }
}

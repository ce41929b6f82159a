/** The command mailbox: a newest-wins desired slot, a bounded FIFO of
    imperative commands without duplicates, and the one worker that drains
    both. The receive loop and the worker interleave at every lock. */
module Mailbox {
  import opened Options

  /** arrival numbers the desired-state commands in the order received. */
  datatype Work =
    | Desired(arrival: nat, idle: bool)
    | Imperative(id: string, payload: string)

  const QUEUE_CAP := 16

  datatype Box = Box(desired: Option<Work>, imperative: seq<Work>, signal: bool, active: set<string>)

  // --- The step functions of the locked methods ---

  function Notify(b: Box): Box {
    b.(signal := true)
  }

  function Activated(active: set<string>, id: string): set<string> {
    if id == "" then active else active + {id}
  }

  function PutImperative(b: Box, w: Work): (Box, bool, bool)
    requires w.Imperative?
  {
    if w.id != "" && w.id in b.active then (b, true, true)
    else if |b.imperative| >= QUEUE_CAP then (b, false, false)
    else
      (Notify(b.(active := Activated(b.active, w.id), imperative := b.imperative + [w])), true, false)
  }

  function Finish(b: Box, w: Work): Box {
    if w.Imperative? then b.(active := b.active - {w.id}) else b
  }

  /** The part of take under its own lock. */
  function TakeLocked(b: Box): (Box, Option<Work>) {
    if |b.imperative| > 0 then (b.(imperative := b.imperative[1..]), Some(b.imperative[0]))
    else TakeDesired(b)
  }

  function TakeDesired(b: Box): (Box, Option<Work>) {
    (b.(desired := None), b.desired)
  }

  function RestoreDesired(b: Box, w: Work): Box {
    if b.desired.Some? then b else b.(desired := Some(w))
  }

  class CommandMailbox {
    var desired: Option<Work>
    var imperative: seq<Work>
    var signal: bool
    var active: set<string>

    ghost function Value(): Box
      reads this
    {
      Box(desired, imperative, signal, active)
    }

    constructor ()
      ensures Value() == Box(None, [], false, {})
    {
      desired, imperative, signal, active := None, [], false, {};
    }

    method PutDesiredSlot(w: Work)
      modifies this
      ensures Value() == Notify(old(Value()).(desired := Some(w)))
    {
      desired := Some(w);
      signal := true;
    }

    method PutImperativeWork(w: Work) returns (ok: bool, duplicate: bool)
      requires w.Imperative?
      modifies this
      ensures (Value(), ok, duplicate) == PutImperative(old(Value()), w)
    {
      if w.id != "" && w.id in active { return true, true; }
      if |imperative| >= QUEUE_CAP { return false, false; }
      if w.id != "" { active := active + {w.id}; }
      imperative := imperative + [w];
      signal := true;
      return true, false;
    }

    method FinishWork(w: Work)
      modifies this
      ensures Value() == Finish(old(Value()), w)
    {
      if w.Imperative? { active := active - {w.id}; }
    }

    method TakeWork() returns (w: Option<Work>)
      modifies this
      ensures (Value(), w) == TakeLocked(old(Value()))
    {
      if |imperative| > 0 {
        w := Some(imperative[0]);
        imperative := imperative[1..];
      } else {
        w := desired;
        desired := None;
      }
    }

    method RestoreSlot(w: Work)
      modifies this
      ensures Value() == RestoreDesired(old(Value()), w)
    {
      if desired.Some? { return; }
      desired := Some(w);
    }
  }

  // --- The receive loop and the worker ---

  /** Where the worker stands between two locked methods. */
  datatype Phase =
    | Waiting
    | Taking(first: bool)
    | Deferring(w: Work)
    | DeferTaking(w: Work, first: bool)
    | PuttingBack(w: Work, imp: Work)
    | Notifying(imp: Work)
    | Running(cmd: Work)
    | Inline(cmd: Work, dw: Work)

  /** accepted, completed, newest and applied are history. announcing is the
      receive loop between storing a desired command and its notify. */
  datatype World = World(
    box: Box, phase: Phase, announcing: bool,
    accepted: seq<Work>, completed: seq<Work>, newest: nat, applied: nat)

  datatype Step =
    | ArriveDesired(idle: bool)
    | Announce
    | ArriveImperative(id: string, payload: string)
    | Wake
    | Take(desiredFirst: bool, applyNow: bool)
    | IdleCheck(applyNow: bool)
    | IdleWake
    | IdleTake(desiredFirst: bool, applyNow: bool)
    | PutBack
    | PutBackNotify
    | InlineTake
    | InlineRestore
    | InlineRun
    | DropSignal
    | Done

  function Initial(): World {
    World(Box(None, [], false, {}), Waiting, false, [], [], 0, 0)
  }

  /** An idle-mode desired command waits until builds stop; all else runs. */
  function Started(w: Work, applyNow: bool): Phase {
    if w.Desired? && w.idle && !applyNow then Deferring(w) else Running(w)
  }

  function NextTake(m: World, desiredFirst: bool, applyNow: bool): World
    requires m.phase.Taking?
  {
    if m.phase.first then
      if desiredFirst && m.box.desired.Some? then
        m.(box := TakeDesired(m.box).0, phase := Started(m.box.desired.value, applyNow))
      else m.(phase := Taking(false))
    else
      var (b, w) := TakeLocked(m.box);
      m.(box := b, phase := if w.Some? then Started(w.value, applyNow) else Waiting)
  }

  /** Inside the idle loop any desired command waits for the builds, whether
      or not it asked for idle mode. */
  function Waited(w: Work, applyNow: bool): Phase {
    if applyNow then Running(w) else Deferring(w)
  }

  /** A signal while a desired command is deferred: an imperative puts the
      deferred command back and runs, a desired one replaces it. */
  function Interrupted(w: Work, got: Option<Work>, applyNow: bool): Phase {
    match got
    case Some(nw) => if nw.Imperative? then PuttingBack(w, nw) else Waited(nw, applyNow)
    case None => Waited(w, applyNow)
  }

  function NextIdleTake(m: World, desiredFirst: bool, applyNow: bool): World
    requires m.phase.DeferTaking?
  {
    if m.phase.first then
      if desiredFirst && m.box.desired.Some? then
        m.(box := TakeDesired(m.box).0, phase := Waited(m.box.desired.value, applyNow))
      else m.(phase := DeferTaking(m.phase.w, false))
    else
      var (b, got) := TakeLocked(m.box);
      m.(box := b, phase := Interrupted(m.phase.w, got, applyNow))
  }

  function NextDone(m: World): World
    requires m.phase.Running?
  {
    var w := m.phase.cmd;
    m.(box := Finish(m.box, w), phase := Taking(true),
       completed := m.completed + (if w.Imperative? then [w] else []),
       applied := if w.Desired? then w.arrival else m.applied)
  }

  function Next(m: World, step: Step): World {
    match step
    case ArriveDesired(idle) =>
      if m.announcing then m
      else m.(box := m.box.(desired := Some(Desired(m.newest + 1, idle))), newest := m.newest + 1, announcing := true)
    case Announce => if m.announcing then m.(box := Notify(m.box), announcing := false) else m
    case ArriveImperative(id, payload) =>
      if m.announcing then m
      else
        var (b, ok, duplicate) := PutImperative(m.box, Imperative(id, payload));
        m.(box := b, accepted := m.accepted + if ok && !duplicate then [Imperative(id, payload)] else [])
    case Wake =>
      if m.phase.Waiting? && m.box.signal then m.(box := m.box.(signal := false), phase := Taking(true)) else m
    case Take(first, now) => if m.phase.Taking? then NextTake(m, first, now) else m
    case IdleCheck(now) => if m.phase.Deferring? then m.(phase := Waited(m.phase.w, now)) else m
    case IdleWake =>
      if m.phase.Deferring? && m.box.signal
      then m.(box := m.box.(signal := false), phase := DeferTaking(m.phase.w, true)) else m
    case IdleTake(first, now) => if m.phase.DeferTaking? then NextIdleTake(m, first, now) else m
    case PutBack =>
      if m.phase.PuttingBack? then m.(box := m.box.(desired := Some(m.phase.w)), phase := Notifying(m.phase.imp)) else m
    case PutBackNotify => if m.phase.Notifying? then m.(box := Notify(m.box), phase := Running(m.phase.imp)) else m
    case InlineTake =>
      if m.phase.Running? && m.phase.cmd.Imperative? && m.box.desired.Some?
      then m.(box := TakeDesired(m.box).0, phase := Inline(m.phase.cmd, m.box.desired.value)) else m
    case InlineRestore =>
      if m.phase.Inline? then m.(box := RestoreDesired(m.box, m.phase.dw), phase := Running(m.phase.cmd)) else m
    case InlineRun =>
      if m.phase.Inline? && m.phase.dw.Desired?
      then m.(phase := Running(m.phase.cmd), applied := m.phase.dw.arrival) else m
    case DropSignal => if m.phase.Running? && m.phase.cmd.Imperative? then m.(box := m.box.(signal := false)) else m
    case Done => if m.phase.Running? then NextDone(m) else m
  }

  function Run(m: World, steps: seq<Step>): World
    decreases |steps|
  {
    if steps == [] then m else Run(Next(m, steps[0]), steps[1..])
  }

  // --- Conservation ---

  /** The imperative command the worker holds, if any. */
  function Held(p: Phase): seq<Work> {
    match p
    case PuttingBack(_, imp) => [imp]
    case Notifying(imp) => [imp]
    case Running(cmd) => if cmd.Imperative? then [cmd] else []
    case Inline(cmd, _) => [cmd]
    case _ => []
  }

  /** Running, then queued, in arrival order. */
  function Unfinished(m: World): seq<Work> {
    Held(m.phase) + m.box.imperative
  }

  ghost predicate WellKinded(m: World) {
    && (m.box.desired.Some? ==> m.box.desired.value.Desired?)
    && (forall i | 0 <= i < |m.box.imperative| :: m.box.imperative[i].Imperative?)
    && (m.phase.Deferring? || m.phase.DeferTaking? || m.phase.PuttingBack? ==> m.phase.w.Desired?)
    && (m.phase.PuttingBack? || m.phase.Notifying? ==> m.phase.imp.Imperative?)
    && (m.phase.Inline? ==> m.phase.cmd.Imperative? && m.phase.dw.Desired?)
  }

  /** Accepted imperatives are the completed, then the running, then the
      queued ones, in arrival order, and the queue keeps its cap. */
  ghost predicate Fifo(m: World) {
    m.accepted == m.completed + Unfinished(m) && |m.box.imperative| <= QUEUE_CAP
  }

  /** active is exactly the non-empty ids running or queued, each once. */
  ghost predicate ActiveExact(m: World) {
    ExactIds(Unfinished(m), m.box.active)
  }

  ghost predicate ExactIds(u: seq<Work>, active: set<string>) {
    && (forall i | 0 <= i < |u| :: u[i].Imperative? && (u[i].id != "" ==> u[i].id in active))
    && (forall id | id in active :: id != "" && exists i :: 0 <= i < |u| && u[i].id == id)
    && (forall i, j | 0 <= i < j < |u| :: u[i].id == u[j].id ==> u[i].id == "")
  }

  /** A worker that waits with work in the mailbox has a wake-up coming. */
  ghost predicate NoLostWakeup(m: World) {
    m.phase.Waiting? && (m.box.desired.Some? || m.box.imperative != []) ==> m.box.signal || m.announcing
  }

  ghost predicate Sound(m: World) {
    WellKinded(m) && Fifo(m) && ActiveExact(m) && NoLostWakeup(m)
  }

  lemma TakeKeepsKinds(m: World, step: Step)
    requires WellKinded(m) && (step.Take? || step.IdleTake?)
    ensures WellKinded(Next(m, step))
  {
  }

  lemma StepKeepsKinds(m: World, step: Step)
    requires WellKinded(m)
    ensures WellKinded(Next(m, step))
  {
    if step.Take? || step.IdleTake? { TakeKeepsKinds(m, step); }
  }

  lemma StepKeepsWakeup(m: World, step: Step)
    requires WellKinded(m) && NoLostWakeup(m)
    ensures NoLostWakeup(Next(m, step))
  {
  }

  lemma StepKeepsCap(m: World, step: Step)
    requires |m.box.imperative| <= QUEUE_CAP
    ensures |Next(m, step).box.imperative| <= QUEUE_CAP
  {
  }

  /** A take moves the queue's head into the worker's hands: running, then
      queued, stays the same list. */
  lemma TakeUnfinished(m: World, first: bool, now: bool)
    requires WellKinded(m) && m.phase.Taking?
    ensures Unfinished(NextTake(m, first, now)) == Unfinished(m)
  {
    QueueHead(m.box.imperative);
  }

  lemma IdleTakeUnfinished(m: World, first: bool, now: bool)
    requires WellKinded(m) && m.phase.DeferTaking?
    ensures Unfinished(NextIdleTake(m, first, now)) == Unfinished(m)
  {
    QueueHead(m.box.imperative);
  }

  lemma QuietParts(m: World, step: Step)
    requires WellKinded(m) && !step.ArriveImperative? && !step.Done? && !step.Take? && !step.IdleTake?
    ensures var n := Next(m, step);
            Held(n.phase) == Held(m.phase) && n.box.imperative == m.box.imperative
  {
  }

  lemma QuietHistory(m: World, step: Step)
    requires !step.ArriveImperative? && !step.Done?
    ensures var n := Next(m, step);
            n.accepted == m.accepted && n.completed == m.completed && n.box.active == m.box.active
  {
  }

  lemma QuietUnfinished(m: World, step: Step)
    requires WellKinded(m) && !step.ArriveImperative? && !step.Done?
    ensures Unfinished(Next(m, step)) == Unfinished(m)
  {
    if step.Take? {
      if m.phase.Taking? { TakeUnfinished(m, step.desiredFirst, step.applyNow); }
    } else if step.IdleTake? {
      if m.phase.DeferTaking? { IdleTakeUnfinished(m, step.desiredFirst, step.applyNow); }
    } else {
      QuietParts(m, step);
    }
  }

  lemma ArriveUnfinished(m: World, id: string, payload: string)
    ensures var n, w := Next(m, ArriveImperative(id, payload)), Imperative(id, payload);
            || n == m
            || (&& Unfinished(n) == Unfinished(m) + [w] && n.accepted == m.accepted + [w] && n.completed == m.completed
                && n.box.active == Activated(m.box.active, id) && (id == "" || id !in m.box.active))
  {
    var n, w := Next(m, ArriveImperative(id, payload)), Imperative(id, payload);
    assert Held(m.phase) + (m.box.imperative + [w]) == Held(m.phase) + m.box.imperative + [w];
    assert m.accepted + [] == m.accepted;
  }

  lemma DoneUnfinished(m: World)
    requires WellKinded(m)
    ensures var n := Next(m, Done);
            n.accepted == m.accepted && n.completed + Unfinished(n) == m.completed + Unfinished(m)
            && (if Held(m.phase) != [] && m.phase.Running?
                then Unfinished(n) == Unfinished(m)[1..] && n.box.active == m.box.active - {m.phase.cmd.id}
                else Unfinished(n) == Unfinished(m) && n.box.active == m.box.active)
  {
  }

  lemma StepKeepsFifo(m: World, step: Step)
    requires WellKinded(m) && Fifo(m)
    ensures Fifo(Next(m, step))
  {
    StepKeepsCap(m, step);
    match step
    case ArriveImperative(id, payload) =>
      ArriveUnfinished(m, id, payload);
      assert m.completed + (Unfinished(m) + [Imperative(id, payload)])
          == m.completed + Unfinished(m) + [Imperative(id, payload)];
    case Done => DoneUnfinished(m);
    case _ =>
      QuietUnfinished(m, step);
      QuietHistory(m, step);
  }

  lemma StepKeepsActive(m: World, step: Step)
    requires WellKinded(m) && ActiveExact(m)
    ensures ActiveExact(Next(m, step))
  {
    match step
    case ArriveImperative(id, payload) =>
      ArriveUnfinished(m, id, payload);
      if id == "" || id !in m.box.active { ExactAppend(Unfinished(m), m.box.active, Imperative(id, payload)); }
    case Done =>
      DoneUnfinished(m);
      if Unfinished(m) != [] { ExactDrop(Unfinished(m), m.box.active); }
    case _ =>
      QuietUnfinished(m, step);
      QuietHistory(m, step);
  }

  lemma ExactAppend(u: seq<Work>, active: set<string>, w: Work)
    requires ExactIds(u, active) && w.Imperative? && (w.id == "" || w.id !in active)
    ensures ExactIds(u + [w], Activated(active, w.id))
  {
    var v := u + [w];
    forall id | id in Activated(active, w.id) ensures id != "" && exists i :: 0 <= i < |v| && v[i].id == id {
      if id in active {
        var i :| 0 <= i < |u| && u[i].id == id;
        assert v[i].id == id;
      } else {
        assert v[|u|].id == id;
      }
    }
  }

  lemma ExactDrop(u: seq<Work>, active: set<string>)
    requires ExactIds(u, active) && u != []
    ensures ExactIds(u[1..], active - {u[0].id})
  {
    forall id | id in active - {u[0].id} ensures exists i :: 0 <= i < |u[1..]| && u[1..][i].id == id {
      var i :| 0 <= i < |u| && u[i].id == id;
      assert u[1..][i - 1].id == id;
    }
  }

  /** Over every interleaving: first in, first out, with nothing dropped or
      doubled; exact active ids; the queue cap; and no lost wake-up. */
  lemma {:induction false} EveryRunSound(m: World, steps: seq<Step>)
    requires Sound(m)
    ensures Sound(Run(m, steps))
    decreases |steps|
  {
    if steps != [] {
      StepKeepsKinds(m, steps[0]);
      StepKeepsWakeup(m, steps[0]);
      StepKeepsFifo(m, steps[0]);
      StepKeepsActive(m, steps[0]);
      EveryRunSound(Next(m, steps[0]), steps[1..]);
    }
  }

  lemma InitialSound()
    ensures Sound(Initial()) && Ordered(Initial()) && NewestKept(Initial())
  {
  }

  /** The same from an empty mailbox, whatever happens. */
  lemma FirstRunSound(steps: seq<Step>)
    ensures Sound(Run(Initial(), steps))
  {
    InitialSound();
    EveryRunSound(Initial(), steps);
  }

  /** A redelivery of a command that is queued or running changes nothing. */
  lemma RedeliveryDropped(steps: seq<Step>, w: Work, payload: string)
    requires w in Unfinished(Run(Initial(), steps)) && w.Imperative? && w.id != ""
    ensures Next(Run(Initial(), steps), ArriveImperative(w.id, payload)) == Run(Initial(), steps)
  {
    FirstRunSound(steps);
    var n := Run(Initial(), steps);
    var i :| 0 <= i < |Unfinished(n)| && Unfinished(n)[i] == w;
    assert n.accepted + [] == n.accepted;
  }

  lemma QueueHead(q: seq<Work>)
    ensures |q| > 0 ==> [q[0]] + q[1..] == q
  {
  }

  // --- Newest wins ---

  /** The desired command the worker holds outside the slot, if any. */
  function InHand(p: Phase): Option<Work> {
    match p
    case Deferring(w) => Some(w)
    case DeferTaking(w, _) => Some(w)
    case PuttingBack(w, _) => Some(w)
    case Running(cmd) => if cmd.Desired? then Some(cmd) else None
    case Inline(_, dw) => Some(dw)
    case _ => None
  }

  predicate Arrival(o: Option<Work>, n: nat) {
    o.Some? && o.value.Desired? && o.value.arrival == n
  }

  /** Applied, then in hand, then in the slot: each newer than the one before. */
  ghost predicate Ordered(m: World) {
    var slot, hand := m.box.desired, InHand(m.phase);
    && m.applied <= m.newest
    && (slot.Some? && slot.value.Desired? ==> m.applied < slot.value.arrival <= m.newest)
    && (hand.Some? && hand.value.Desired? ==> m.applied < hand.value.arrival <= m.newest)
    && (slot.Some? && slot.value.Desired? && hand.Some? && hand.value.Desired? ==>
          hand.value.arrival < slot.value.arrival)
  }

  /** The newest desired command is in the slot, in hand, or applied. */
  ghost predicate NewestKept(m: World) {
    || m.applied == m.newest
    || Arrival(m.box.desired, m.newest)
    || Arrival(InHand(m.phase), m.newest)
  }

  /** Every put-back of a deferred command finds the slot empty. */
  ghost predicate CleanPutBacks(m: World, steps: seq<Step>)
    decreases |steps|
  {
    steps == [] ||
    (&& (steps[0].PutBack? && m.phase.PuttingBack? ==> m.box.desired.None?)
     && CleanPutBacks(Next(m, steps[0]), steps[1..]))
  }

  lemma TakeKeepsNewest(m: World, first: bool, now: bool)
    requires WellKinded(m) && Ordered(m) && NewestKept(m) && m.phase.Taking?
    ensures Ordered(NextTake(m, first, now)) && NewestKept(NextTake(m, first, now))
  {
  }

  lemma IdleTakeKeepsNewest(m: World, first: bool, now: bool)
    requires WellKinded(m) && Ordered(m) && NewestKept(m) && m.phase.DeferTaking?
    ensures Ordered(NextIdleTake(m, first, now)) && NewestKept(NextIdleTake(m, first, now))
  {
  }

  lemma StepKeepsNewest(m: World, step: Step)
    requires WellKinded(m) && Ordered(m) && NewestKept(m) && CleanPutBacks(m, [step])
    ensures Ordered(Next(m, step)) && NewestKept(Next(m, step))
  {
    if step.Take? && m.phase.Taking? {
      TakeKeepsNewest(m, step.desiredFirst, step.applyNow);
    } else if step.IdleTake? && m.phase.DeferTaking? {
      IdleTakeKeepsNewest(m, step.desiredFirst, step.applyNow);
    }
  }

  /** In every run whose put-backs find the slot empty, the newest desired
      command is never displaced by an older one. */
  lemma {:induction false} NewestWins(m: World, steps: seq<Step>)
    requires WellKinded(m) && Ordered(m) && NewestKept(m) && CleanPutBacks(m, steps)
    ensures Ordered(Run(m, steps)) && NewestKept(Run(m, steps))
    decreases |steps|
  {
    if steps != [] {
      assert CleanPutBacks(m, [steps[0]]);
      StepKeepsNewest(m, steps[0]);
      StepKeepsKinds(m, steps[0]);
      NewestWins(Next(m, steps[0]), steps[1..]);
    }
  }

  /** The put-back keeps the newest command exactly when the slot is empty. */
  lemma PutBackExactly(m: World)
    requires WellKinded(m) && Ordered(m) && NewestKept(m) && m.phase.PuttingBack?
    ensures NewestKept(Next(m, PutBack)) <==> m.box.desired.None?
  {
  }

  /** Deferring command 1, with command 2 in the slot and an imperative queued. */
  function DeferredWithNewer(imp: Work): World
    requires imp.Imperative?
  {
    World(Box(Some(Desired(2, true)), [imp], true, Activated({}, imp.id)),
          Deferring(Desired(1, true)), false, [imp], [], 2, 0)
  }

  ghost predicate KeptThroughout(m: World, steps: seq<Step>)
    decreases |steps|
  {
    NewestKept(m) && (steps == [] || KeptThroughout(Next(m, steps[0]), steps[1..]))
  }

  lemma {:induction false} KeptExactly(m: World, steps: seq<Step>)
    requires WellKinded(m) && Ordered(m) && NewestKept(m)
    ensures KeptThroughout(m, steps) <==> CleanPutBacks(m, steps)
    decreases |steps|
  {
    if steps != [] {
      if steps[0].PutBack? && m.phase.PuttingBack? && m.box.desired.Some? {
        PutBackExactly(m);
        assert !NewestKept(Next(m, steps[0]));
      } else {
        assert CleanPutBacks(m, [steps[0]]);
        StepKeepsNewest(m, steps[0]);
        StepKeepsKinds(m, steps[0]);
        KeptExactly(Next(m, steps[0]), steps[1..]);
      }
    }
  }

  /** From an empty mailbox the newest desired command is kept throughout a run
      exactly when every put-back finds the slot empty. */
  lemma NewestWinsExactly(steps: seq<Step>)
    ensures KeptThroughout(Initial(), steps) <==> CleanPutBacks(Initial(), steps)
  {
    InitialSound();
    KeptExactly(Initial(), steps);
  }

  lemma {:induction false} RunConcat(m: World, a: seq<Step>, b: seq<Step>)
    ensures Run(m, a + b) == Run(Run(m, a), b)
    decreases |a|
  {
    if a == [] {
      assert a + b == b;
    } else {
      assert (a + b)[1..] == a[1..] + b;
      RunConcat(Next(m, a[0]), a[1..], b);
    }
  }

  /** The worker takes an idle-mode command and defers it. */
  const TO_DEFERRED := [ArriveDesired(true), Announce, Wake, Take(false, false), Take(false, false)]

  /** A newer desired command and an imperative one arrive. */
  function Arrivals(id: string, payload: string): seq<Step> {
    [ArriveDesired(true), Announce, ArriveImperative(id, payload)]
  }

  /** The worker wakes, takes the imperative command and puts the deferred one
      back. */
  const TO_PUT_BACK := [IdleWake, IdleTake(false, false), IdleTake(false, false), PutBack]

  lemma ReachDeferred()
    ensures Run(Initial(), TO_DEFERRED) == Initial().(phase := Deferring(Desired(1, true)), newest := 1)
  {
    var m1 := Next(Next(Next(Initial(), ArriveDesired(true)), Announce), Wake);
    var m2 := Next(m1, Take(false, false));
    assert Run(m2, [Take(false, false)]) == Next(m2, Take(false, false));
    assert Run(m1, [Take(false, false), Take(false, false)]) == Run(m2, [Take(false, false)]);
    Unroll3(Initial(), TO_DEFERRED);
  }

  lemma ReachNewer(id: string, payload: string)
    ensures Run(Initial().(phase := Deferring(Desired(1, true)), newest := 1), Arrivals(id, payload))
         == DeferredWithNewer(Imperative(id, payload))
  {
    Unroll3(Initial().(phase := Deferring(Desired(1, true)), newest := 1), Arrivals(id, payload));
  }

  lemma PutsBack(id: string, payload: string)
    ensures var m := Run(DeferredWithNewer(Imperative(id, payload)), TO_PUT_BACK);
            m.newest == 2 && m.box.desired == Some(Desired(1, true)) && !NewestKept(m)
  {
    var m := DeferredWithNewer(Imperative(id, payload));
    Unroll3(m, TO_PUT_BACK);
    var m3 := Next(Next(Next(m, IdleWake), IdleTake(false, false)), IdleTake(false, false));
    assert Run(m3, [PutBack]) == Next(m3, PutBack);
  }

  /** A run from an empty mailbox whose put-back displaces the newer command: it
      is in no place. */
  lemma PutBackCanDisplace(id: string, payload: string)
    ensures var m := Run(Initial(), TO_DEFERRED + Arrivals(id, payload) + TO_PUT_BACK);
            m.newest == 2 && m.box.desired == Some(Desired(1, true)) && !NewestKept(m)
  {
    RunConcat(Initial(), TO_DEFERRED + Arrivals(id, payload), TO_PUT_BACK);
    RunConcat(Initial(), TO_DEFERRED, Arrivals(id, payload));
    ReachDeferred();
    ReachNewer(id, payload);
    PutsBack(id, payload);
  }

  lemma Unroll3(m: World, steps: seq<Step>)
    requires |steps| >= 3
    ensures Run(m, steps) == Run(Next(Next(Next(m, steps[0]), steps[1]), steps[2]), steps[3..])
  {
    assert steps[1..][1..] == steps[2..] && steps[2..][1..] == steps[3..];
    var m1 := Next(m, steps[0]);
    var m2 := Next(m1, steps[1]);
    assert Run(m1, steps[1..]) == Run(m2, steps[2..]);
    assert Run(m2, steps[2..]) == Run(Next(m2, steps[2]), steps[3..]);
  }

  function PutAll(b: Box, puts: seq<Work>): Box
    decreases |puts|
  {
    if puts == [] then b else PutAll(Notify(b.(desired := Some(puts[0]))), puts[1..])
  }

  lemma {:induction false} PutAllLast(b: Box, puts: seq<Work>)
    ensures PutAll(b, puts).desired == if puts == [] then b.desired else Some(puts[|puts| - 1])
    decreases |puts|
  {
    if puts != [] { PutAllLast(Notify(b.(desired := Some(puts[0]))), puts[1..]); }
  }

  /** takeDesired then restoreDesired gives way to whatever arrived between. */
  lemma RestoreGivesWay(b: Box, puts: seq<Work>)
    requires b.desired.Some?
    ensures RestoreDesired(PutAll(TakeDesired(b).0, puts), b.desired.value).desired
         == if puts == [] then b.desired else Some(puts[|puts| - 1])
  {
    PutAllLast(TakeDesired(b).0, puts);
  }
}

/** What the worker does with the mailbox, taken over the several locked steps of
    one turn: which command it picks, and what an idle-mode command waits for. */
module MailboxTheorems {
  import opened Options
  import opened Mailbox

  // --- One turn of the worker ---

  /** The desired command d starts at once, unless it asked for idle mode and
      builds are running. */
  ghost predicate Begins(p: Phase, d: Work, quiet: bool) {
    p == if d.Desired? && d.idle && !quiet then Deferring(d) else Running(d)
  }

  /** The box after a turn that took the desired command, or the queue's head. */
  ghost predicate TookDesired(b: Box, n: Box) {
    n.desired == None && n.imperative == b.imperative && n.active == b.active
  }

  ghost predicate TookHead(b: Box, n: Box) {
    && b.imperative != [] && n.imperative == b.imperative[1..]
    && n.desired == b.desired && n.active == b.active
  }

  /** What the worker picks: the desired command when it looks there first or the
      queue is empty, else the head of the queue, else nothing. */
  ghost predicate Picks(m: World, n: World, desiredFirst: bool, quiet: bool) {
    if m.box.desired.Some? && (desiredFirst || m.box.imperative == []) then
      TookDesired(m.box, n.box) && Begins(n.phase, m.box.desired.value, quiet)
    else if m.box.imperative != [] then
      TookHead(m.box, n.box) && n.phase == Running(m.box.imperative[0])
    else
      TookDesired(m.box, n.box) && n.phase == Waiting
  }

  lemma TwoSteps(m: World, a: Step, b: Step)
    ensures Run(m, [a, b]) == Next(Next(m, a), b)
  {
    assert [a, b][1..] == [b];
    assert Run(Next(m, a), [b]) == Next(Next(m, a), b);
  }

  /** Both looks of a turn, after a wake-up or after a finished command. */
  lemma TurnPicks(m: World, desiredFirst: bool, quiet: bool)
    requires WellKinded(m) && m.phase == Taking(true)
    ensures Picks(m, Run(m, [Take(desiredFirst, quiet), Take(desiredFirst, quiet)]), desiredFirst, quiet)
  {
    TwoSteps(m, Take(desiredFirst, quiet), Take(desiredFirst, quiet));
  }

  /** A worker that waits is woken by the signal alone, and then picks. */
  lemma WakePicks(m: World, desiredFirst: bool, quiet: bool)
    requires WellKinded(m) && m.phase.Waiting?
    ensures var steps := [Wake, Take(desiredFirst, quiet), Take(desiredFirst, quiet)];
            if m.box.signal then Picks(m, Run(m, steps), desiredFirst, quiet) else Run(m, steps) == m
  {
    var n := Next(m, Wake);
    var steps := [Wake, Take(desiredFirst, quiet), Take(desiredFirst, quiet)];
    assert steps[1..] == [Take(desiredFirst, quiet), Take(desiredFirst, quiet)];
    if m.box.signal {
      TurnPicks(n, desiredFirst, quiet);
    } else {
      TwoSteps(n, Take(desiredFirst, quiet), Take(desiredFirst, quiet));
    }
  }

  /** A finished command makes the worker look again without a signal. */
  lemma DonePicks(m: World, desiredFirst: bool, quiet: bool)
    requires WellKinded(m) && m.phase.Running?
    ensures var n := Next(m, Done);
            && n.box.desired == m.box.desired && n.box.imperative == m.box.imperative
            && Picks(n, Run(n, [Take(desiredFirst, quiet), Take(desiredFirst, quiet)]), desiredFirst, quiet)
  {
    StepKeepsKinds(m, Done);
    TurnPicks(Next(m, Done), desiredFirst, quiet);
  }

  // --- The idle loop ---

  /** In the idle loop a desired command runs when builds stop, and waits else. */
  ghost predicate Waits(p: Phase, d: Work, quiet: bool) {
    p == if quiet then Running(d) else Deferring(d)
  }

  /** What a signal does to a deferred command: a desired one in the slot
      replaces it, an imperative one runs while it goes back to the slot with
      the worker signalled, and nothing leaves it waiting. */
  ghost predicate Interrupts(m: World, n: World, desiredFirst: bool, quiet: bool)
    requires m.phase.Deferring?
  {
    if m.box.desired.Some? && (desiredFirst || m.box.imperative == []) then
      TookDesired(m.box, n.box) && Waits(n.phase, m.box.desired.value, quiet)
    else if m.box.imperative != [] then
      && n.box.desired == Some(m.phase.w) && n.box.imperative == m.box.imperative[1..] && n.box.signal
      && n.box.active == m.box.active && n.phase == Running(m.box.imperative[0])
    else
      TookDesired(m.box, n.box) && Waits(n.phase, m.phase.w, quiet)
  }

  lemma IdleTakes(m: World, n: World, desiredFirst: bool, quiet: bool)
    requires WellKinded(m) && m.phase.Deferring? && m.box.signal && n == Next(m, IdleWake)
    ensures var k := Run(n, [IdleTake(desiredFirst, quiet), IdleTake(desiredFirst, quiet)]);
            if k.phase.PuttingBack?
            then && m.box.imperative != [] && k.phase == PuttingBack(m.phase.w, m.box.imperative[0])
                 && !(m.box.desired.Some? && desiredFirst)
                 && k.box == m.box.(signal := false, imperative := m.box.imperative[1..])
            else Interrupts(m, k, desiredFirst, quiet)
  {
    TwoSteps(n, IdleTake(desiredFirst, quiet), IdleTake(desiredFirst, quiet));
  }

  /** A whole turn of the idle loop, from the signal to the put-back. */
  lemma IdleInterrupts(m: World, desiredFirst: bool, quiet: bool)
    requires WellKinded(m) && m.phase.Deferring? && m.box.signal
    ensures var takes := [IdleTake(desiredFirst, quiet), IdleTake(desiredFirst, quiet)];
            Interrupts(m, Run(m, [IdleWake] + takes + [PutBack, PutBackNotify]), desiredFirst, quiet)
  {
    var takes := [IdleTake(desiredFirst, quiet), IdleTake(desiredFirst, quiet)];
    var n := Next(m, IdleWake);
    var k := Run(n, takes);
    RunConcat(m, [IdleWake] + takes, [PutBack, PutBackNotify]);
    RunConcat(m, [IdleWake], takes);
    assert Run(m, [IdleWake]) == n;
    IdleTakes(m, n, desiredFirst, quiet);
    TwoSteps(k, PutBack, PutBackNotify);
  }

  lemma ThreeSteps(m: World, a: Step, b: Step, c: Step)
    ensures Run(m, [a, b, c]) == Next(Next(Next(m, a), b), c)
  {
    assert [a, b, c][1..] == [b, c];
    TwoSteps(Next(m, a), b, c);
  }

  /** A deferred command stays through a poll that finds builds, is applied once
      a poll finds none, and then the worker looks for more. */
  lemma DeferredApplies(m: World)
    requires WellKinded(m) && m.phase.Deferring?
    ensures var n := Run(m, [IdleCheck(false), IdleCheck(true), Done]);
            n.applied == m.phase.w.arrival && n.phase == Taking(true) && n.box == m.box
  {
    ThreeSteps(m, IdleCheck(false), IdleCheck(true), Done);
  }

  /** A desired command in the slot of a running imperative one is applied inline,
      or put back without a trace. */
  lemma InlineAppliesOrRestores(m: World)
    requires WellKinded(m) && m.phase.Running? && m.phase.cmd.Imperative? && m.box.desired.Some?
    ensures var n := Run(m, [InlineTake, InlineRun]);
            n == m.(box := m.box.(desired := None), applied := m.box.desired.value.arrival)
    ensures Run(m, [InlineTake, InlineRestore]) == m
  {
    TwoSteps(m, InlineTake, InlineRun);
    TwoSteps(m, InlineTake, InlineRestore);
  }

  // --- What is accepted ---

  /** After any run an imperative command is accepted, at the end of the queue
      and with its payload, exactly when the receive loop is free, no unfinished
      command has its non-empty id, and fewer than 16 are queued. */
  lemma AcceptedExactly(steps: seq<Step>, id: string, payload: string)
    ensures var m := Run(Initial(), steps);
            var n := Next(m, ArriveImperative(id, payload));
            var room := && !m.announcing && |m.box.imperative| < 16
                        && (id == "" || forall w | w in Unfinished(m) :: w.Imperative? && w.id != id);
            if room
            then && n.box.imperative == m.box.imperative + [Imperative(id, payload)] && n.box.signal
                 && n.accepted == m.accepted + [Imperative(id, payload)]
            else n == m
  {
    FirstRunSound(steps);
    var m := Run(Initial(), steps);
    assert m.accepted + [] == m.accepted;
    if id != "" {
      if id in m.box.active {
        var i :| 0 <= i < |Unfinished(m)| && Unfinished(m)[i].id == id;
        assert Unfinished(m)[i] in Unfinished(m);
      } else {
        forall w | w in Unfinished(m) ensures w.Imperative? && w.id != id {
          var i :| 0 <= i < |Unfinished(m)| && Unfinished(m)[i] == w;
        }
      }
    }
  }
}

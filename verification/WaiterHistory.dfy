/** The waiter maps said by history: which waiters are open and what each was
    answered, in terms of the steps of the run alone. */
module WaiterHistory {
  import opened Waiters

  lemma {:induction false} RunSnoc(w: World, steps: seq<Step>, step: Step)
    ensures Run(w, steps + [step]) == Next(Run(w, steps), step)
    decreases |steps|
  {
    if steps == [] {
      assert steps + [step] == [step];
    } else {
      assert (steps + [step])[1..] == steps[1..] + [step];
      RunSnoc(Next(w, steps[0]), steps[1..], step);
    }
  }

  /** The world before step i. */
  ghost function Before(steps: seq<Step>, i: nat): World
    requires i <= |steps|
  {
    Run(Initial(), steps[..i])
  }

  lemma BeforeNext(steps: seq<Step>, i: nat)
    requires i < |steps|
    ensures Before(steps, i + 1) == Next(Before(steps, i), steps[i])
  {
    assert steps[..i + 1] == steps[..i] + [steps[i]];
    RunSnoc(Initial(), steps[..i], steps[i]);
  }

  lemma {:induction false} BeforeWired(steps: seq<Step>, i: nat)
    requires i <= |steps|
    ensures Wired(Before(steps, i))
  {
    if i > 0 {
      BeforeWired(steps, i - 1);
      BeforeNext(steps, i - 1);
      StepKeepsWired(Before(steps, i - 1), steps[i - 1]);
    }
  }

  // --- Which waiters are open ---

  /** Step i is a registration below the cap, and makes channel ch. */
  ghost predicate Makes(steps: seq<Step>, i: nat, ch: nat) {
    i < |steps| && steps[i].Register? && |Before(steps, i).waiters| < 64 && |Before(steps, i).chans| == ch
  }

  /** Step j ends the waiter of id: an answer, a cancellation, a release of all,
      or another registration of the id below the cap. */
  ghost predicate EndsWaiter(steps: seq<Step>, j: nat, id: RequestId) {
    j < |steps| &&
    match steps[j]
    case Register(other) => other == id && |Before(steps, j).waiters| < 64
    case Resolve(resp) => resp.id == id
    case Cancel(other) => other == id
    case ReleaseAll => true
    case _ => false
  }

  ghost predicate OpenSince(steps: seq<Step>, n: nat, i: nat, ch: nat)
    requires n <= |steps|
  {
    && i < n && Makes(steps, i, ch)
    && forall j | i < j < n :: !EndsWaiter(steps, j, steps[i].id)
  }

  /** A channel has the id of the registration that made it. */
  lemma {:induction false} MadeFor(steps: seq<Step>, n: nat, i: nat, ch: nat)
    requires i < n <= |steps| && Makes(steps, i, ch)
    ensures ch < |Before(steps, n).chans| && Before(steps, n).chans[ch].id == steps[i].id
    decreases n
  {
    BeforeNext(steps, n - 1);
    StepKeepsIds(Before(steps, n - 1), steps[n - 1]);
    if i < n - 1 { MadeFor(steps, n - 1, i, ch); }
  }

  lemma OpenSinceStep(steps: seq<Step>, n: nat, i: nat, ch: nat)
    requires 0 < n <= |steps|
    ensures OpenSince(steps, n, i, ch) <==>
              if i == n - 1 then Makes(steps, i, ch)
              else OpenSince(steps, n - 1, i, ch) && !EndsWaiter(steps, n - 1, steps[i].id)
  {
  }

  /** One step more: the last step makes the waiter, or it was open and the step
      does not end it. */
  lemma OpenStep(steps: seq<Step>, n: nat, ch: nat)
    requires 0 < n <= |steps|
    ensures IsOpen(Before(steps, n), ch) <==>
              || Makes(steps, n - 1, ch)
              || (&& IsOpen(Before(steps, n - 1), ch)
                  && !EndsWaiter(steps, n - 1, Before(steps, n - 1).chans[ch].id))
  {
    var w := Before(steps, n - 1);
    BeforeNext(steps, n - 1);
    BeforeWired(steps, n - 1);
    BeforeWired(steps, n);
    StepKeepsIds(w, steps[n - 1]);
    if ch < |w.chans| { StepOpens(w, steps[n - 1], ch); }
  }

  lemma {:induction false} OpenAt(steps: seq<Step>, n: nat, ch: nat)
    requires n <= |steps|
    ensures IsOpen(Before(steps, n), ch) <==> exists i: nat :: OpenSince(steps, n, i, ch)
  {
    if n > 0 {
      OpenAt(steps, n - 1, ch);
      OpenStep(steps, n, ch);
      if IsOpen(Before(steps, n), ch) {
        if Makes(steps, n - 1, ch) {
          OpenSinceStep(steps, n, n - 1, ch);
        } else {
          var i: nat :| OpenSince(steps, n - 1, i, ch);
          MadeFor(steps, n - 1, i, ch);
          OpenSinceStep(steps, n, i, ch);
        }
      }
      if i: nat :| OpenSince(steps, n, i, ch) {
        OpenSinceStep(steps, n, i, ch);
        if i < n - 1 { MadeFor(steps, n - 1, i, ch); }
      }
    }
  }

  /** After any run a waiter is open exactly when a registration below the cap
      made it and no later step answered, cancelled, released or replaced it. */
  lemma OpenExactly(steps: seq<Step>, ch: nat)
    ensures IsOpen(Run(Initial(), steps), ch) <==> exists i: nat :: OpenSince(steps, |steps|, i, ch)
  {
    assert steps[..|steps|] == steps;
    OpenAt(steps, |steps|, ch);
  }

  // --- What a waiter is answered ---

  /** The response is on its way to, in the slot of, or received from ch. */
  ghost predicate Holds(w: World, ch: nat, resp: Response) {
    && ch < |w.chans|
    && (resp in w.chans[ch].sending || resp in w.chans[ch].buffer || resp in w.chans[ch].received)
  }

  /** A step answers an open waiter with a response: one for its id, as it is, or
      the unavailable one of a release of all. */
  ghost predicate Answers(w: World, step: Step, ch: nat, resp: Response) {
    && IsOpen(w, ch) && resp.id == w.chans[ch].id
    && (step == Resolve(resp) || (step.ReleaseAll? && resp == Unavailable(resp.id)))
  }

  lemma StepAnswers(w: World, step: Step, ch: nat, resp: Response)
    requires Wired(w)
    ensures Holds(Next(w, step), ch, resp) <==> Holds(w, ch, resp) || Answers(w, step, ch, resp)
  {
    if ch < |w.chans| {
      var c := w.chans[ch];
      match step {
        case Send(at, i) =>
          if at == ch && i < |c.sending| && !Blocks(c) {
            assert c.sending == c.sending[..i] + [c.sending[i]] + c.sending[i + 1..];
          }
        case Receive(at) =>
          if at == ch && c.buffer != [] { assert c.buffer == [c.buffer[0]] + c.buffer[1..]; }
        case _ =>
      }
    }
  }

  ghost predicate AnswersAt(steps: seq<Step>, i: nat, ch: nat, resp: Response) {
    i < |steps| && Answers(Before(steps, i), steps[i], ch, resp)
  }

  ghost predicate AnsweredBy(steps: seq<Step>, n: nat, ch: nat, resp: Response) {
    exists i: nat :: i < n && AnswersAt(steps, i, ch, resp)
  }

  lemma SinceStep(steps: seq<Step>, n: nat, ch: nat, resp: Response)
    requires 0 < n <= |steps|
    ensures AnsweredBy(steps, n, ch, resp) <==>
              AnsweredBy(steps, n - 1, ch, resp) || Answers(Before(steps, n - 1), steps[n - 1], ch, resp)
  {
    if Answers(Before(steps, n - 1), steps[n - 1], ch, resp) { assert AnswersAt(steps, n - 1, ch, resp); }
  }

  lemma {:induction false} HoldsAt(steps: seq<Step>, n: nat, ch: nat, resp: Response)
    requires n <= |steps|
    ensures Holds(Before(steps, n), ch, resp) <==> AnsweredBy(steps, n, ch, resp)
  {
    if n > 0 {
      HoldsAt(steps, n - 1, ch, resp);
      BeforeNext(steps, n - 1);
      BeforeWired(steps, n - 1);
      StepAnswers(Before(steps, n - 1), steps[n - 1], ch, resp);
      SinceStep(steps, n, ch, resp);
    }
  }

  /** After any run a waiter's channel carries or has delivered a response
      exactly when, while the waiter was open, a step resolved its id with that
      response, body included, or released all and it is the unavailable one. */
  lemma AnsweredExactly(steps: seq<Step>, ch: nat, resp: Response)
    ensures Holds(Run(Initial(), steps), ch, resp) <==> exists i: nat :: AnswersAt(steps, i, ch, resp)
  {
    assert steps[..|steps|] == steps;
    HoldsAt(steps, |steps|, ch, resp);
  }
}

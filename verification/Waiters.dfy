/** The claim and cross-tenant waiter maps: a request id maps to a one-slot
    channel, and a response is sent on the channel after the map lock is
    released. Lookup and send are therefore separate steps. */
module Waiters {

  /** Claim requests carry a UUID, cross-tenant requests a counter value. */
  datatype RequestId = Claim(uuid: string) | CrossTenant(n: nat)

  datatype Response = Answer(id: RequestId, body: string) | Unavailable(id: RequestId)

  const MAX_WAITERS := 64

  /** A one-slot channel. sending holds the responses whose sender has left
      the map lock and not put its response in the slot yet. The last two
      fields are history: what the reader received, and whether the waiter
      was cancelled. */
  datatype Channel = Channel(
    id: RequestId, sending: seq<Response>, buffer: seq<Response>, received: seq<Response>, cancelled: bool)

  datatype World = World(waiters: map<RequestId, nat>, chans: seq<Channel>)

  datatype Step =
    | Register(id: RequestId)
    | Resolve(resp: Response)
    | Cancel(id: RequestId)
    | ReleaseAll
    | Send(ch: nat, sender: nat)
    | Receive(ch: nat)

  predicate IsOpen(w: World, ch: nat) {
    ch < |w.chans| && w.chans[ch].id in w.waiters && w.waiters[w.chans[ch].id] == ch
  }

  /** A send waits while the one slot is taken. */
  predicate Blocks(c: Channel) {
    |c.buffer| >= 1
  }

  function Answered(c: Channel, resp: Response): Channel {
    c.(sending := c.sending + [resp])
  }

  function Next(w: World, step: Step): World {
    match step
    case Register(id) =>
      if |w.waiters| >= MAX_WAITERS then w
      else World(w.waiters[id := |w.chans|], w.chans + [Channel(id, [], [], [], false)])
    case Resolve(resp) =>
      if resp.id in w.waiters && w.waiters[resp.id] < |w.chans| then
        var ch := w.waiters[resp.id];
        World(w.waiters - {resp.id}, w.chans[ch := Answered(w.chans[ch], resp)])
      else w
    case Cancel(id) =>
      if id in w.waiters && w.waiters[id] < |w.chans| then
        var ch := w.waiters[id];
        World(w.waiters - {id}, w.chans[ch := w.chans[ch].(cancelled := true)])
      else w
    case ReleaseAll =>
      World(map[], seq(|w.chans|, ch requires 0 <= ch < |w.chans| =>
        if IsOpen(w, ch) then Answered(w.chans[ch], Unavailable(w.chans[ch].id)) else w.chans[ch]))
    case Send(ch, i) =>
      if ch < |w.chans| && i < |w.chans[ch].sending| && !Blocks(w.chans[ch]) then
        var c := w.chans[ch];
        w.(chans := w.chans[ch := c.(sending := c.sending[..i] + c.sending[i + 1..],
                                     buffer := c.buffer + [c.sending[i]])])
      else w
    case Receive(ch) =>
      if ch < |w.chans| && w.chans[ch].buffer != [] then
        var c := w.chans[ch];
        w.(chans := w.chans[ch := c.(buffer := c.buffer[1..], received := c.received + [c.buffer[0]])])
      else w
  }

  function Run(w: World, steps: seq<Step>): World
    decreases |steps|
  {
    if steps == [] then w else Run(Next(w, steps[0]), steps[1..])
  }

  predicate FreeStep(w: World, step: Step) {
    step.Register? && |w.waiters| < MAX_WAITERS ==> step.id !in w.waiters
  }

  /** Every admitted registration in the run uses an id with no open waiter. */
  predicate FreeIds(w: World, steps: seq<Step>)
    decreases |steps|
  {
    steps == [] || (FreeStep(w, steps[0]) && FreeIds(Next(w, steps[0]), steps[1..]))
  }

  function Count(b: bool): nat { if b then 1 else 0 }

  /** A waiter is in exactly one place: open in the map, answered on the way,
      answered in the slot, received, or cancelled. Its answer has its id. */
  predicate InOnePlace(c: Channel, open: bool) {
    && Count(open) + |c.sending| + |c.buffer| + |c.received| + Count(c.cancelled) == 1
    && (forall i | 0 <= i < |c.sending| :: c.sending[i].id == c.id)
    && (forall i | 0 <= i < |c.buffer| :: c.buffer[i].id == c.id)
    && (forall i | 0 <= i < |c.received| :: c.received[i].id == c.id)
  }

  /** Every map entry leads to a channel made for its id. */
  ghost predicate Wired(w: World) {
    forall id | id in w.waiters :: w.waiters[id] < |w.chans| && w.chans[w.waiters[id]].id == id
  }

  ghost predicate Sound(w: World) {
    && |w.waiters| <= MAX_WAITERS
    && Wired(w)
    && (forall ch | 0 <= ch < |w.chans| :: InOnePlace(w.chans[ch], IsOpen(w, ch)))
  }

  function Initial(): World {
    World(map[], [])
  }

  lemma StepKeepsIds(w: World, step: Step)
    ensures |w.chans| <= |Next(w, step).chans| <= |w.chans| + 1
    ensures forall ch | 0 <= ch < |w.chans| :: Next(w, step).chans[ch].id == w.chans[ch].id
    ensures |Next(w, step).chans| > |w.chans| ==> step.Register? && Next(w, step).chans[|w.chans|].id == step.id
  {
  }

  lemma StepKeepsWired(w: World, step: Step)
    requires Wired(w)
    ensures Wired(Next(w, step))
  {
    StepKeepsIds(w, step);
    var v := Next(w, step);
    forall id | id in v.waiters ensures v.waiters[id] < |v.chans| && v.chans[v.waiters[id]].id == id {
      assert id in w.waiters || step == Register(id);
    }
  }

  /** Which waiters are open after a step. */
  lemma StepOpens(w: World, step: Step, ch: nat)
    requires Wired(w) && ch < |w.chans|
    ensures IsOpen(Next(w, step), ch) <==>
              && IsOpen(w, ch) && !step.ReleaseAll?
              && !(step.Resolve? && step.resp.id == w.chans[ch].id)
              && !(step.Cancel? && step.id == w.chans[ch].id)
              && !(step.Register? && step.id == w.chans[ch].id && |w.waiters| < MAX_WAITERS)
  {
    StepKeepsWired(w, step);
  }

  /** What one step does to one channel. */
  lemma StepMoves(w: World, step: Step, ch: nat)
    requires Wired(w) && FreeStep(w, step) && ch < |w.chans|
    requires InOnePlace(w.chans[ch], IsOpen(w, ch))
    ensures InOnePlace(Next(w, step).chans[ch], IsOpen(Next(w, step), ch))
  {
    StepOpens(w, step, ch);
    match step
    case Register(id) =>
    case Resolve(resp) =>
    case Cancel(id) =>
    case ReleaseAll =>
    case Send(_, _) =>
    case Receive(_) =>
  }

  lemma StepKeepsPlaces(w: World, step: Step, ch: nat)
    requires Sound(w) && FreeStep(w, step) && ch < |Next(w, step).chans|
    ensures InOnePlace(Next(w, step).chans[ch], IsOpen(Next(w, step), ch))
  {
    StepKeepsIds(w, step);
    if ch < |w.chans| {
      StepMoves(w, step, ch);
    }
  }

  /** What a step may do to the map: nothing, one entry more or set anew below
      the cap, one entry less, or none left. */
  predicate MapMoves(m: map<RequestId, nat>, v: map<RequestId, nat>, id: RequestId, ch: nat) {
    v == m || (|m| < MAX_WAITERS && v == m[id := ch]) || v == m - {id} || v == map[]
  }

  lemma StepMovesMap(w: World, step: Step) returns (id: RequestId)
    ensures MapMoves(w.waiters, Next(w, step).waiters, id, |w.chans|)
  {
    id := match step
      case Register(i) => i
      case Resolve(resp) => resp.id
      case Cancel(i) => i
      case _ => CrossTenant(0);
  }

  lemma MapStaysSmall(m: map<RequestId, nat>, v: map<RequestId, nat>, id: RequestId, ch: nat)
    requires MapMoves(m, v, id, ch) && |m| <= MAX_WAITERS
    ensures |v| <= MAX_WAITERS
  {
    PutSize(m, id, ch);
    DropSize(m, id);
  }

  lemma StepKeepsBound(w: World, step: Step)
    requires |w.waiters| <= MAX_WAITERS
    ensures |Next(w, step).waiters| <= MAX_WAITERS
  {
    var id := StepMovesMap(w, step);
    MapStaysSmall(w.waiters, Next(w, step).waiters, id, |w.chans|);
  }

  lemma PutSize(m: map<RequestId, nat>, id: RequestId, ch: nat)
    ensures |m[id := ch]| <= |m| + 1
  {
    assert m[id := ch].Keys == m.Keys + {id};
    assert |m[id := ch]| == |m[id := ch].Keys| && |m| == |m.Keys|;
  }

  lemma DropSize(m: map<RequestId, nat>, id: RequestId)
    ensures |m - {id}| <= |m|
  {
    assert (m - {id}).Keys == m.Keys - {id};
    assert |m - {id}| == |(m - {id}).Keys| && |m| == |m.Keys|;
  }

  lemma StepKeepsSound(w: World, step: Step)
    requires Sound(w) && FreeStep(w, step)
    ensures Sound(Next(w, step))
  {
    StepKeepsBound(w, step);
    StepKeepsWired(w, step);
    forall ch | 0 <= ch < |Next(w, step).chans|
      ensures InOnePlace(Next(w, step).chans[ch], IsOpen(Next(w, step), ch))
    {
      StepKeepsPlaces(w, step, ch);
    }
  }

  lemma InitialSound()
    ensures Sound(Initial())
  {
  }

  // --- What no run can break ---

  /** A waiter that is open has no answer yet, and no waiter has two. Every
      answer has its waiter's id. */
  predicate AtMostOnce(c: Channel, open: bool) {
    && Count(open) + |c.sending| + |c.buffer| + |c.received| <= 1
    && (forall i | 0 <= i < |c.sending| :: c.sending[i].id == c.id)
    && (forall i | 0 <= i < |c.buffer| :: c.buffer[i].id == c.id)
    && (forall i | 0 <= i < |c.received| :: c.received[i].id == c.id)
  }

  ghost predicate Safe(w: World) {
    && |w.waiters| <= MAX_WAITERS
    && Wired(w)
    && (forall ch | 0 <= ch < |w.chans| :: AtMostOnce(w.chans[ch], IsOpen(w, ch)))
  }

  lemma StepKeepsOnce(w: World, step: Step, ch: nat)
    requires Wired(w) && ch < |w.chans| && AtMostOnce(w.chans[ch], IsOpen(w, ch))
    ensures AtMostOnce(Next(w, step).chans[ch], IsOpen(Next(w, step), ch))
  {
    StepOpens(w, step, ch);
    match step
    case Register(id) =>
    case Resolve(resp) =>
    case Cancel(id) =>
    case ReleaseAll =>
    case Send(_, _) =>
    case Receive(_) =>
  }

  lemma StepKeepsSafe(w: World, step: Step)
    requires Safe(w)
    ensures Safe(Next(w, step))
  {
    StepKeepsBound(w, step);
    StepKeepsWired(w, step);
    StepKeepsIds(w, step);
    forall ch | 0 <= ch < |Next(w, step).chans|
      ensures AtMostOnce(Next(w, step).chans[ch], IsOpen(Next(w, step), ch))
    {
      if ch < |w.chans| { StepKeepsOnce(w, step, ch); }
    }
  }

  /** Over every run, reused ids included: at most 64 waiters are open, a waiter
      gets at most one response and it carries its own id, and no sender ever
      finds its slot taken, so the receive loop never blocks. */
  lemma {:induction false} EveryRunSafe(w: World, steps: seq<Step>)
    requires Safe(w)
    ensures Safe(Run(w, steps))
    ensures forall c | c in Run(w, steps).chans :: c.sending != [] ==> !Blocks(c)
    decreases |steps|
  {
    if steps != [] {
      StepKeepsSafe(w, steps[0]);
      EveryRunSafe(Next(w, steps[0]), steps[1..]);
    }
  }

  /** The same from an empty map. */
  lemma FirstRunSafe(steps: seq<Step>)
    ensures Safe(Run(Initial(), steps))
    ensures forall c | c in Run(Initial(), steps).chans :: c.sending != [] ==> !Blocks(c)
  {
    EveryRunSafe(Initial(), steps);
  }

  // --- The exact condition ---

  /** An admitted registration keeps every waiter in one place exactly when its
      id has no open waiter. */
  lemma RegisterExactly(w: World, id: RequestId)
    requires Sound(w) && |w.waiters| < MAX_WAITERS
    ensures Sound(Next(w, Register(id))) <==> id !in w.waiters
  {
    if id in w.waiters {
      var v, ch := Next(w, Register(id)), w.waiters[id];
      StepOpens(w, Register(id), ch);
      assert InOnePlace(w.chans[ch], IsOpen(w, ch)) && v.chans[ch] == w.chans[ch];
    } else {
      StepKeepsSound(w, Register(id));
    }
  }

  ghost predicate SoundThroughout(w: World, steps: seq<Step>)
    decreases |steps|
  {
    Sound(w) && (steps == [] || SoundThroughout(Next(w, steps[0]), steps[1..]))
  }

  /** A run keeps every waiter in one place throughout, so that none is left
      without an answer to come, exactly when no admitted registration uses the
      id of an open waiter. */
  lemma {:induction false} SoundExactly(w: World, steps: seq<Step>)
    requires Sound(w)
    ensures SoundThroughout(w, steps) <==> FreeIds(w, steps)
    ensures FreeIds(w, steps) ==> Sound(Run(w, steps))
    decreases |steps|
  {
    if steps != [] {
      if steps[0].Register? && |w.waiters| < MAX_WAITERS { RegisterExactly(w, steps[0].id); }
      if FreeStep(w, steps[0]) {
        StepKeepsSound(w, steps[0]);
        SoundExactly(Next(w, steps[0]), steps[1..]);
      }
    }
  }

  /** The same from an empty map. */
  lemma FirstRunSoundExactly(steps: seq<Step>)
    ensures SoundThroughout(Initial(), steps) <==> FreeIds(Initial(), steps)
  {
    InitialSound();
    SoundExactly(Initial(), steps);
  }

  /** The waiter is not in the map, and nothing was or will be sent to it. */
  predicate Lost(w: World, ch: nat) {
    && ch < |w.chans| && !IsOpen(w, ch)
    && var c := w.chans[ch]; c.sending == [] && c.buffer == [] && c.received == [] && !c.cancelled
  }

  lemma {:induction false} LostForever(w: World, steps: seq<Step>, ch: nat)
    requires Wired(w) && Lost(w, ch)
    ensures Lost(Run(w, steps), ch)
    decreases |steps|
  {
    if steps != [] {
      StepKeepsWired(w, steps[0]);
      StepOpens(w, steps[0], ch);
      LostForever(Next(w, steps[0]), steps[1..], ch);
    }
  }

  /** Registering the id of an open waiter orphans that waiter: in no later run,
      whatever its steps, is it answered or cancelled. */
  lemma ReusedIdOrphansWaiter(w: World, id: RequestId, steps: seq<Step>)
    requires Sound(w) && id in w.waiters && |w.waiters| < MAX_WAITERS
    ensures Lost(Run(Next(w, Register(id)), steps), w.waiters[id])
  {
    var ch := w.waiters[id];
    assert InOnePlace(w.chans[ch], IsOpen(w, ch));
    StepKeepsWired(w, Register(id));
    StepOpens(w, Register(id), ch);
    LostForever(Next(w, Register(id)), steps, ch);
  }

  /** The shortest such run. */
  lemma ReuseReached(id: RequestId, steps: seq<Step>)
    ensures Lost(Run(Initial(), [Register(id), Register(id)] + steps), 0)
  {
    var w1 := Next(Initial(), Register(id));
    InitialSound();
    StepKeepsSound(Initial(), Register(id));
    ReusedIdOrphansWaiter(w1, id, steps);
    var all := [Register(id), Register(id)] + steps;
    assert all[1..] == [Register(id)] + steps && all[1..][1..] == steps;
    assert Run(w1, all[1..]) == Run(Next(w1, Register(id)), steps);
  }

  // --- releaseAll ---

  /** The one answer of this channel, wherever it is, is its unavailable one. */
  predicate AnsweredUnavailable(c: Channel) {
    c.sending + c.buffer + c.received == [Unavailable(c.id)]
  }

  lemma StepKeepsAnswer(w: World, step: Step, ch: nat)
    requires Wired(w) && ch < |w.chans|
    requires AnsweredUnavailable(w.chans[ch]) && !IsOpen(w, ch)
    ensures AnsweredUnavailable(Next(w, step).chans[ch]) && !IsOpen(Next(w, step), ch)
  {
    StepOpens(w, step, ch);
    var c := w.chans[ch];
    assert |c.sending| + |c.buffer| + |c.received| == 1;
  }

  lemma {:induction false} RunKeepsAnswer(w: World, steps: seq<Step>, ch: nat)
    requires Wired(w) && ch < |w.chans|
    requires AnsweredUnavailable(w.chans[ch]) && !IsOpen(w, ch)
    ensures ch < |Run(w, steps).chans| && AnsweredUnavailable(Run(w, steps).chans[ch])
    ensures Run(w, steps).chans[ch].id == w.chans[ch].id
    decreases |steps|
  {
    if steps != [] {
      StepKeepsAnswer(w, steps[0], ch);
      StepKeepsWired(w, steps[0]);
      StepKeepsIds(w, steps[0]);
      RunKeepsAnswer(Next(w, steps[0]), steps[1..], ch);
    }
  }

  /** releaseAll empties the map and answers every open waiter exactly once: in
      whatever run follows, its channel holds or has delivered that one
      unavailable response and nothing else. */
  lemma ReleaseAllAnswers(w: World, id: RequestId, steps: seq<Step>)
    requires Sound(w) && id in w.waiters
    ensures Next(w, ReleaseAll).waiters == map[]
    ensures var v := Run(Next(w, ReleaseAll), steps);
            w.waiters[id] < |v.chans| && v.chans[w.waiters[id]].id == id && AnsweredUnavailable(v.chans[w.waiters[id]])
  {
    var ch := w.waiters[id];
    assert InOnePlace(w.chans[ch], IsOpen(w, ch));
    StepKeepsWired(w, ReleaseAll);
    RunKeepsAnswer(Next(w, ReleaseAll), steps, ch);
  }

  /** An answer on its way is received by its sender's send and the reader's
      receive: nothing else has to happen first. */
  lemma AnswerDelivered(w: World, ch: nat, i: nat)
    requires Safe(w) && ch < |w.chans| && i < |w.chans[ch].sending|
    ensures var v := Run(w, [Send(ch, i), Receive(ch)]);
            ch < |v.chans| && v.chans[ch].received == [w.chans[ch].sending[i]]
  {
    var resp := w.chans[ch].sending[i];
    assert AtMostOnce(w.chans[ch], IsOpen(w, ch));
    var v := Next(w, Send(ch, i));
    assert v.chans[ch].buffer == [resp] && v.chans[ch].received == [];
    assert [Send(ch, i), Receive(ch)][1..] == [Receive(ch)];
    assert Run(v, [Receive(ch)]) == Next(v, Receive(ch));
  }

  // --- The locked parts, as the source keeps them ---

  /** The map itself. w names the channels a step may touch; the channel a
      registration makes is the next one. */
  class WaiterMap {
    var waiters: map<RequestId, nat>

    constructor ()
      ensures waiters == map[]
    {
      waiters := map[];
    }

    method RegisterWaiter(id: RequestId, ch: nat, ghost w: World) returns (ok: bool)
      requires w.waiters == waiters && ch == |w.chans|
      modifies this
      ensures waiters == Next(w, Register(id)).waiters
      ensures ok <==> Next(w, Register(id)) != w
    {
      if |waiters| >= MAX_WAITERS { return false; }
      waiters := waiters[id := ch];
      return true;
    }

    /** The locked part of resolve and of cancel: removes id's waiter. */
    method TakeWaiter(id: RequestId, ghost w: World) returns (ch: nat, ok: bool)
      requires w.waiters == waiters && Wired(w)
      modifies this
      ensures forall resp: Response | resp.id == id :: waiters == Next(w, Resolve(resp)).waiters
      ensures waiters == Next(w, Cancel(id)).waiters
      ensures ok <==> id in old(waiters)
      ensures ok ==> IsOpen(w, ch) && w.chans[ch].id == id
    {
      if id !in waiters { return 0, false; }
      ch, ok := waiters[id], true;
      waiters := waiters - {id};
    }

    /** The locked part of releaseAll: hands out every open waiter. */
    method TakeAll(ghost w: World) returns (all: map<RequestId, nat>)
      requires w.waiters == waiters
      modifies this
      ensures waiters == Next(w, ReleaseAll).waiters && all == old(waiters)
    {
      all, waiters := waiters, map[];
    }
  }
}

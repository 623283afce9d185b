/** What one turn of the loops does, case by case, in terms of the stack, the contexts and the inbox. */
module Turns {
  import opened Basics
  import opened Tracking
  import opened Journey
  import opened Engine

  /** Taking a frame: an empty stack ends the run; otherwise its journey must exist and be active, and no step means the first. */
  lemma PopLoadsJourney(w: World, m: Machine)
    requires m.control.Popping?
    ensures m.stack == [] ==> Advance(w, m) == Finished(false, m.store)
    ensures m.stack != [] ==>
              var n := |m.stack| - 1;
              var f := Split(m.stack[n]);
              && (Advance(w, m) == Faulted(JourneyNotFound) <==> f.journey !in w.journeys || !w.journeys[f.journey].active)
              && (!Advance(w, m).Faulted? ==>
                    Advance(w, m) == Live(Machine(Running(Frame(f.journey, if f.step == "" then w.journeys[f.journey].start else f.step)),
                                                  m.stack[..n], m.inbox, m.store)))
  {
  }

  /** Two stores that differ in nothing but the requests of the context. */
  predicate OnlyRequests(before: Ctx, after: Ctx) {
    after == before.(requests := after.requests)
  }

  /** Clearing works request by request: those on behalf of `s` or of no step go, all others stay in their order. */
  lemma {:induction false} ClearedOneByOne(a: seq<Request>, r: Request, b: seq<Request>, s: Id)
    ensures Without([], s) == []
    ensures Without(a + [r] + b, s) == Without(a, s) + (if r.step == "" || r.step == s then [] else [r]) + Without(b, s)
    decreases |a|
  {
    if a == [] {
      assert [] + [r] + b == [r] + b && ([r] + b)[1..] == b;
    } else {
      assert (a + [r] + b)[1..] == a[1..] + [r] + b;
      ClearedOneByOne(a[1..], r, b, s);
    }
  }

  /** A step with an outcome: the step it names is next in the same journey, and its own requests are cleared. */
  lemma OutcomeIsFollowed(w: World, m: Machine, f: Frame, step: Step)
    requires m.control == Running(f) && Begin(w, f, m.store) == Right(step) && step.kind.Plain?
    requires w.exec(f.journey, f.step, m.store.ctx).Done? && w.exec(f.journey, f.step, m.store.ctx).outcome != ""
    ensures var Done(ctx, outcome, _) := w.exec(f.journey, f.step, m.store.ctx);
            && (Advance(w, m) == Faulted(InvalidOutcome) <==> outcome !in step.outcomes)
            && (outcome in step.outcomes ==>
                  && Advance(w, m).Live?
                  && var n := Advance(w, m).m;
                     && n.control == Running(Frame(f.journey, step.outcomes[outcome])) && n.stack == m.stack && n.inbox == m.inbox
                     && OnlyRequests(ctx, n.store.ctx) && n.store.ctx.requests == Without(ctx.requests, f.step))
  {
    hide Throttled, Without;
  }

  /** A step that fails, asks for input, or yields: the run fails, pauses at this frame, or takes the next one without inputs. */
  lemma OtherEffects(w: World, m: Machine, f: Frame, step: Step)
    requires m.control == Running(f) && Begin(w, f, m.store) == Right(step) && !step.kind.SubJourney?
    ensures match w.exec(f.journey, f.step, m.store.ctx)
            case Raise => Advance(w, m) == Faulted(StepFailed)
            case Ask(ctx) =>
              && Advance(w, m).Paused? && Advance(w, m).stack == m.stack + [f.journey + ":" + f.step]
              && Advance(w, m).inbox == m.inbox && Advance(w, m).store.ctx == ctx
            case Done(ctx, outcome, _) =>
              step.kind.Plain? && outcome == "" ==>
                && Advance(w, m).Live? && Advance(w, m).m.control.Popping? && Advance(w, m).m.stack == m.stack
                && Advance(w, m).m.inbox == m.inbox && Advance(w, m).m.store.ctx == ctx.(requests := [], provided := [])
  {
    hide Throttled, ClearRequestsForStep;
  }

  /** The value that waits for the frame below, or nothing, when a terminal step has run; and the verdict of the whole run. */
  lemma TerminalTells(w: World, m: Machine, f: Frame, step: Step)
    requires m.control == Running(f) && Begin(w, f, m.store) == Right(step) && w.exec(f.journey, f.step, m.store.ctx).Done?
    requires step.kind.Success? || step.kind.Failure? || step.kind.End? || step.kind.Silent?
    ensures var Done(ctx, _, result) := w.exec(f.journey, f.step, m.store.ctx);
            var n := Advance(w, m);
            && (m.stack == [] && step.kind.Failure? ==> n.Finished? && n.failed && n.store.ctx == ctx)
            && (m.stack == [] && !step.kind.Failure? ==>
                  n.Live? && n.m.control.Popping? && n.m.stack == [] && n.m.inbox == m.inbox && n.m.store.ctx == ctx)
            && (m.stack != [] ==>
                  var waiting := Split(m.stack[|m.stack| - 1]).step;
                  && n.Live? && n.m.control.Popping? && n.m.stack == m.stack && n.m.store.ctx == ctx
                  && n.m.inbox == match step.kind
                                  case Success => m.inbox[waiting := Bool(true)]
                                  case Failure => m.inbox[waiting := Bool(false)]
                                  case End => if result.Some? then m.inbox[waiting := result.value] else m.inbox
                                  case _ => m.inbox)
  {
    hide Throttled, Split, ClearRequestsForStep;
  }

  /** Before a step runs: it must exist, and must not have run 500 times with the last time less than 2000 ms ago. */
  lemma GuardDecides(w: World, m: Machine, f: Frame)
    requires m.control == Running(f)
    ensures Advance(w, m) == Faulted(StepNotFound) <==> f.journey !in w.journeys || f.step !in w.journeys[f.journey].steps
    ensures Advance(w, m) == Faulted(InfiniteLoop) <==>
            && f.journey in w.journeys && f.step in w.journeys[f.journey].steps && f.step in m.store.ticks
            && m.store.ticks[f.step].count >= 500 && w.clock(m.store.now) - m.store.ticks[f.step].last < 2000
  {
    hide SubStep, Join, Split, ResetClientInputs, ClearRequestsForStep, Tally;
  }

  // ----- The guard, over a whole run -----

  /** Turn `k` of the run dispatches step `id`. */
  predicate DispatchesAt(w: World, s: State, k: nat, id: Id) {
    var t := Iterate(w, s, k);
    t.Live? && t.m.control.Running? && t.m.control.at.step == id
  }

  /** How often the first `n` turns have dispatched step `id`. */
  function Dispatches(w: World, s: State, n: nat, id: Id): nat {
    if n == 0 then 0 else Dispatches(w, s, n - 1, id) + (if DispatchesAt(w, s, n - 1, id) then 1 else 0)
  }

  /** The ticks of a store are the dispatches so far, and each remembers the clock when the last of them ended. */
  ghost predicate TicksTell(w: World, s: State, n: nat, id: Id) {
    var t := Iterate(w, s, n);
    t.Live? ==>
      && (id in t.m.store.ticks <==> Dispatches(w, s, n, id) > 0)
      && (id in t.m.store.ticks ==>
            && t.m.store.ticks[id].count == Dispatches(w, s, n, id)
            && exists k :: 0 <= k < n && LastDispatchAt(w, s, n, k, id) && t.m.store.ticks[id].last == w.clock(Iterate(w, s, k).m.store.now + 1))
  }

  ghost predicate LastDispatchAt(w: World, s: State, n: nat, k: nat, id: Id) {
    k < n && DispatchesAt(w, s, k, id) && forall j :: k < j < n ==> !DispatchesAt(w, s, j, id)
  }

  lemma TurnTicks(w: World, m: Machine, id: Id)
    requires Advance(w, m).Live?
    ensures var n := Advance(w, m).m.store.ticks;
            if m.control.Running? && m.control.at.step == id
            then id in n && n[id] == Tick((if id in m.store.ticks then m.store.ticks[id].count else 0) + 1, w.clock(m.store.now + 1))
            else (id in n <==> id in m.store.ticks) && (id in n ==> n[id] == m.store.ticks[id])
  {
    hide SubStep, Join, Split, ResetClientInputs, ClearRequestsForStep;
  }

  lemma {:induction false} TicksAreDispatches(w: World, s: State, n: nat, id: Id)
    requires s.Live? && s.m.store.ticks == map[]
    ensures TicksTell(w, s, n, id)
    decreases n
  {
    hide Advance, Iterate;
    if n == 0 {
      IterateNone(w, s);
    } else {
      TicksAreDispatches(w, s, n - 1, id);
      IterateAdd(w, s, n - 1, 1);
      var before := Iterate(w, s, n - 1);
      OneTurn(w, before);
      if before.Live? && Advance(w, before.m).Live? {
        TurnTicks(w, before.m, id);
        if DispatchesAt(w, s, n - 1, id) {
          assert LastDispatchAt(w, s, n, n - 1, id);
        } else if id in before.m.store.ticks {
          var k :| 0 <= k < n - 1 && LastDispatchAt(w, s, n - 1, k, id) && before.m.store.ticks[id].last == w.clock(Iterate(w, s, k).m.store.now + 1);
          assert LastDispatchAt(w, s, n, k, id);
        }
      }
    }
  }

  lemma IterateNone(w: World, s: State)
    ensures Iterate(w, s, 0) == s
  {
  }

  lemma OneTurn(w: World, s: State)
    ensures Iterate(w, s, 1) == if s.Live? then Advance(w, s.m) else s
  {
    hide Advance;
    if s.Live? { IterateOnce(w, s.m); }
  }

  /**
   * In a run that starts without ticks, a step that exists is refused by the guard at
   * its turn if and only if earlier turns have dispatched its id 500 times, and the
   * last of them ended less than 2000 ms ago.
   */
  lemma GuardStopsIff(w: World, s: State, n: nat)
    requires s.Live? && s.m.store.ticks == map[] && Iterate(w, s, n).Live? && Iterate(w, s, n).m.control.Running?
    requires var f := Iterate(w, s, n).m.control.at; f.journey in w.journeys && f.step in w.journeys[f.journey].steps
    ensures var m := Iterate(w, s, n).m;
            Advance(w, m) == Faulted(InfiniteLoop) <==>
            && Dispatches(w, s, n, m.control.at.step) >= 500
            && exists k :: 0 <= k < n && LastDispatchAt(w, s, n, k, m.control.at.step)
                           && w.clock(m.store.now) - w.clock(Iterate(w, s, k).m.store.now + 1) < 2000
  {
    hide Advance, Iterate;
    var m := Iterate(w, s, n).m;
    var id := m.control.at.step;
    GuardDecides(w, m, m.control.at);
    TicksAreDispatches(w, s, n, id);
    forall j, k | 0 <= j < n && 0 <= k < n && LastDispatchAt(w, s, n, j, id) && LastDispatchAt(w, s, n, k, id) ensures j == k { }
  }
}

/** What pending calls and their props look like when runs pause and are resumed, any number of times. */
module Pauses {
  import opened Basics
  import opened Tracking
  import opened Journey
  import opened Engine
  import opened Recursive
  import opened Calls

  // ----- Accounting across pauses -----

  /** `turns` turns of the loop; if they end in a pause, the run is later resumed with `store`. */
  datatype Leg = Leg(turns: nat, store: Store)

  /** A resumed run pops the saved stack; any other state stays as it is. */
  function Wake(s: State, st: Store): State {
    if s.Paused? then Live(Machine(Popping, s.stack, s.inbox, st)) else s
  }

  function RunLegs(w: World, s: State, legs: seq<Leg>): State
    decreases |legs|
  {
    if legs == [] then s else RunLegs(w, Wake(Iterate(w, s, legs[0].turns), legs[0].store), legs[1..])
  }

  /** Every resumed run finds the props slots as the pause left them. */
  ghost predicate Carried(w: World, s: State, legs: seq<Leg>)
    decreases |legs|
  {
    legs != [] ==>
      var t := Iterate(w, s, legs[0].turns);
      (t.Paused? ==> SameSlots(legs[0].store.ctx, t.store.ctx)) && Carried(w, Wake(t, legs[0].store), legs[1..])
  }

  /** Silent ends in slot `name` over all legs. */
  function LegsSilentEnds(w: World, s: State, legs: seq<Leg>, name: string): nat
    decreases |legs|
  {
    if legs == [] then 0
    else SilentEnds(w, s, legs[0].turns, name)
         + LegsSilentEnds(w, Wake(Iterate(w, s, legs[0].turns), legs[0].store), legs[1..], name)
  }

  lemma WakeKeepsSound(w: World, s: State, st: Store)
    requires SoundState(w, s)
    ensures SoundState(w, Wake(s, st))
  {
    if s.Paused? { assert forall t :: t in s.stack ==> ':' !in Split(t).journey; }
  }

  lemma WakeKeepsExcess(w: World, s: State, st: Store, name: string)
    requires !s.Faulted? && (s.Paused? ==> SameSlots(st.ctx, s.store.ctx))
    ensures !Wake(s, st).Faulted? && ExcessOf(w, Wake(s, st), name) == ExcessOf(w, s, name)
  {
    hide CountSlot;
  }

  lemma FaultStays(w: World, legs: seq<Leg>, fault: Fault)
    ensures RunLegs(w, Faulted(fault), legs) == Faulted(fault)
    decreases |legs|
  {
    if legs != [] { FaultStays(w, legs[1..], fault); }
  }

  /** The shape of pending calls is kept across pauses. */
  lemma {:induction false} LegsKeepSound(w: World, s: State, legs: seq<Leg>)
    requires WellFormed(w) && SoundState(w, s)
    ensures SoundState(w, RunLegs(w, s, legs))
    decreases |legs|
  {
    hide WellFormed, SoundState, Iterate, Wake;
    if legs != [] {
      RunKeepsSound(w, s, legs[0].turns);
      WakeKeepsSound(w, Iterate(w, s, legs[0].turns), legs[0].store);
      LegsKeepSound(w, Wake(Iterate(w, s, legs[0].turns), legs[0].store), legs[1..]);
    }
  }

  /**
   * Over any number of pauses, a props stack holds one entry per active call that
   * uses it, plus one for every called journey that ended silently in that slot.
   */
  lemma {:induction false} LegsConserveProps(w: World, s: State, legs: seq<Leg>, name: string)
    requires WellFormed(w) && SlotsPrivate(w) && SoundState(w, s) && ValidSlot(name)
    requires !s.Faulted? && ExcessOf(w, s, name) >= 0 && Carried(w, s, legs)
    requires !RunLegs(w, s, legs).Faulted?
    ensures ExcessOf(w, RunLegs(w, s, legs), name) == ExcessOf(w, s, name) + LegsSilentEnds(w, s, legs, name)
    decreases |legs|
  {
    hide WellFormed, SlotsPrivate, SoundState, Iterate, ExcessOf, SilentEnds, ValidSlot;
    if legs != [] {
      var t := Iterate(w, s, legs[0].turns);
      if t.Faulted? { FaultStays(w, legs[1..], t.fault); }
      RunKeepsSound(w, s, legs[0].turns);
      RunConservesProps(w, s, legs[0].turns, name);
      WakeKeepsSound(w, t, legs[0].store);
      WakeKeepsExcess(w, t, legs[0].store, name);
      LegsConserveProps(w, Wake(t, legs[0].store), legs[1..], name);
    }
  }

  // ----- Restoration across pauses -----

  function SlotOf(w: World, f: Frame): string {
    if IsSub(w, f) then w.journeys[f.journey].steps[f.step].kind.propsContext else ""
  }

  /** The props slots once the frames `callers`, outermost first, have each made a call with these props. */
  function Pushes(w: World, ctx: Ctx, callers: seq<Frame>, props: seq<Value>): Ctx
    requires |props| == |callers|
    decreases |callers|
  {
    if callers == [] then ctx else Pushes(w, PushProps(ctx, SlotOf(w, callers[0]), props[0]), callers[1..], props[1..])
  }

  /** Over what was there before, exactly the pending calls of `callers` have pushed. */
  ghost predicate Pushed(w: World, base: Ctx, callers: seq<Frame>, ctx: Ctx) {
    exists props: seq<Value> :: |props| == |callers| && SameSlots(ctx, Pushes(w, base, callers, props))
  }

  /** The frames of a run that wait for a callee: all below the top, and the top too when its callee has just returned. */
  function Callers(frames: seq<Frame>, v: Option<Value>): seq<Frame> {
    if frames == [] || v.Some? then frames else frames[..|frames| - 1]
  }

  lemma PushSame(a: Ctx, b: Ctx, name: string, p: Value)
    requires SameSlots(a, b)
    ensures SameSlots(PushProps(a, name, p), PushProps(b, name, p)) && SameSlots(RestoreProps(a, name), RestoreProps(b, name))
  {
  }

  lemma RestorePushed(base: Ctx, ctx: Ctx, name: string, p: Value)
    requires SameSlots(ctx, PushProps(base, name, p))
    ensures SameSlots(RestoreProps(ctx, name), base)
  {
    PushSame(ctx, PushProps(base, name, p), name, p);
    var slot := GetSlot(base, name);
    assert PopSlot(PushSlot(slot, p)) == slot;
  }

  lemma {:induction false} PushesSame(w: World, a: Ctx, b: Ctx, callers: seq<Frame>, props: seq<Value>)
    requires |props| == |callers| && SameSlots(a, b)
    ensures SameSlots(Pushes(w, a, callers, props), Pushes(w, b, callers, props))
    decreases |callers|
  {
    hide SameSlots, PushProps;
    if callers != [] {
      PushSame(a, b, SlotOf(w, callers[0]), props[0]);
      PushesSame(w, PushProps(a, SlotOf(w, callers[0]), props[0]), PushProps(b, SlotOf(w, callers[0]), props[0]), callers[1..], props[1..]);
    }
  }

  lemma {:induction false} PushesConcat(w: World, ctx: Ctx, c1: seq<Frame>, p1: seq<Value>, c2: seq<Frame>, p2: seq<Value>)
    requires |p1| == |c1| && |p2| == |c2|
    ensures Pushes(w, ctx, c1 + c2, p1 + p2) == Pushes(w, Pushes(w, ctx, c1, p1), c2, p2)
    decreases |c1|
  {
    if c1 == [] {
      assert c1 + c2 == c2 && p1 + p2 == p2;
    } else {
      assert (c1 + c2)[1..] == c1[1..] + c2 && (p1 + p2)[1..] == p1[1..] + p2;
      PushesConcat(w, PushProps(ctx, SlotOf(w, c1[0]), p1[0]), c1[1..], p1[1..], c2, p2);
    }
  }

  lemma PushedSame(w: World, a: Ctx, b: Ctx, callers: seq<Frame>, ctx: Ctx, ctx1: Ctx)
    requires Pushed(w, a, callers, ctx) && SameSlots(a, b) && SameSlots(ctx, ctx1)
    ensures Pushed(w, b, callers, ctx1)
  {
    var props :| |props| == |callers| && SameSlots(ctx, Pushes(w, a, callers, props));
    PushesSame(w, a, b, callers, props);
  }

  lemma PushedNone(w: World, base: Ctx, ctx: Ctx)
    ensures Pushed(w, base, [], ctx) <==> SameSlots(ctx, base)
  {
    if SameSlots(ctx, base) { assert Pushes(w, base, [], []) == base; }
  }

  /** Calls pushed one after the other. */
  lemma PushedConcat(w: World, base: Ctx, c1: seq<Frame>, mid: Ctx, c2: seq<Frame>, ctx: Ctx)
    requires Pushed(w, base, c1, mid) && Pushed(w, mid, c2, ctx)
    ensures Pushed(w, base, c1 + c2, ctx)
  {
    var p1 :| |p1| == |c1| && SameSlots(mid, Pushes(w, base, c1, p1));
    var p2 :| |p2| == |c2| && SameSlots(ctx, Pushes(w, mid, c2, p2));
    PushesSame(w, mid, Pushes(w, base, c1, p1), c2, p2);
    PushesConcat(w, base, c1, p1, c2, p2);
  }

  lemma PushedOne(w: World, base: Ctx, f: Frame, p: Value)
    ensures Pushed(w, base, [f], PushProps(base, SlotOf(w, f), p))
  {
    assert Pushes(w, base, [f], [p]) == Pushes(w, PushProps(base, SlotOf(w, f), p), [], []);
  }

  /** The innermost pending call can be taken off. */
  lemma PushedSplit(w: World, base: Ctx, below: seq<Frame>, f: Frame, ctx: Ctx)
    requires Pushed(w, base, below + [f], ctx)
    ensures Pushed(w, base, below, RestoreProps(ctx, SlotOf(w, f)))
  {
    var props :| |props| == |below + [f]| && SameSlots(ctx, Pushes(w, base, below + [f], props));
    var n := |below|;
    assert props == props[..n] + [props[n]];
    PushesConcat(w, base, below, props[..n], [f], [props[n]]);
    var mid := Pushes(w, base, below, props[..n]);
    assert Pushes(w, mid, [f], [props[n]]) == PushProps(mid, SlotOf(w, f), props[n]);
    RestorePushed(mid, ctx, SlotOf(w, f), props[n]);
  }

  /** What a run suspended in `journey` leaves: frames that can be resumed, and one push per pending call over `base`. */
  ghost predicate Suspended(w: World, base: Ctx, journey: Id, frames: seq<Frame>, ctx: Ctx) {
    && frames != [] && frames[0].journey == journey && Called(w, frames)
    && Resumable(w, frames, None) && Pushed(w, base, Callers(frames, None), ctx)
  }

  lemma SuspendedSame(w: World, a: Ctx, b: Ctx, journey: Id, frames: seq<Frame>, ctx: Ctx)
    requires Suspended(w, a, journey, frames, ctx) && SameSlots(a, b)
    ensures Suspended(w, b, journey, frames, ctx)
  {
    PushedSame(w, a, b, Callers(frames, None), ctx, ctx);
  }

  /** Waiting frames below a suspended run whose journey they can have called. */
  lemma SuspendedOverBelow(w: World, base: Ctx, below: seq<Frame>, mid: Ctx, journey: Id, frames: seq<Frame>, ctx: Ctx)
    requires Pushed(w, base, below, mid) && Suspended(w, mid, journey, frames, ctx)
    requires forall f :: f in below ==> IsSub(w, f) && ':' !in f.journey
    requires Called(w, below) && (below != [] ==> Callable(w, journey))
    ensures Suspended(w, base, if below == [] then journey else below[0].journey, below + frames, ctx)
  {
    hide Callable, IsSub, WellFormed;
    PushedConcat(w, base, below, mid, Callers(frames, None), ctx);
    hide Pushed;
    assert Callers(below + frames, None) == below + Callers(frames, None);
  }

  /** A run that suspends has pushed the props of its pending calls, and nothing else. */
  lemma {:induction false} SuspendPushes(w: World, fuel: nat, f: Frame, ret: Option<Value>, nested: bool, st: Store)
    requires Ready(w, f, ret) && SlotsPrivate(w) && Quiet(w) && (nested ==> Callable(w, f.journey))
    requires Run(w, fuel, f, ret, nested, st).Suspend?
    ensures var a := Run(w, fuel, f, ret, nested, st); Suspended(w, Settled(w, f, ret, st.ctx), f.journey, a.frames, a.store.ctx)
    decreases fuel, 0
  {
    hide Suspended, Quiet, Callable, Throttled, AddTag, RestoreProps, PushProps;
    var step := Begin(w, f, st).value;
    if step.kind.SubJourney? {
      var move := SubStep(w, f, step.kind.propsContext, ret, st.ctx);
      if move.Goto? {
        GotoSettles(w, f, step, ret, st);
        ProceedSuspends(w, fuel - 1, f, step, move.outcome, nested, Tally(w, f.step, st, move.ctx), Settled(w, f, ret, st.ctx));
      } else {
        CallPushes(w, f, step, st);
        CalleeIsCallable(w, f, st.ctx);
        InvokeSuspends(w, fuel - 1, f, move.callee, nested, Tally(w, f.step, st, ResetClientInputs(move.ctx)), st.ctx);
      }
    } else {
      match w.exec(f.journey, f.step, st.ctx) {
        case Ask(ctx) => AskSuspends(w, f, st.ctx, ctx);
        case Done(ctx, outcome, _) =>
          ProceedSuspends(w, fuel - 1, f, step, outcome, nested, Tally(w, f.step, st, ctx), st.ctx);
      }
    }
  }

  lemma AskSuspends(w: World, f: Frame, base: Ctx, ctx: Ctx)
    requires WellFormed(w) && Loadable(w, f.journey) && SameSlots(ctx, base)
    ensures Suspended(w, base, f.journey, [f], ctx)
  {
    PushedNone(w, base, ctx);
    assert Callers([f], None) == [];
  }

  lemma GotoSettles(w: World, f: Frame, step: Step, ret: Option<Value>, st: Store)
    requires Begin(w, f, st) == Right(step) && step.kind.SubJourney?
    requires SubStep(w, f, step.kind.propsContext, ret, st.ctx).Goto?
    ensures SameSlots(SubStep(w, f, step.kind.propsContext, ret, st.ctx).ctx, Settled(w, f, ret, st.ctx))
  {
  }

  lemma CallPushes(w: World, f: Frame, step: Step, st: Store)
    requires Begin(w, f, st) == Right(step) && step.kind.SubJourney?
    requires SubStep(w, f, step.kind.propsContext, None, st.ctx).Call?
    ensures Pushed(w, st.ctx, [f], ResetClientInputs(SubStep(w, f, step.kind.propsContext, None, st.ctx).ctx))
  {
    var cfg := w.sub(f.journey, f.step, st.ctx).value;
    var ctx := PushProps(st.ctx, SlotOf(w, f), cfg.props.value);
    PushedOne(w, st.ctx, f, cfg.props.value);
    PushedSame(w, st.ctx, st.ctx, [f], ctx, ResetClientInputs(ctx));
  }

  lemma {:induction false} ProceedSuspends(
    w: World, fuel: nat, f: Frame, step: Step, outcome: string, nested: bool, st: Store, base: Ctx)
    requires Ready(w, f, None) && SlotsPrivate(w) && Quiet(w) && SameSlots(st.ctx, base) && (nested ==> Callable(w, f.journey))
    requires Proceed(w, fuel, f, step, outcome, nested, st).Suspend?
    ensures var a := Proceed(w, fuel, f, step, outcome, nested, st); Suspended(w, base, f.journey, a.frames, a.store.ctx)
    decreases fuel, 1
  {
    hide Run, Quiet, SlotsPrivate, WellFormed, Suspended, Callable;
    var after := st.(ctx := ClearRequestsForStep(st.ctx, f.step));
    SuspendPushes(w, fuel, Frame(f.journey, step.outcomes[outcome]), None, nested, after);
    var a := Proceed(w, fuel, f, step, outcome, nested, st);
    SuspendedSame(w, after.ctx, base, f.journey, a.frames, a.store.ctx);
  }

  /** The call suspends inside its callee, or later, when the callee has returned and its props are off again. */
  lemma {:induction false} InvokeSuspends(w: World, fuel: nat, f: Frame, callee: Id, nested: bool, st: Store, base: Ctx)
    requires Ready(w, f, None) && IsSub(w, f) && SlotsPrivate(w) && Quiet(w) && Pushed(w, base, [f], st.ctx)
    requires Callable(w, callee) && (nested ==> Callable(w, f.journey))
    requires Invoke(w, fuel, f, callee, nested, st).Suspend?
    ensures var a := Invoke(w, fuel, f, callee, nested, st); Suspended(w, base, f.journey, a.frames, a.store.ctx)
    decreases fuel, 1
  {
    assert f.step != "";
    assert ':' !in f.journey;
    hide Run, Quiet, SlotsPrivate, WellFormed, Suspended, Callable;
    var entry := Frame(callee, w.journeys[callee].start);
    var answer := Run(w, fuel, entry, None, true, st);
    var a := Invoke(w, fuel, f, callee, nested, st);
    if answer.Suspend? {
      SuspendPushes(w, fuel, entry, None, true, st);
      SuspendedOverBelow(w, base, [f], st.ctx, callee, answer.frames, answer.store.ctx);
    } else {
      RunRestoresProps(w, fuel, entry, None, true, st);
      SuspendPushes(w, fuel, f, answer.value, nested, answer.store);
      PushedSame(w, base, base, [f], st.ctx, answer.store.ctx);
      assert [] + [f] == [f];
      PushedSplit(w, base, [], f, answer.store.ctx);
      PushedNone(w, base, RestoreProps(answer.store.ctx, SlotOf(w, f)));
      SuspendedSame(w, Settled(w, f, answer.value, answer.store.ctx), base, f.journey, a.frames, a.store.ctx);
    }
  }

  /** The slots the top frame of a saved stack settles to: those of the calls below it. */
  lemma TopSettles(w: World, frames: seq<Frame>, v: Option<Value>, base: Ctx, ctx: Ctx)
    requires Resumable(w, frames, v) && frames != [] && Pushed(w, base, Callers(frames, v), ctx)
    requires Loadable(w, frames[|frames| - 1].journey)
    ensures var n := |frames| - 1;
            && Ready(w, Entry(w, frames[n]), v)
            && Pushed(w, base, frames[..n], Settled(w, Entry(w, frames[n]), v, ctx))
  {
    EntryIsReady(w, frames, v);
    var n := |frames| - 1;
    if v.Some? {
      assert frames[n].step != "";
      assert frames == frames[..n] + [frames[n]];
      PushedSplit(w, base, frames[..n], frames[n], ctx);
    }
  }

  /**
   * Resuming a saved stack: when the whole run returns, every pending call has taken
   * its own push off again; when it suspends once more, exactly the calls then
   * pending have pushed.
   */
  lemma {:induction false} FramesRestoreProps(w: World, fuel: nat, frames: seq<Frame>, v: Option<Value>, st: Store, base: Ctx)
    requires Resumable(w, frames, v) && Called(w, frames) && SlotsPrivate(w) && Quiet(w)
    requires Pushed(w, base, Callers(frames, v), st.ctx)
    ensures var a := RunFrames(w, fuel, frames, v, st);
            && (a.Return? ==> SameSlots(a.store.ctx, base))
            && (a.Suspend? ==> frames != [] && Suspended(w, base, frames[0].journey, a.frames, a.store.ctx))
    decreases |frames|
  {
    hide Run, Quiet, SlotsPrivate, WellFormed, Suspended, Pushed, SameSlots, Callable;
    if frames == [] {
      PushedNone(w, base, st.ctx);
    } else {
      var n := |frames| - 1;
      var top, below := frames[n], frames[..n];
      if Loadable(w, top.journey) {
        TopSettles(w, frames, v, base, st.ctx);
        var mid := Settled(w, Entry(w, top), v, st.ctx);
        var answer := Run(w, fuel, Entry(w, top), v, below != [], st);
        if answer.Return? {
          RunRestoresProps(w, fuel, Entry(w, top), v, below != [], st);
          SlotsStay(mid, answer.store.ctx);
          PushedSame(w, base, base, below, mid, answer.store.ctx);
          if below == [] { PushedNone(w, base, answer.store.ctx); } else {
            FramesRestoreProps(w, fuel, below, answer.value, answer.store, base);
          }
        } else if answer.Suspend? {
          SuspendPushes(w, fuel, Entry(w, top), v, below != [], st);
          SuspendedOverBelow(w, base, below, mid, top.journey, answer.frames, answer.store.ctx);
        }
      }
    }
  }

  lemma SlotsStay(a: Ctx, b: Ctx)
    ensures SameSlots(a, a) && (SameSlots(a, b) <==> SameSlots(b, a))
  {
  }

  /** A run of saved frames that is resumed after each pause, as long as there are stores to resume with. */
  function RunPaused(w: World, fuel: nat, frames: seq<Frame>, v: Option<Value>, st: Store, wakes: seq<Store>): Answer
    decreases |wakes|
  {
    var a := RunFrames(w, fuel, frames, v, st);
    if a.Suspend? && wakes != [] then RunPaused(w, fuel, a.frames, None, wakes[0], wakes[1..]) else a
  }

  /** Every resumed run finds the props slots as the pause left them. */
  ghost predicate SlotsSurvive(w: World, fuel: nat, frames: seq<Frame>, v: Option<Value>, st: Store, wakes: seq<Store>)
    decreases |wakes|
  {
    var a := RunFrames(w, fuel, frames, v, st);
    a.Suspend? && wakes != [] ==> SameSlots(wakes[0].ctx, a.store.ctx) && SlotsSurvive(w, fuel, a.frames, None, wakes[0], wakes[1..])
  }

  /** However often a run is paused, when it returns its props binding and stack are those it started from. */
  lemma {:induction false} PausedRunsRestoreProps(
    w: World, fuel: nat, frames: seq<Frame>, v: Option<Value>, st: Store, wakes: seq<Store>, base: Ctx)
    requires Resumable(w, frames, v) && Called(w, frames) && SlotsPrivate(w) && Quiet(w)
    requires Pushed(w, base, Callers(frames, v), st.ctx)
    requires SlotsSurvive(w, fuel, frames, v, st, wakes)
    ensures var a := RunPaused(w, fuel, frames, v, st, wakes);
            && (a.Return? ==> SameSlots(a.store.ctx, base))
            && (a.Suspend? ==> frames != [] && Suspended(w, base, frames[0].journey, a.frames, a.store.ctx))
    decreases |wakes|
  {
    hide RunFrames, Quiet, SlotsPrivate, Resumable, Pushed, SameSlots;
    FramesRestoreProps(w, fuel, frames, v, st, base);
    var a := RunFrames(w, fuel, frames, v, st);
    if a.Suspend? && wakes != [] {
      SlotsStay(wakes[0].ctx, a.store.ctx);
      SlotsStay(base, base);
      PushedSame(w, base, base, Callers(a.frames, None), a.store.ctx, wakes[0].ctx);
      PausedRunsRestoreProps(w, fuel, a.frames, None, wakes[0], wakes[1..], base);
    }
  }

  /**
   * A call whose callee suspends: however often the run is then paused and resumed,
   * when it returns, the calling journey has left the slots as the call found them.
   */
  lemma SuspendedCallRestoresProps(w: World, fuel: nat, f: Frame, nested: bool, st: Store, more: nat, wakes: seq<Store>)
    requires Ready(w, f, None) && SlotsPrivate(w) && Quiet(w) && (nested ==> Callable(w, f.journey))
    requires Run(w, fuel, f, None, nested, st).Suspend? && wakes != []
    requires var a := Run(w, fuel, f, None, nested, st);
             SameSlots(wakes[0].ctx, a.store.ctx) && SlotsSurvive(w, more, a.frames, None, wakes[0], wakes[1..])
    ensures var a := Run(w, fuel, f, None, nested, st);
            var last := RunPaused(w, more, a.frames, None, wakes[0], wakes[1..]);
            last.Return? ==> SameSlots(last.store.ctx, st.ctx)
  {
    hide Run, RunPaused, SlotsSurvive, Quiet, SlotsPrivate, Pushed, SameSlots, WellFormed;
    var a := Run(w, fuel, f, None, nested, st);
    SuspendPushes(w, fuel, f, None, nested, st);
    SlotsStay(wakes[0].ctx, a.store.ctx);
    SlotsStay(st.ctx, st.ctx);
    PushedSame(w, st.ctx, st.ctx, Callers(a.frames, None), a.store.ctx, wakes[0].ctx);
    PausedRunsRestoreProps(w, more, a.frames, None, wakes[0], wakes[1..], st.ctx);
  }
}

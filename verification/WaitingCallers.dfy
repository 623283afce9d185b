/** What a calling step finds when its callee has been paused and resumed, at any nesting depth. */
module WaitingCallers {
  import opened Basics
  import opened Tracking
  import opened Journey
  import opened Engine
  import opened Recursive
  import opened Calls
  import opened Pauses

  /** The frames above a waiting caller run, and give it a value, wait again as other frames, or stop the run. */
  function RunAbove(w: World, fuel: nat, above: seq<Frame>, v: Option<Value>, st: Store): Answer
    decreases |above|
  {
    if above == [] then Return(v, false, st)
    else
      var below := above[..|above| - 1];
      var answer := Reenter(w, fuel, above[|above| - 1], v, true, st);
      match answer
      case Return(value, _, st1) => RunAbove(w, fuel, below, value, st1)
      case Suspend(frames, st1) => Suspend(below + frames, st1)
      case _ => answer
  }

  /** The whole run, once the frames above the last one of `keep` have given `a`. */
  function Continued(w: World, fuel: nat, keep: seq<Frame>, a: Answer): Answer {
    match a
    case Return(value, _, st) => RunFrames(w, fuel, keep, value, st)
    case Suspend(frames, st) => Suspend(keep + frames, st)
    case _ => a
  }

  /** A saved stack runs as its upper part, and then as its lower part. */
  lemma {:induction false} RunSplits(w: World, fuel: nat, keep: seq<Frame>, above: seq<Frame>, v: Option<Value>, st: Store)
    requires keep != []
    ensures RunFrames(w, fuel, keep + above, v, st) == Continued(w, fuel, keep, RunAbove(w, fuel, above, v, st))
    decreases |above|
  {
    hide Reenter;
    var n := |above| - 1;
    if above == [] {
      assert keep + above == keep;
    } else {
      assert (keep + above)[..|keep + above| - 1] == keep + above[..n];
      var answer := Reenter(w, fuel, above[n], v, true, st);
      if answer.Return? { RunSplits(w, fuel, keep, above[..n], answer.value, answer.store); }
      if answer.Suspend? { assert keep + above[..n] + answer.frames == keep + (above[..n] + answer.frames); }
    }
  }

  /** The same through pauses; `rest` are the stores left to resume with. */
  function RunAbovePaused(w: World, fuel: nat, above: seq<Frame>, v: Option<Value>, st: Store, wakes: seq<Store>): (r: (Answer, seq<Store>))
    decreases |wakes|
  {
    var a := RunAbove(w, fuel, above, v, st);
    if a.Suspend? && wakes != [] then RunAbovePaused(w, fuel, a.frames, None, wakes[0], wakes[1..]) else (a, wakes)
  }

  function ContinuedPaused(w: World, fuel: nat, keep: seq<Frame>, a: Answer, rest: seq<Store>): Answer {
    match a
    case Return(value, _, st) => RunPaused(w, fuel, keep, value, st, rest)
    case Suspend(frames, st) => Suspend(keep + frames, st)
    case _ => a
  }

  /** A run that is paused any number of times runs as its upper frames, and then as its lower ones. */
  lemma {:induction false} PausedRunSplits(
    w: World, fuel: nat, keep: seq<Frame>, above: seq<Frame>, v: Option<Value>, st: Store, wakes: seq<Store>)
    requires keep != []
    ensures var (a, rest) := RunAbovePaused(w, fuel, above, v, st, wakes);
            RunPaused(w, fuel, keep + above, v, st, wakes) == ContinuedPaused(w, fuel, keep, a, rest)
    decreases |wakes|
  {
    hide RunFrames, RunAbove;
    RunSplits(w, fuel, keep, above, v, st);
    var a := RunAbove(w, fuel, above, v, st);
    if a.Suspend? && wakes != [] { PausedRunSplits(w, fuel, keep, a.frames, None, wakes[0], wakes[1..]); }
  }

  /** The caller `f` and the frames above it have pushed over `base`; `f` waits for them, or has just been given `v`. */
  ghost predicate Waits(w: World, f: Frame, above: seq<Frame>, v: Option<Value>, ctx: Ctx, base: Ctx) {
    && Resumable(w, [f] + above, v) && Called(w, [f] + above) && (above == [] ==> v.Some?)
    && Pushed(w, base, Callers([f] + above, v), ctx)
  }

  /** What the frames above `f` leave it: a value over its own push, or again a wait over the same `base`. */
  ghost predicate Leaves(w: World, f: Frame, base: Ctx, a: Answer) {
    && (a.Return? ==> a.value.Some? && SameSlots(RestoreProps(a.store.ctx, SlotOf(w, f)), base))
    && (a.Suspend? ==> a.frames != [] && Waits(w, f, a.frames, None, a.store.ctx, base))
  }

  lemma {:induction false} AboveKeepsPush(w: World, fuel: nat, f: Frame, above: seq<Frame>, v: Option<Value>, st: Store, base: Ctx)
    requires Waits(w, f, above, v, st.ctx, base) && SlotsPrivate(w) && Quiet(w)
    ensures Leaves(w, f, base, RunAbove(w, fuel, above, v, st))
    decreases |above|
  {
    hide Run, Quiet, Callable, SlotsPrivate, WellFormed, Pushed, SameSlots, Suspended;
    if above == [] {
      assert [f] + above == [] + [f];
      PushedSplit(w, base, [], f, st.ctx);
      PushedNone(w, base, RestoreProps(st.ctx, SlotOf(w, f)));
    } else {
      TopKeepsPush(w, fuel, f, above, v, st, base);
      var n := |above| - 1;
      var answer := Reenter(w, fuel, above[n], v, true, st);
      if answer.Return? { AboveKeepsPush(w, fuel, f, above[..n], answer.value, answer.store, base); }
    }
  }

  /** The top frame returns over the pushes of those below it, or suspends. */
  lemma TopKeepsPush(w: World, fuel: nat, f: Frame, above: seq<Frame>, v: Option<Value>, st: Store, base: Ctx)
    requires Waits(w, f, above, v, st.ctx, base) && SlotsPrivate(w) && Quiet(w) && above != []
    ensures var below := above[..|above| - 1];
            var answer := Reenter(w, fuel, above[|above| - 1], v, true, st);
            && (answer.Return? ==> Waits(w, f, below, answer.value, answer.store.ctx, base))
            && (answer.Suspend? ==> below + answer.frames != [] && Waits(w, f, below + answer.frames, None, answer.store.ctx, base))
  {
    hide Run, Quiet, Callable, SlotsPrivate, WellFormed, Pushed, SameSlots;
    var frames, n := [f] + above, |above|;
    var top, below := above[n - 1], above[..n - 1];
    assert frames[n] == top && frames[..n] == [f] + below && IsSub(w, frames[n - 1]);
    if Loadable(w, top.journey) {
      TopSettles(w, frames, v, base, st.ctx);
      var mid := Settled(w, Entry(w, top), v, st.ctx);
      var answer := Run(w, fuel, Entry(w, top), v, true, st);
      if answer.Return? {
        RunRestoresProps(w, fuel, Entry(w, top), v, true, st);
        SlotsStay(mid, answer.store.ctx);
        SlotsStay(base, base);
        PushedSame(w, base, base, [f] + below, mid, answer.store.ctx);
      } else if answer.Suspend? {
        SuspendPushes(w, fuel, Entry(w, top), v, true, st);
        SuspendedOverBelow(w, base, [f] + below, mid, top.journey, answer.frames, answer.store.ctx);
        assert [f] + below + answer.frames == [f] + (below + answer.frames);
      }
    }
  }

  /** However often the frames above a caller pause, what they leave it in the end is over its own push. */
  lemma {:induction false} PausedAboveKeepsPush(
    w: World, fuel: nat, below: seq<Frame>, f: Frame, above: seq<Frame>, v: Option<Value>, st: Store, wakes: seq<Store>, base: Ctx)
    requires Waits(w, f, above, v, st.ctx, base) && SlotsPrivate(w) && Quiet(w)
    requires SlotsSurvive(w, fuel, below + [f] + above, v, st, wakes)
    ensures Leaves(w, f, base, RunAbovePaused(w, fuel, above, v, st, wakes).0)
    decreases |wakes|
  {
    hide RunFrames, RunAbove, Quiet, Called, SlotsPrivate, Pushed, SameSlots, Resumable;
    AboveKeepsPush(w, fuel, f, above, v, st, base);
    var a := RunAbove(w, fuel, above, v, st);
    if a.Suspend? && wakes != [] {
      RunSplits(w, fuel, below + [f], above, v, st);
      SlotsStay(wakes[0].ctx, a.store.ctx);
      SlotsStay(base, base);
      PushedSame(w, base, base, Callers([f] + a.frames, None), a.store.ctx, wakes[0].ctx);
      PausedAboveKeepsPush(w, fuel, below, f, a.frames, None, wakes[0], wakes[1..], base);
    }
  }

  // ----- From the call to the return -----

  /** The call that step `f` makes in `st`: the callee, and the store it starts with. */
  function CallOf(w: World, f: Frame, st: Store): Option<(Frame, Store)>
    requires IsSub(w, f)
  {
    match SubStep(w, f, w.journeys[f.journey].steps[f.step].kind.propsContext, None, st.ctx)
    case Call(callee, ctx) =>
      if Loadable(w, callee)
      then Some((Frame(callee, w.journeys[callee].start), Tally(w, f.step, st, ResetClientInputs(ctx)))) else None
    case _ => None
  }

  /** Above `below`, a dispatch whose callee suspends leaves the caller below the callee's frames. */
  lemma CallSuspends(w: World, fuel: nat, below: seq<Frame>, f: Frame, st: Store)
    requires Ready(w, f, None) && IsSub(w, f) && Begin(w, f, st).Right? && CallOf(w, f, st).Some?
    requires var (entry, inside) := CallOf(w, f, st).value; Run(w, fuel, entry, None, true, inside).Suspend?
    ensures var (entry, inside) := CallOf(w, f, st).value;
            var a := Run(w, fuel, entry, None, true, inside);
            RunFrames(w, fuel + 1, below + [f], None, st) == Suspend(below + [f] + a.frames, a.store)
  {
    var (entry, inside) := CallOf(w, f, st).value;
    var a := Run(w, fuel, entry, None, true, inside);
    assert Entry(w, f) == f;
    assert Run(w, fuel + 1, f, None, below != [], st) == Suspend([f] + a.frames, a.store);
    assert (below + [f])[..|below|] == below && below + ([f] + a.frames) == below + [f] + a.frames;
  }

  /** Once its callee suspends, the caller waits over the slots it had at the call. */
  lemma CallerWaits(w: World, fuel: nat, f: Frame, st: Store)
    requires Ready(w, f, None) && IsSub(w, f) && Begin(w, f, st).Right? && CallOf(w, f, st).Some? && SlotsPrivate(w) && Quiet(w)
    requires var (entry, inside) := CallOf(w, f, st).value; Run(w, fuel, entry, None, true, inside).Suspend?
    ensures var (entry, inside) := CallOf(w, f, st).value;
            var a := Run(w, fuel, entry, None, true, inside);
            a.frames != [] && Waits(w, f, a.frames, None, a.store.ctx, st.ctx)
  {
    hide Run, Quiet, Callable, SlotsPrivate, Pushed, SameSlots, Begin;
    var (entry, inside) := CallOf(w, f, st).value;
    var a := Run(w, fuel, entry, None, true, inside);
    BeginNamesStep(w, f, st);
    CallPushes(w, f, Begin(w, f, st).value, st);
    CalleeIsCallable(w, f, st.ctx);
    SuspendPushes(w, fuel, entry, None, true, inside);
    hide WellFormed;
    SuspendedOverBelow(w, st.ctx, [f], inside.ctx, entry.journey, a.frames, a.store.ctx);
  }

  lemma BeginNamesStep(w: World, f: Frame, st: Store)
    requires IsSub(w, f) && Begin(w, f, st).Right?
    ensures Begin(w, f, st) == Right(w.journeys[f.journey].steps[f.step])
  {
  }

  /**
   * What a calling step finds after its callee was paused, at any depth and however
   * often: the run goes on at exactly this frame with the callee's value, and then
   * restoring the props gives the binding and stack it had when it made the call.
   */
  lemma ResumedCallerSeesProps(w: World, fuel: nat, below: seq<Frame>, f: Frame, st: Store, more: nat, wakes: seq<Store>)
    requires Ready(w, f, None) && IsSub(w, f) && Begin(w, f, st).Right? && CallOf(w, f, st).Some? && SlotsPrivate(w) && Quiet(w)
    requires var (entry, inside) := CallOf(w, f, st).value;
             var a := Run(w, fuel, entry, None, true, inside);
             && a.Suspend? && wakes != [] && SameSlots(wakes[0].ctx, a.store.ctx)
             && SlotsSurvive(w, more, below + [f] + a.frames, None, wakes[0], wakes[1..])
    ensures var (entry, inside) := CallOf(w, f, st).value;
            var a := Run(w, fuel, entry, None, true, inside);
            var (last, rest) := RunAbovePaused(w, more, a.frames, None, wakes[0], wakes[1..]);
            && RunPaused(w, more, below + [f] + a.frames, None, wakes[0], wakes[1..]) == ContinuedPaused(w, more, below + [f], last, rest)
            && (last.Return? ==> last.value.Some? && SameSlots(RestoreProps(last.store.ctx, SlotOf(w, f)), st.ctx))
  {
    hide Run, RunPaused, RunAbovePaused, SlotsSurvive, Quiet, SlotsPrivate, Pushed, SameSlots, Begin, CallOf, Ready;
    var (entry, inside) := CallOf(w, f, st).value;
    var a := Run(w, fuel, entry, None, true, inside);
    CallerWaits(w, fuel, f, st);
    SlotsStay(wakes[0].ctx, a.store.ctx);
    SlotsStay(st.ctx, st.ctx);
    PushedSame(w, st.ctx, st.ctx, Callers([f] + a.frames, None), a.store.ctx, wakes[0].ctx);
    PausedAboveKeepsPush(w, more, below, f, a.frames, None, wakes[0], wakes[1..], st.ctx);
    PausedRunSplits(w, more, below + [f], a.frames, None, wakes[0], wakes[1..]);
  }
}

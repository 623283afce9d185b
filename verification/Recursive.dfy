/**
 * The reference meaning of a journey: an ordinary recursive interpreter in which
 * a SubJourney step is a procedure call. It has no tracking stack and no return
 * entries in closedCtx. The theorems below show that the executor's loop over the
 * tracking stack computes exactly this, in both directions.
 */
module Recursive {
  import opened Basics
  import opened Tracking
  import opened Journey
  import opened Engine

  /** `Suspend` lists the frames a pause must remember, outermost first. */
  datatype Answer =
    | OutOfFuel
    | Return(value: Option<Value>, failed: bool, store: Store)
    | Suspend(frames: seq<Frame>, store: Store)
    | Abort(fault: Fault)

  /**
   * Runs a journey from step `f` to its end. `ret` is the value a call made by
   * `f` has just returned; `nested` says whether somebody waits for an answer.
   */
  function Run(w: World, fuel: nat, f: Frame, ret: Option<Value>, nested: bool, st: Store): Answer
    decreases fuel, 0
  {
    if fuel == 0 then OutOfFuel
    else
      match Begin(w, f, st)
      case Wrong(fault) => Abort(fault)
      case Right(step) =>
        if step.kind.SubJourney? then
          match SubStep(w, f, step.kind.propsContext, ret, st.ctx)
          case SubFault => Abort(StepFailed)
          case Goto(outcome, ctx) => Proceed(w, fuel - 1, f, step, outcome, nested, Tally(w, f.step, st, ctx))
          case Call(callee, ctx) =>
            Invoke(w, fuel - 1, f, callee, nested, Tally(w, f.step, st, ResetClientInputs(ctx)))
        else
          match w.exec(f.journey, f.step, st.ctx)
          case Raise => Abort(StepFailed)
          case Ask(ctx) => Suspend([f], Tally(w, f.step, st, ctx))
          case Done(ctx, outcome, result) =>
            var st1 := Tally(w, f.step, st, ctx);
            if Terminal(step.kind) then
              Return(if nested then ReturnValue(step.kind, result) else None, step.kind.Failure?, st1)
            else if outcome == "" then Return(None, false, st1.(ctx := ResetClientInputs(ctx)))
            else Proceed(w, fuel - 1, f, step, outcome, nested, st1)
  }

  /** Continue at the step the outcome names. */
  function Proceed(w: World, fuel: nat, f: Frame, step: Step, outcome: string, nested: bool, st: Store): Answer
    decreases fuel, 1
  {
    if outcome !in step.outcomes then Abort(InvalidOutcome)
    else Run(w, fuel, Frame(f.journey, step.outcomes[outcome]), None, nested,
             st.(ctx := ClearRequestsForStep(st.ctx, f.step)))
  }

  /** The procedure call: run the callee from its start step, then come back to the calling step. */
  function Invoke(w: World, fuel: nat, f: Frame, callee: Id, nested: bool, st: Store): Answer
    decreases fuel, 2
  {
    if !Loadable(w, callee) then Abort(JourneyNotFound)
    else
      var answer := Run(w, fuel, Frame(callee, w.journeys[callee].start), None, true, st);
      match answer
      case Return(v, _, st1) => Reenter(w, fuel, f, v, nested, st1)
      case Suspend(frames, st1) => Suspend([f] + frames, st1)
      case _ => answer
  }

  /** Control is back at the calling step, whose journey is loaded again. */
  function Reenter(w: World, fuel: nat, f: Frame, v: Option<Value>, nested: bool, st: Store): Answer
    decreases fuel, 1
  {
    if !Loadable(w, f.journey) then Abort(JourneyNotFound)
    else Run(w, fuel, Entry(w, f), v, nested, st)
  }

  /** Where the loop stands once the run above `base` has given its answer. */
  function Landing(base: seq<string>, a: Answer): State
    requires !a.OutOfFuel?
  {
    match a
    case Return(v, failed, st) =>
      if base != [] then Live(Machine(Popping, base, Deliver(map[], base, v), st))
      else if failed then Finished(true, st)
      else Live(Machine(Popping, base, map[], st))
    case Suspend(frames, st) => Paused(base + JoinAll(frames), map[], st)
    case Abort(fault) => Faulted(fault)
  }

  /** The loop about to dispatch `f` above `base`, with the value returned to `f`, if any. */
  function Launch(f: Frame, base: seq<string>, ret: Option<Value>, st: Store): State {
    Live(Machine(Running(f), base, if ret.Some? then map[f.step := ret.value] else map[], st))
  }

  ghost predicate Ready(w: World, f: Frame, ret: Option<Value>) {
    && WellFormed(w)
    && Loadable(w, f.journey)
    && (ret.Some? ==> IsSub(w, f))
  }

  /**
   * Whenever the recursive run terminates, the loop reaches the matching state
   * after some number of turns; the frames below the starting one are untouched.
   */
  lemma {:induction false} LoopFollowsRecursion(w: World, fuel: nat, f: Frame, base: seq<string>, ret: Option<Value>, st: Store)
    returns (n: nat)
    requires Ready(w, f, ret)
    requires !Run(w, fuel, f, ret, base != [], st).OutOfFuel?
    ensures n > 0
    ensures Iterate(w, Launch(f, base, ret, st), n) == Landing(base, Run(w, fuel, f, ret, base != [], st))
    decreases fuel, 0
  {
    hide Iterate, RestoreProps, PushProps, AddTag, Throttled, Loadable, Split;
    var m := Launch(f, base, ret, st).m;
    n := 1;
    IterateOnce(w, m);
    if Begin(w, f, st).Right? {
      var step := Begin(w, f, st).value;
      if step.kind.SubJourney? {
        match SubStep(w, f, step.kind.propsContext, ret, st.ctx) {
          case SubFault =>
          case Goto(outcome, ctx) =>
            assert m.inbox - {f.step} == map[];
            if outcome in step.outcomes {
              n := ProceedFollowsRecursion(w, fuel - 1, f, step, outcome, base, Tally(w, f.step, st, ctx));
              IterateFirst(w, m, n);
              n := 1 + n;
            }
          case Call(callee, ctx) =>
            n := CallFollowsRecursion(w, fuel - 1, f, base, callee, Tally(w, f.step, st, ResetClientInputs(ctx)));
            IterateFirst(w, m, n);
            n := 1 + n;
        }
      } else {
        match w.exec(f.journey, f.step, st.ctx) {
          case Raise =>
          case Ask(ctx) => assert JoinAll([f]) == [Join(f)];
          case Done(ctx, outcome, result) =>
            if !Terminal(step.kind) && outcome != "" && outcome in step.outcomes {
              n := ProceedFollowsRecursion(w, fuel - 1, f, step, outcome, base, Tally(w, f.step, st, ctx));
              IterateFirst(w, m, n);
              n := 1 + n;
            }
        }
      }
    }
  }

  lemma {:induction false} ProceedFollowsRecursion(
    w: World, fuel: nat, f: Frame, step: Step, outcome: string, base: seq<string>, st: Store)
    returns (n: nat)
    requires Ready(w, f, None) && outcome in step.outcomes
    requires !Proceed(w, fuel, f, step, outcome, base != [], st).OutOfFuel?
    ensures Iterate(w, Follow(Machine(Running(f), base, map[], st), f, step, outcome), n)
            == Landing(base, Proceed(w, fuel, f, step, outcome, base != [], st))
    decreases fuel, 1
  {
    hide Iterate, Run, WellFormed;
    n := LoopFollowsRecursion(w, fuel, Frame(f.journey, step.outcomes[outcome]), base, None,
                              st.(ctx := ClearRequestsForStep(st.ctx, f.step)));
  }

  /** The loop right after a SubJourney step has pushed its own frame and its callee's. */
  function Calling(f: Frame, base: seq<string>, callee: Id, st: Store): Machine {
    Machine(Popping, base + [Join(f), Join(Frame(callee, ""))], map[], st)
  }

  lemma CalleeIsEntered(w: World, f: Frame, base: seq<string>, callee: Id, st: Store)
    requires ':' !in callee
    ensures Advance(w, Calling(f, base, callee, st)) ==
            if Loadable(w, callee) then Launch(Frame(callee, w.journeys[callee].start), base + [Join(f)], None, st)
            else Faulted(JourneyNotFound)
  {
    SplitJoin(Frame(callee, ""));
    var stack := Calling(f, base, callee, st).stack;
    assert stack[..|stack| - 1] == base + [Join(f)];
  }

  lemma SubStepIsNamed(w: World, f: Frame)
    requires WellFormed(w) && IsSub(w, f)
    ensures f.step != ""
  {
  }

  /** Once the callee has ended, popping the caller's frame launches it with the delivered value. */
  lemma CallerIsReentered(w: World, f: Frame, base: seq<string>, v: Option<Value>, st: Store)
    requires Ready(w, f, v) && f.step != ""
    ensures Advance(w, Machine(Popping, base + [Join(f)], Deliver(map[], base + [Join(f)], v), st)) == Launch(f, base, v, st)
  {
    SplitJoin(f);
    assert (base + [Join(f)])[..|base|] == base;
  }

  lemma JoinAllCons(base: seq<string>, f: Frame, frames: seq<Frame>)
    ensures (base + [Join(f)]) + JoinAll(frames) == base + JoinAll([f] + frames)
  {
  }

  lemma {:induction false} CallFollowsRecursion(w: World, fuel: nat, f: Frame, base: seq<string>, callee: Id, st: Store)
    returns (n: nat)
    requires WellFormed(w) && Loadable(w, f.journey) && IsSub(w, f) && ':' !in callee
    requires !Invoke(w, fuel, f, callee, base != [], st).OutOfFuel?
    ensures Iterate(w, Live(Calling(f, base, callee, st)), n) == Landing(base, Invoke(w, fuel, f, callee, base != [], st))
    decreases fuel, 2
  {
    hide Run, Advance, Iterate, WellFormed, Calling, Join, JoinAll, Deliver, IsSub;
    var m := Calling(f, base, callee, st);
    CalleeIsEntered(w, f, base, callee, st);
    IterateOnce(w, m);
    n := 1;
    if Loadable(w, callee) {
      var caller := base + [Join(f)];
      var entry := Frame(callee, w.journeys[callee].start);
      var answer := Run(w, fuel, entry, None, true, st);
      var k := LoopFollowsRecursion(w, fuel, entry, caller, None, st);
      IterateFirst(w, m, k);
      n := 1 + k;
      if answer.Suspend? {
        JoinAllCons(base, f, answer.frames);
      } else if answer.Return? {
        var r := ReturnFollowsRecursion(w, fuel, f, base, answer);
        IterateAdd(w, Live(m), n, r);
        n := n + r;
      }
    }
  }

  lemma {:induction false} ReturnFollowsRecursion(w: World, fuel: nat, f: Frame, base: seq<string>, answer: Answer)
    returns (n: nat)
    requires WellFormed(w) && Loadable(w, f.journey) && IsSub(w, f) && answer.Return?
    requires !Reenter(w, fuel, f, answer.value, base != [], answer.store).OutOfFuel?
    ensures Iterate(w, Landing(base + [Join(f)], answer), n)
            == Landing(base, Reenter(w, fuel, f, answer.value, base != [], answer.store))
    decreases fuel, 1
  {
    hide Run, Advance, Iterate, WellFormed, Join, JoinAll, Deliver, IsSub;
    SubStepIsNamed(w, f);
    CallerIsReentered(w, f, base, answer.value, answer.store);
    var k := LoopFollowsRecursion(w, fuel, f, base, answer.value, answer.store);
    IterateFirst(w, Landing(base + [Join(f)], answer).m, k);
    n := 1 + k;
  }

  // ----- The other direction: the loop never halts before the recursion does -----

  lemma LiveEarlier(w: World, s: State, a: nat, b: nat)
    requires Iterate(w, s, a + b).Live?
    ensures Iterate(w, s, a).Live?
  {
    IterateAdd(w, s, a, b);
  }

  /** A recursive run that needs more than `fuel` keeps the loop busy for at least `fuel` turns. */
  lemma {:induction false} LoopOutlastsFuel(w: World, fuel: nat, f: Frame, base: seq<string>, ret: Option<Value>, st: Store)
    requires Ready(w, f, ret)
    requires Run(w, fuel, f, ret, base != [], st).OutOfFuel?
    ensures Iterate(w, Launch(f, base, ret, st), fuel).Live?
    decreases fuel, 0
  {
    hide RestoreProps, PushProps, AddTag, Throttled, Loadable, Split, Join;
    if fuel > 0 {
      var start := Launch(f, base, ret, st);
      var next := Advance(w, start.m);
      var step := Begin(w, f, st).value;
      if step.kind.SubJourney? {
        match SubStep(w, f, step.kind.propsContext, ret, st.ctx) {
          case Goto(outcome, ctx) =>
            assert start.m.inbox - {f.step} == map[];
            var st1 := Tally(w, f.step, st, ctx).(ctx := ClearRequestsForStep(ctx, f.step));
            var g := Frame(f.journey, step.outcomes[outcome]);
            assert next == Launch(g, base, None, st1);
            LoopOutlastsFuel(w, fuel - 1, g, base, None, st1);
          case Call(callee, ctx) =>
            var st1 := Tally(w, f.step, st, ResetClientInputs(ctx));
            assert next == Live(Calling(f, base, callee, st1));
            CallOutlastsFuel(w, fuel - 1, f, base, callee, st1);
        }
      } else {
        var Done(ctx, outcome, _) := w.exec(f.journey, f.step, st.ctx);
        var st1 := Tally(w, f.step, st, ctx).(ctx := ClearRequestsForStep(ctx, f.step));
        var g := Frame(f.journey, step.outcomes[outcome]);
        assert next == Launch(g, base, None, st1);
        LoopOutlastsFuel(w, fuel - 1, g, base, None, st1);
      }
    }
  }

  lemma {:induction false} CallOutlastsFuel(w: World, fuel: nat, f: Frame, base: seq<string>, callee: Id, st: Store)
    requires WellFormed(w) && Loadable(w, f.journey) && IsSub(w, f) && ':' !in callee
    requires Invoke(w, fuel, f, callee, base != [], st).OutOfFuel?
    ensures Iterate(w, Live(Calling(f, base, callee, st)), fuel).Live?
    decreases fuel, 1
  {
    hide Run, Advance;
    var start := Live(Calling(f, base, callee, st));
    var caller := base + [Join(f)];
    var entry := Frame(callee, w.journeys[callee].start);
    var answer := Run(w, fuel, entry, None, true, st);
    CalleeIsEntered(w, f, base, callee, st);
    if answer.OutOfFuel? {
      LoopOutlastsFuel(w, fuel, entry, caller, None, st);
      LiveEarlier(w, start, fuel, 1);
    } else {
      var k := LoopFollowsRecursion(w, fuel, entry, caller, None, st);
      CallerIsReentered(w, f, base, answer.value, answer.store);
      LoopOutlastsFuel(w, fuel, f, base, answer.value, answer.store);
      IterateAdd(w, start, 1 + k, 1 + fuel);
      LiveEarlier(w, start, fuel, 2 + k);
    }
  }

  // ----- Whole runs, from any saved stack of frames -----

  /** The reference meaning of a saved stack: run its top frame, hand its value to the frame below, and so on. */
  function RunFrames(w: World, fuel: nat, frames: seq<Frame>, v: Option<Value>, st: Store): Answer
    decreases |frames|
  {
    if frames == [] then Return(None, false, st)
    else
      var below := frames[..|frames| - 1];
      var answer := Reenter(w, fuel, frames[|frames| - 1], v, below != [], st);
      match answer
      case Return(value, _, st1) => if below == [] then answer else RunFrames(w, fuel, below, value, st1)
      case Suspend(fs, st1) => Suspend(below + fs, st1)
      case _ => answer
  }

  /** How a whole run ends for its caller. */
  function Conclusion(a: Answer): State
    requires !a.OutOfFuel?
  {
    match a
    case Return(_, failed, st) => Finished(failed, st)
    case Suspend(frames, st) => Paused(JoinAll(frames), map[], st)
    case Abort(fault) => Faulted(fault)
  }

  /** Frames a run can be resumed from: every frame that waits for a value names a SubJourney step. */
  ghost predicate Resumable(w: World, frames: seq<Frame>, v: Option<Value>) {
    && WellFormed(w)
    && (forall f :: f in frames ==> ':' !in f.journey)
    && (forall i :: 0 <= i < |frames| - 1 ==> IsSub(w, frames[i]))
    && (v.Some? ==> frames != [] && IsSub(w, frames[|frames| - 1]))
  }

  /** executeJourney about to pop the top of `frames`, with the value just delivered to it, if any. */
  function Resume(frames: seq<Frame>, v: Option<Value>, st: Store): State {
    Live(Machine(Popping, JoinAll(frames), if v.Some? && frames != [] then map[frames[|frames| - 1].step := v.value] else map[], st))
  }

  lemma TopFrameIsPopped(w: World, frames: seq<Frame>, v: Option<Value>, st: Store)
    requires Resumable(w, frames, v) && frames != []
    ensures var top := frames[|frames| - 1];
            Advance(w, Resume(frames, v, st).m) ==
            if Loadable(w, top.journey) then Launch(Entry(w, top), JoinAll(frames[..|frames| - 1]), v, st)
            else Faulted(JourneyNotFound)
  {
    SplitJoin(frames[|frames| - 1]);
  }

  lemma EmptyStackFinishes(w: World, st: Store)
    ensures Advance(w, Resume([], None, st).m) == Finished(false, st)
  {
  }

  lemma EntryIsReady(w: World, frames: seq<Frame>, v: Option<Value>)
    requires Resumable(w, frames, v) && frames != [] && Loadable(w, frames[|frames| - 1].journey)
    ensures Ready(w, Entry(w, frames[|frames| - 1]), v)
    ensures |frames| > 1 ==> IsSub(w, frames[..|frames| - 1][|frames| - 2])
    ensures Resumable(w, frames[..|frames| - 1], None)
  {
  }

  lemma {:induction false} LoopFollowsFrames(w: World, fuel: nat, frames: seq<Frame>, v: Option<Value>, st: Store) returns (n: nat)
    requires Resumable(w, frames, v)
    requires !RunFrames(w, fuel, frames, v, st).OutOfFuel?
    ensures Iterate(w, Resume(frames, v, st), n) == Conclusion(RunFrames(w, fuel, frames, v, st))
    decreases |frames|, 0
  {
    hide Run, Advance, Iterate, WellFormed, JoinAll, Resumable, Ready, Entry, IsSub;
    n := 1;
    var start := Resume(frames, v, st);
    IterateOnce(w, start.m);
    if frames == [] {
      EmptyStackFinishes(w, st);
      return;
    }
    var top, below := frames[|frames| - 1], frames[..|frames| - 1];
    TopFrameIsPopped(w, frames, v, st);
    if Loadable(w, top.journey) {
      var base := JoinAll(below);
      EntryIsReady(w, frames, v);
      var answer := Run(w, fuel, Entry(w, top), v, base != [], st);
      var k := LoopFollowsRecursion(w, fuel, Entry(w, top), base, v, st);
      IterateFirst(w, start.m, k);
      n := 1 + k;
      if answer.Suspend? {
        JoinAllConcat(below, answer.frames);
      } else if answer.Return? {
        var r := UnwindFollowsFrames(w, fuel, below, answer);
        IterateAdd(w, start, n, r);
        n := n + r;
      }
    }
  }

  /** The value of an ended frame is handed to the frame below it, or ends the run. */
  lemma {:induction false} UnwindFollowsFrames(w: World, fuel: nat, below: seq<Frame>, answer: Answer) returns (n: nat)
    requires answer.Return? && Resumable(w, below, None)
    requires below != [] ==> IsSub(w, below[|below| - 1])
    requires below != [] ==> !RunFrames(w, fuel, below, answer.value, answer.store).OutOfFuel?
    ensures Iterate(w, Landing(JoinAll(below), answer), n) ==
            Conclusion(if below == [] then answer else RunFrames(w, fuel, below, answer.value, answer.store))
    decreases |below|, 1
  {
    if below == [] {
      n := 1;
    } else {
      SplitJoin(below[|below| - 1]);
      hide Run, Advance, Iterate, RunFrames;
      n := LoopFollowsFrames(w, fuel, below, answer.value, answer.store);
    }
  }

  lemma JoinAllConcat(a: seq<Frame>, b: seq<Frame>)
    ensures JoinAll(a) + JoinAll(b) == JoinAll(a + b)
  {
  }

  lemma {:induction false} LoopOutlastsFrames(w: World, fuel: nat, frames: seq<Frame>, v: Option<Value>, st: Store)
    requires Resumable(w, frames, v)
    requires RunFrames(w, fuel, frames, v, st).OutOfFuel?
    ensures Iterate(w, Resume(frames, v, st), fuel).Live?
    decreases |frames|
  {
    hide Run, Advance, Join, Split;
    var top, below := frames[|frames| - 1], frames[..|frames| - 1];
    var base := JoinAll(below);
    var start := Resume(frames, v, st);
    TopFrameIsPopped(w, frames, v, st);
    var answer := Run(w, fuel, Entry(w, top), v, base != [], st);
    if answer.OutOfFuel? {
      LoopOutlastsFuel(w, fuel, Entry(w, top), base, v, st);
      LiveEarlier(w, start, fuel, 1);
    } else {
      var k := LoopFollowsRecursion(w, fuel, Entry(w, top), base, v, st);
      SplitJoin(below[|below| - 1]);
      LoopOutlastsFrames(w, fuel, below, answer.value, answer.store);
      IterateAdd(w, start, 1 + k, fuel);
      LiveEarlier(w, start, fuel, 1 + k);
    }
  }

  /** After `n` turns the loop has ended the way the recursive run with `fuel` ends. */
  ghost predicate Agree(w: World, frames: seq<Frame>, st: Store, n: nat, fuel: nat) {
    && !RunFrames(w, fuel, frames, None, st).OutOfFuel?
    && Iterate(w, Resume(frames, None, st), n) == Conclusion(RunFrames(w, fuel, frames, None, st))
  }

  /**
   * The tracking-stack loop and the recursive interpreter agree on every run from
   * every resumable stack: one ends exactly when the other does, with the same
   * contexts, ticks, verdict and saved frames.
   */
  lemma LoopEqualsRecursion(w: World, frames: seq<Frame>, st: Store)
    requires Resumable(w, frames, None)
    ensures forall n: nat :: !Iterate(w, Resume(frames, None, st), n).Live? ==> exists fuel: nat :: Agree(w, frames, st, n, fuel)
    ensures forall fuel: nat :: !RunFrames(w, fuel, frames, None, st).OutOfFuel? ==> exists n: nat :: Agree(w, frames, st, n, fuel)
  {
    hide Run, Advance, Iterate, RunFrames;
    var start := Resume(frames, None, st);
    forall fuel: nat | !RunFrames(w, fuel, frames, None, st).OutOfFuel?
      ensures exists n: nat :: Agree(w, frames, st, n, fuel)
    {
      var n := LoopFollowsFrames(w, fuel, frames, None, st);
      assert Agree(w, frames, st, n, fuel);
    }
    forall n: nat | !Iterate(w, start, n).Live?
      ensures exists fuel: nat :: Agree(w, frames, st, n, fuel)
    {
      if RunFrames(w, n, frames, None, st).OutOfFuel? {
        LoopOutlastsFrames(w, n, frames, None, st);
      }
      var k := LoopFollowsFrames(w, n, frames, None, st);
      HaltIsUnique(w, start, n, k);
      assert Agree(w, frames, st, n, n);
    }
  }

  lemma HaltIsUnique(w: World, s: State, a: nat, b: nat)
    requires !Iterate(w, s, a).Live? && !Iterate(w, s, b).Live?
    ensures Iterate(w, s, a) == Iterate(w, s, b)
  {
    if a <= b { IterateAdd(w, s, a, b - a); } else { IterateAdd(w, s, b, a - b); }
  }
}

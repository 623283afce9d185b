/**
 * The executor in the form the program has it: a transaction object whose fields
 * the nested loops update in place. Its methods are proved against the machine of
 * module Engine, and so against the recursive meaning of module Recursive.
 */
module Executor {
  import opened Basics
  import opened Tracking
  import opened Journey
  import opened Engine
  import opened Bindings

  /** What executeSteps reports to executeJourney. */
  datatype Signal = Next | Yielded | EndedInFailure | Suspended | Error(fault: Fault)

  class Transaction {
    const w: World
    var trackings: seq<string>
    var inbox: map<Id, Value>
    var journey: Id
    var currentStep: Id
    var ctx: Ctx
    var ticks: map<Id, Tick>
    var reading: nat

    ghost function StoreNow(): Store
      reads this
    {
      Store(ctx, ticks, reading)
    }

    ghost function Here(): Frame
      reads this
    {
      Frame(journey, currentStep)
    }

    ghost function At(control: Control): Machine
      reads this
    {
      Machine(control, trackings, inbox, StoreNow())
    }

    /** A new transaction over a state whose tracking stack holds `stack`. */
    constructor (world: World, stack: seq<string>, context: Ctx, firstReading: nat)
      ensures w == world && At(Popping) == Machine(Popping, stack, map[], Store(context, map[], firstReading))
    {
      w := world;
      trackings, inbox := stack, map[];
      journey, currentStep := "", "";
      ctx, ticks, reading := context, map[], firstReading;
    }

    method PushTracking(f: Frame)
      modifies this`trackings
      ensures trackings == old(trackings) + [Join(f)]
    {
      trackings := trackings + [f.journey + ":" + f.step];
    }

    /** On colon-free journey ids, popping undoes the last push. */
    method PopTracking() returns (f: Frame)
      modifies this`trackings
      ensures old(trackings) == [] ==> f == Frame("", "") && trackings == []
      ensures old(trackings) != [] ==>
                f == Split(old(trackings)[|old(trackings)| - 1]) && trackings == old(trackings)[..|old(trackings)| - 1]
      ensures forall g: Frame, base :: ':' !in g.journey && old(trackings) == base + [Join(g)] ==> f == g && trackings == base
    {
      f := GetTracking();
      if trackings != [] {
        trackings := trackings[..|trackings| - 1];
      }
      forall g: Frame, base | ':' !in g.journey && old(trackings) == base + [Join(g)]
        ensures f == g && trackings == base
      {
        SplitJoin(g);
      }
    }

    method GetTracking() returns (f: Frame)
      ensures f == if trackings == [] then Frame("", "") else Split(trackings[|trackings| - 1])
    {
      f := Frame("", "");
      if trackings != [] {
        var t := trackings[|trackings| - 1];
        var i := 0;
        while i < |t| && t[i] != ':'
          invariant i <= |t| && forall j :: 0 <= j < i ==> t[j] != ':'
        {
          i := i + 1;
        }
        if i < |t| {
          f := Frame(t[..i], t[i + 1..]);
        }
      }
    }

    /** SubJourney.Execute: come back from a call, skip it by tag, or push the two frames of a new one. */
    method ExecuteSubJourney(slot: string) returns (outcome: Option<string>)
      modifies this`ctx, this`inbox, this`trackings
      ensures var ret := if currentStep in old(inbox) then Some(old(inbox)[currentStep]) else None;
              match SubStep(w, Here(), slot, ret, old(ctx))
              case SubFault => outcome.None?
              case Goto(o, c) => outcome == Some(o) && o != "" && ctx == c && inbox == old(inbox) - {currentStep} && trackings == old(trackings)
              case Call(callee, c) =>
                && outcome == Some("") && ctx == c && inbox == old(inbox)
                && trackings == old(trackings) + [Join(Here()), Join(Frame(callee, ""))]
      ensures outcome == Some("") ==> var props := w.sub(journey, currentStep, old(ctx)).value.props;
                                      props.Some? && BindsProps(old(ctx), ctx, slot, props.value)
      ensures currentStep in old(inbox) && outcome.Some? ==>
                outcome.value == (if old(inbox)[currentStep] == Bool(true) then "true" else "false") && UnbindsProps(old(ctx), ctx, slot)
    {
      BothWays(w, Here(), slot, if currentStep in inbox then Some(inbox[currentStep]) else None, ctx);
      var resolved := w.sub(journey, currentStep, ctx);
      if resolved.None? { return None; }
      var cfg := resolved.value;
      if currentStep in inbox {
        if !ValidSlot(slot) { return None; }
        var value := inbox[currentStep];
        ctx := RestoreProps(ctx, slot);
        inbox := inbox - {currentStep};
        if value != Bool(true) { return Some("false"); }
        if cfg.setTag { ctx := AddTag(ctx, cfg.tagName); }
        return Some("true");
      }
      if cfg.passTag && cfg.tagName in ctx.tags {
        assert inbox == inbox - {currentStep};
        return Some("true");
      }
      if !ValidSlot(slot) || cfg.props.None? { return None; }
      ctx := PushProps(ctx, slot, cfg.props.value);
      PushTracking(Frame(journey, currentStep));
      PushTracking(Frame(cfg.callee, ""));
      return Some("");
    }

    method RecordTick()
      modifies this`ticks, this`reading
      ensures StoreNow() == Tally(w, currentStep, old(StoreNow()), ctx)
    {
      var count := if currentStep in ticks then ticks[currentStep].count else 0;
      ticks := ticks[currentStep := Tick(count + 1, w.clock(reading + 1))];
      reading := reading + 2;
    }

    /** Follow an outcome to the step it names. */
    method GotoOutcome(step: Step, outcome: string) returns (signal: Signal)
      modifies this`ctx, this`currentStep
      ensures match Follow(old(At(Running(Here()))), old(Here()), step, outcome)
              case Faulted(fault) => signal == Error(fault)
              case Live(m) => signal == Next && At(Running(Here())) == m
              case _ => false
    {
      ctx := ClearRequestsForStep(ctx, currentStep);
      if outcome !in step.outcomes { return Error(InvalidOutcome); }
      currentStep := step.outcomes[outcome];
      return Next;
    }

    /** The state a signal of one inner turn stands for. */
    ghost predicate Reports(signal: Signal, s: State)
      reads this
    {
      match signal
      case Next => s == Live(At(Running(Here())))
      case Yielded => s == Live(At(Popping))
      case EndedInFailure => s == Finished(true, StoreNow())
      case Suspended => s == Paused(trackings, inbox, StoreNow())
      case Error(fault) => s == Faulted(fault)
    }

    method DispatchSubJourney(step: Step) returns (signal: Signal)
      requires step.kind.SubJourney?
      modifies this`ctx, this`inbox, this`trackings, this`ticks, this`reading, this`currentStep
      ensures Reports(signal, DispatchSub(w, old(At(Running(Here()))), old(Here()), step))
    {
      hide SubStep, Join, ResetClientInputs;
      var outcome := ExecuteSubJourney(step.kind.propsContext);
      if outcome.None? { return Error(StepFailed); }
      RecordTick();
      if outcome.value == "" {
        ctx := ResetClientInputs(ctx);
        return Yielded;
      }
      signal := GotoOutcome(step, outcome.value);
    }

    method DispatchOther(step: Step) returns (signal: Signal)
      modifies this`ctx, this`inbox, this`trackings, this`ticks, this`reading, this`currentStep
      ensures Reports(signal, DispatchPlain(w, old(At(Running(Here()))), old(Here()), step))
      ensures var effect := w.exec(old(journey), old(currentStep), old(ctx));
              effect.Done? && old(trackings) != [] && Terminal(step.kind) ==>
                var waiting := Split(old(trackings)[|old(trackings)| - 1]).step;
                && signal == Yielded && trackings == old(trackings) && ctx == effect.ctx
                && (step.kind.Success? ==> inbox == old(inbox)[waiting := Bool(true)])
                && (step.kind.Failure? ==> inbox == old(inbox)[waiting := Bool(false)])
                && (step.kind.End? ==> inbox == if effect.result.Some? then old(inbox)[waiting := effect.result.value] else old(inbox))
    {
      hide Join, Split, ResetClientInputs, ClearRequestsForStep;
      var effect := w.exec(journey, currentStep, ctx);
      if effect.Raise? { return Error(StepFailed); }
      ctx := effect.ctx;
      RecordTick();
      if effect.Ask? {
        PushTracking(Frame(journey, currentStep));
        return Suspended;
      }
      if Terminal(step.kind) {
        if trackings == [] {
          return if step.kind.Failure? then EndedInFailure else Yielded;
        }
        var value := ReturnValue(step.kind, effect.result);
        if value.Some? {
          var caller := GetTracking();
          inbox := inbox[caller.step := value.value];
        }
        return Yielded;
      }
      if effect.outcome == "" {
        ctx := ResetClientInputs(ctx);
        return Yielded;
      }
      signal := GotoOutcome(step, effect.outcome);
    }

    /** One turn of the inner loop: lookup and loop guard, then the step itself. */
    method DispatchStep() returns (signal: Signal)
      modifies this`ctx, this`inbox, this`trackings, this`ticks, this`reading, this`currentStep
      ensures Reports(signal, Advance(w, old(At(Running(Here())))))
    {
      hide DispatchSub, DispatchPlain;
      if journey !in w.journeys || currentStep !in w.journeys[journey].steps { return Error(StepNotFound); }
      var step := w.journeys[journey].steps[currentStep];
      if currentStep in ticks && ticks[currentStep].count >= MAX_TICK_COUNT
         && w.clock(reading) - ticks[currentStep].last < MIN_TICK_WINDOW_MS {
        return Error(InfiniteLoop);
      }
      if step.kind.SubJourney? {
        signal := DispatchSubJourney(step);
      } else {
        signal := DispatchOther(step);
      }
    }

    /** executeSteps: follow outcomes within one frame until control leaves it. */
    method ExecuteSteps(ghost n: nat) returns (signal: Signal, ghost used: nat)
      requires !Iterate(w, Live(At(Running(Here()))), n).Live?
      modifies this`ctx, this`inbox, this`trackings, this`ticks, this`reading, this`currentStep
      ensures !signal.Next? && used > 0
      ensures Reports(signal, Iterate(w, old(Live(At(Running(Here())))), used))
    {
      hide Advance;
      ghost var start := Live(At(Running(Here())));
      used := 0;
      signal := Next;
      while signal.Next?
        invariant signal.Next? ==> used < n
        invariant signal.Next? || used > 0
        invariant Reports(signal, Iterate(w, start, used))
        decreases if signal.Next? then 1 + n - used else 0
      {
        IterateAdd(w, start, used, 1);
        signal := DispatchStep();
        used := used + 1;
        if signal.Next? && used >= n {
          IterateAdd(w, start, n, used - n);
        }
      }
    }

    /**
     * executeJourney: consume the tracking stack. On every run that ends, within
     * any number `n` of turns, the method ends in the same state.
     */
    method ExecuteJourney(ghost n: nat) returns (signal: Signal)
      requires !Iterate(w, Live(At(Popping)), n).Live?
      modifies this
      ensures match Iterate(w, old(Live(At(Popping))), n)
              case Finished(failed, st) => signal == (if failed then EndedInFailure else Yielded) && StoreNow() == st
              case Paused(stack, box, st) => signal == Suspended && trackings == stack && inbox == box && StoreNow() == st
              case Faulted(fault) => signal == Error(fault)
              case Live(_) => false
    {
      hide Dispatch, Split, Join, Tally;
      ghost var start := Live(At(Popping));
      ghost var done := 0;
      while trackings != []
        invariant done <= n && Iterate(w, start, done) == Live(At(Popping))
        decreases n - done
      {
        IterateAdd(w, start, done, n - done);
        IterateAdd(w, start, done, 1);
        ghost var here := At(Popping);
        var frame := PopTracking();
        if !Loadable(w, frame.journey) {
          assert Advance(w, here) == Faulted(JourneyNotFound);
          IterateAdd(w, start, done + 1, n - done - 1);
          return Error(JourneyNotFound);
        }
        journey := frame.journey;
        currentStep := if frame.step == "" then w.journeys[journey].start else frame.step;
        assert Advance(w, here) == Live(At(Running(Here())));
        done := done + 1;
        IterateAdd(w, start, done, n - done);
        ghost var used;
        signal, used := ExecuteSteps(n - done);
        IterateAdd(w, start, done, used);
        done := done + used;
        if !signal.Yielded? {
          if done <= n { IterateAdd(w, start, done, n - done); } else { IterateAdd(w, start, n, done - n); }
          return;
        }
        if done > n { IterateAdd(w, start, n, done - n); }
      }
      IterateAdd(w, start, done, n - done);
      assert Iterate(w, Live(At(Popping)), n - done) == Finished(false, StoreNow());
      return Yielded;
    }
  }
}

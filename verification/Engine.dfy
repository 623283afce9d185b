/**
 * The executor as a machine over an explicit tracking stack: one `Advance` pops
 * a frame or dispatches one step, as the loops of executeJourney and
 * executeSteps do. Return values travel through `inbox`, the entries a
 * terminal step leaves in closedCtx under its caller's step id.
 */
module Engine {
  import opened Basics
  import opened Tracking
  import opened Journey

  datatype Control = Running(at: Frame) | Popping

  datatype Machine = Machine(control: Control, stack: seq<string>, inbox: map<Id, Value>, store: Store)

  datatype State =
    | Live(m: Machine)
    | Finished(failed: bool, store: Store)
    | Paused(stack: seq<string>, inbox: map<Id, Value>, store: Store)
    | Faulted(fault: Fault)

  function Advance(w: World, m: Machine): State {
    match m.control
    case Popping => PopFrame(w, m)
    case Running(f) => Dispatch(w, m, f)
  }

  /** One turn of the outer loop: take the top frame and load its journey. */
  function PopFrame(w: World, m: Machine): State {
    if m.stack == [] then Finished(false, m.store)
    else
      var f := Split(m.stack[|m.stack| - 1]);
      if !Loadable(w, f.journey) then Faulted(JourneyNotFound)
      else Live(m.(control := Running(Entry(w, f)), stack := m.stack[..|m.stack| - 1]))
  }

  /** An empty step id stands for the start step of the journey. */
  function Entry(w: World, f: Frame): Frame
    requires f.journey in w.journeys
  {
    if f.step == "" then Frame(f.journey, w.journeys[f.journey].start) else f
  }

  /** One turn of the inner loop. */
  function Dispatch(w: World, m: Machine, f: Frame): State {
    match Begin(w, f, m.store)
    case Wrong(fault) => Faulted(fault)
    case Right(step) =>
      if step.kind.SubJourney? then DispatchSub(w, m, f, step) else DispatchPlain(w, m, f, step)
  }

  function DispatchPlain(w: World, m: Machine, f: Frame, step: Step): State {
    match w.exec(f.journey, f.step, m.store.ctx)
    case Raise => Faulted(StepFailed)
    case Ask(ctx) => Paused(m.stack + [Join(f)], m.inbox, Tally(w, f.step, m.store, ctx))
    case Done(ctx, outcome, result) =>
      var m1 := m.(store := Tally(w, f.step, m.store, ctx));
      if Terminal(step.kind) then
        if m.stack == [] then
          if step.kind.Failure? then Finished(true, m1.store) else Live(m1.(control := Popping))
        else Live(m1.(control := Popping, inbox := Deliver(m1.inbox, m.stack, ReturnValue(step.kind, result))))
      else if outcome == "" then
        Live(m1.(control := Popping, store := m1.store.(ctx := ResetClientInputs(ctx))))
      else Follow(m1, f, step, outcome)
  }

  /** A terminal step writes its value under the step id on top of the stack. */
  function Deliver(inbox: map<Id, Value>, stack: seq<string>, v: Option<Value>): map<Id, Value>
    requires stack != []
  {
    if v.None? then inbox else inbox[Split(stack[|stack| - 1]).step := v.value]
  }

  function DispatchSub(w: World, m: Machine, f: Frame, step: Step): State
    requires step.kind.SubJourney?
  {
    var ret := if f.step in m.inbox then Some(m.inbox[f.step]) else None;
    match SubStep(w, f, step.kind.propsContext, ret, m.store.ctx)
    case SubFault => Faulted(StepFailed)
    case Goto(outcome, ctx) =>
      Follow(m.(inbox := m.inbox - {f.step}, store := Tally(w, f.step, m.store, ctx)), f, step, outcome)
    case Call(callee, ctx) =>
      Live(m.(control := Popping,
              stack := m.stack + [Join(f), Join(Frame(callee, ""))],
              store := Tally(w, f.step, m.store, ResetClientInputs(ctx))))
  }

  function Follow(m: Machine, f: Frame, step: Step, outcome: string): State {
    if outcome !in step.outcomes then Faulted(InvalidOutcome)
    else Live(m.(control := Running(Frame(f.journey, step.outcomes[outcome])),
                 store := m.store.(ctx := ClearRequestsForStep(m.store.ctx, f.step))))
  }

  /** `n` turns of the loops; a state that is not live stays as it is. */
  function Iterate(w: World, s: State, n: nat): State
    decreases n
  {
    if n == 0 || !s.Live? then s else Iterate(w, Advance(w, s.m), n - 1)
  }

  lemma {:induction false} IterateAdd(w: World, s: State, a: nat, b: nat)
    ensures Iterate(w, s, a + b) == Iterate(w, Iterate(w, s, a), b)
    decreases a
  {
    hide Advance;
    if a == 0 || !s.Live? {
    } else {
      IterateAdd(w, Advance(w, s.m), a - 1, b);
    }
  }

  lemma IterateFirst(w: World, m: Machine, n: nat)
    ensures Iterate(w, Live(m), 1 + n) == Iterate(w, Advance(w, m), n)
  {
    hide Advance;
  }

  lemma IterateOnce(w: World, m: Machine)
    ensures Iterate(w, Live(m), 1) == Advance(w, m)
  {
    hide Advance;
  }
}

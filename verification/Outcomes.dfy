/**
 * With which step a journey ends, what value its caller gets for that, and where
 * the caller goes on.
 */
module Outcomes {
  import opened Basics
  import opened Tracking
  import opened Journey
  import opened Engine
  import opened Recursive

  /** Step `at` is about to run in `store`, with the value `ret` that a call it made has returned. */
  datatype Dispatch = Dispatch(fuel: nat, at: Frame, ret: Option<Value>, store: Store)

  function Answered(w: World, d: Dispatch, nested: bool): Answer {
    Run(w, d.fuel, d.at, d.ret, nested, d.store)
  }

  function FollowedBy(d: Dispatch, step: Step, outcome: string, st: Store): Option<Dispatch>
    requires d.fuel > 0
  {
    if outcome !in step.outcomes then None
    else Some(Dispatch(d.fuel - 1, Frame(d.at.journey, step.outcomes[outcome]), None, st.(ctx := ClearRequestsForStep(st.ctx, d.at.step))))
  }

  /** The next step of the same journey: the one an outcome names, or the calling step again when its callee has returned. */
  function NextDispatch(w: World, d: Dispatch): Option<Dispatch> {
    var Dispatch(fuel, f, ret, st) := d;
    if fuel == 0 || Begin(w, f, st).Wrong? then None
    else
      var step := Begin(w, f, st).value;
      if step.kind.SubJourney? then
        match SubStep(w, f, step.kind.propsContext, ret, st.ctx)
        case SubFault => None
        case Goto(outcome, ctx) => FollowedBy(d, step, outcome, Tally(w, f.step, st, ctx))
        case Call(callee, ctx) =>
          if !Loadable(w, callee) || !Loadable(w, f.journey) then None
          else
            match Answered(w, CalleeOf(w, d, callee, ctx), true)
            case Return(v, _, st1) => Some(Dispatch(fuel - 1, Entry(w, f), v, st1))
            case _ => None
      else
        match w.exec(f.journey, f.step, st.ctx)
        case Done(ctx, outcome, _) =>
          if Terminal(step.kind) || outcome == "" then None else FollowedBy(d, step, outcome, Tally(w, f.step, st, ctx))
        case _ => None
  }

  /** The first dispatch of a callee. */
  function CalleeOf(w: World, d: Dispatch, callee: Id, ctx: Ctx): Dispatch
    requires d.fuel > 0 && callee in w.journeys
  {
    Dispatch(d.fuel - 1, Frame(callee, w.journeys[callee].start), None, Tally(w, d.at.step, d.store, ResetClientInputs(ctx)))
  }

  /** The last dispatch of this journey; those of its callees do not count. */
  function LastDispatch(w: World, d: Dispatch): Dispatch
    decreases d.fuel
  {
    match NextDispatch(w, d)
    case None => d
    case Some(next) => if next.fuel < d.fuel then LastDispatch(w, next) else d
  }

  /** The step is a SubJourney that makes this move. */
  predicate Moves(w: World, d: Dispatch, move: SubMove) {
    && d.fuel > 0 && Begin(w, d.at, d.store).Right? && Begin(w, d.at, d.store).value.kind.SubJourney?
    && SubStep(w, d.at, Begin(w, d.at, d.store).value.kind.propsContext, d.ret, d.store.ctx) == move
  }

  lemma CallRuns(w: World, d: Dispatch, callee: Id, ctx: Ctx, nested: bool)
    requires Moves(w, d, Call(callee, ctx))
    ensures !Loadable(w, callee) ==> Answered(w, d, nested).Abort?
    ensures Loadable(w, callee) ==>
              match Answered(w, CalleeOf(w, d, callee, ctx), true)
              case Return(v, _, st) => Answered(w, d, nested) == Reenter(w, d.fuel - 1, d.at, v, nested, st)
              case _ => !Answered(w, d, nested).Return?
  {
    hide SubStep, Begin, ResetClientInputs, Tally;
    assert Answered(w, d, nested) ==
           Invoke(w, d.fuel - 1, d.at, callee, nested, Tally(w, d.at.step, d.store, ResetClientInputs(ctx)));
  }

  lemma GotoRuns(w: World, d: Dispatch, outcome: string, ctx: Ctx, nested: bool)
    requires Moves(w, d, Goto(outcome, ctx))
    ensures var step := Begin(w, d.at, d.store).value;
            Answered(w, d, nested) == Proceed(w, d.fuel - 1, d.at, step, outcome, nested, Tally(w, d.at.step, d.store, ctx))
  {
    hide SubStep, Begin, Tally;
  }

  lemma OtherRuns(w: World, d: Dispatch, nested: bool)
    ensures d.fuel > 0 && Begin(w, d.at, d.store).Right? && !Begin(w, d.at, d.store).value.kind.SubJourney? && EffectOf(w, d).Done? ==>
              var step := Begin(w, d.at, d.store).value;
              var Done(ctx, outcome, _) := EffectOf(w, d);
              !Terminal(step.kind) && outcome != "" ==>
                Answered(w, d, nested) == Proceed(w, d.fuel - 1, d.at, step, outcome, nested, Tally(w, d.at.step, d.store, ctx))
  {
    hide Begin, Tally;
  }

  lemma RunGoesOn(w: World, d: Dispatch, nested: bool)
    requires NextDispatch(w, d).Some?
    ensures var next := NextDispatch(w, d).value;
            next.fuel < d.fuel && next.at.journey == d.at.journey && Answered(w, d, nested) == Answered(w, next, nested)
  {
    hide SubStep, Throttled, ClearRequestsForStep, ResetClientInputs, Tally;
    OtherRuns(w, d, nested);
    var step := Begin(w, d.at, d.store).value;
    if step.kind.SubJourney? {
      match SubStep(w, d.at, step.kind.propsContext, d.ret, d.store.ctx) {
        case Goto(outcome, ctx) => GotoRuns(w, d, outcome, ctx, nested);
        case Call(callee, ctx) => CallRuns(w, d, callee, ctx, nested);
      }
    }
  }

  /** The kind of the step this dispatch runs. */
  function KindOf(w: World, d: Dispatch): Option<Kind> {
    if d.at.journey in w.journeys && d.at.step in w.journeys[d.at.journey].steps
    then Some(w.journeys[d.at.journey].steps[d.at.step].kind) else None
  }

  /** The effect of the step this dispatch runs. */
  function EffectOf(w: World, d: Dispatch): Effect {
    w.exec(d.at.journey, d.at.step, d.store.ctx)
  }

  /** What the caller of a journey whose last dispatch is `last` is told, and whether the journey counts as failed. */
  ghost predicate EndsWith(w: World, last: Dispatch, nested: bool, a: Answer) {
    && a.Return? && EffectOf(w, last).Done?
    && (!nested ==> a.value == None)
    && match KindOf(w, last)
       case Some(Success) => (nested ==> a.value == Some(Bool(true))) && !a.failed
       case Some(Failure) => (nested ==> a.value == Some(Bool(false))) && a.failed
       case Some(End) => (nested ==> a.value == EffectOf(w, last).result) && !a.failed
       case Some(Silent) => a.value == None && !a.failed
       case Some(Plain) => EffectOf(w, last).outcome == "" && a.value == None && !a.failed
       case _ => false
  }

  lemma SubIsNotLast(w: World, d: Dispatch, nested: bool)
    requires NextDispatch(w, d).None? && Begin(w, d.at, d.store).Right? && Begin(w, d.at, d.store).value.kind.SubJourney?
    ensures !Answered(w, d, nested).Return?
  {
    hide SubStep, Begin, ClearRequestsForStep, ResetClientInputs, Tally;
    if d.fuel > 0 {
      match SubStep(w, d.at, Begin(w, d.at, d.store).value.kind.propsContext, d.ret, d.store.ctx) {
        case SubFault =>
        case Goto(outcome, ctx) => GotoRuns(w, d, outcome, ctx, nested);
        case Call(callee, ctx) => CallRuns(w, d, callee, ctx, nested);
      }
    }
  }

  lemma LastStepAnswers(w: World, d: Dispatch, nested: bool)
    requires NextDispatch(w, d).None? && Answered(w, d, nested).Return?
    ensures EndsWith(w, d, nested, Answered(w, d, nested))
  {
    hide SubStep, Throttled, ClearRequestsForStep, ResetClientInputs, Tally;
    OtherRuns(w, d, nested);
    if Begin(w, d.at, d.store).value.kind.SubJourney? { SubIsNotLast(w, d, nested); }
  }

  /** Every journey that returns is answered by its last step: true, false, the result of End, or nothing. */
  lemma {:induction false} LastStepDecides(w: World, d: Dispatch, nested: bool)
    requires Answered(w, d, nested).Return?
    ensures LastDispatch(w, d).at.journey == d.at.journey
    ensures EndsWith(w, LastDispatch(w, d), nested, Answered(w, d, nested))
    decreases d.fuel
  {
    hide NextDispatch, Answered, EndsWith;
    if NextDispatch(w, d).Some? {
      RunGoesOn(w, d, nested);
      LastStepDecides(w, NextDispatch(w, d).value, nested);
    } else {
      LastStepAnswers(w, d, nested);
    }
  }

  /** The called journey ended well: in Success, or in End with the value true. */
  ghost predicate EndedWell(w: World, last: Dispatch) {
    KindOf(w, last) == Some(Success) || (KindOf(w, last) == Some(End) && EffectOf(w, last).Done? && EffectOf(w, last).result == Some(Bool(true)))
  }

  /** The called journey ended without a value: in an HTTP response, in End without one, or at a step without an outcome. */
  ghost predicate EndedSilently(w: World, last: Dispatch) {
    || KindOf(w, last) == Some(Silent) || KindOf(w, last) == Some(Plain)
    || (KindOf(w, last) == Some(End) && EffectOf(w, last).Done? && EffectOf(w, last).result == None)
  }

  /** Dispatch `d` calls `callee`. */
  predicate Calls(w: World, d: Dispatch, callee: Id, ctx: Ctx) {
    d.ret == None && Moves(w, d, Call(callee, ctx)) && Loadable(w, callee)
  }

  lemma ReturnReenters(w: World, d: Dispatch, callee: Id, ctx: Ctx)
    requires Ready(w, d.at, None) && Calls(w, d, callee, ctx) && Answered(w, CalleeOf(w, d, callee, ctx), true).Return?
    ensures var a := Answered(w, CalleeOf(w, d, callee, ctx), true);
            NextDispatch(w, d) == Some(Dispatch(d.fuel - 1, d.at, a.value, a.store)) && IsSub(w, d.at)
  {
    assert d.at.step != "";
    hide SubStep, Throttled;
  }

  lemma ValueChoosesOutcome(w: World, d: Dispatch)
    requires IsSub(w, d.at) && d.ret.Some? && NextDispatch(w, d).Some?
    ensures var outcomes := w.journeys[d.at.journey].steps[d.at.step].outcomes;
            var o := if d.ret.value == Bool(true) then "true" else "false";
            var next := NextDispatch(w, d).value;
            o in outcomes && next.at == Frame(d.at.journey, outcomes[o]) && next.ret == None
  {
  }

  /**
   * From a call to the step its caller goes on with: the caller runs again, and a run
   * that goes on from there goes to the outcome "true" if and only if the callee ended
   * in Success or in End with true, and to "false" if it ended with any other value. A
   * callee that ended without a value is answered by a caller without one.
   */
  lemma CallGoesOn(w: World, d: Dispatch, callee: Id, ctx: Ctx)
    requires Ready(w, d.at, None) && Calls(w, d, callee, ctx) && Answered(w, CalleeOf(w, d, callee, ctx), true).Return?
    ensures var last := LastDispatch(w, CalleeOf(w, d, callee, ctx));
            var again := NextDispatch(w, d);
            && last.at.journey == callee && again.Some? && again.value.at == d.at
            && (again.value.ret.None? <==> EndedSilently(w, last))
            && (again.value.ret.Some? && NextDispatch(w, again.value).Some? ==>
                  var outcomes := w.journeys[d.at.journey].steps[d.at.step].outcomes;
                  var o := if EndedWell(w, last) then "true" else "false";
                  o in outcomes && NextDispatch(w, again.value).value.at == Frame(d.at.journey, outcomes[o]))
  {
    ReturnReenters(w, d, callee, ctx);
    LastStepDecides(w, CalleeOf(w, d, callee, ctx), true);
    hide NextDispatch, LastDispatch, Answered, Calls;
    var again := NextDispatch(w, d).value;
    if again.ret.Some? && NextDispatch(w, again).Some? { ValueChoosesOutcome(w, again); }
  }
}

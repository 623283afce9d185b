/**
 * Journeys, their steps, and the effect of dispatching one step. Ordinary steps
 * are an arbitrary function of the contexts; the steps that take part in the
 * call protocol (SubJourney, Success, Failure, End) are modelled in full.
 */
module Journey {
  import opened Basics
  import opened Tracking

  datatype Value = Bool(b: bool) | Json(text: string)

  /** One entry of a `props_stack`; `previous` is None when no props were bound before the call. */
  datatype PropsFrame = PropsFrame(props: Value, previous: Option<Value>)

  /** The `props` binding of one context and the stack that saves it across calls. */
  datatype PropsSlot = PropsSlot(props: Option<Value>, stack: seq<PropsFrame>)

  /** A client input requested on behalf of a step. */
  datatype Request = Request(step: Id, identity: string)

  /** Everything a step can read or write: its contexts, tags, input requests and the submitted inputs. */
  datatype Ctx = Ctx(
    data: map<string, Value>,
    closedProps: PropsSlot,
    encProps: PropsSlot,
    tags: seq<string>,
    requests: seq<Request>,
    provided: seq<string>)

  /** `Raise` is a step error, `Ask` leaves new client inputs, `Done` carries the outcome and, for End, its result. */
  datatype Effect = Raise | Ask(ctx: Ctx) | Done(ctx: Ctx, outcome: string, result: Option<Value>)

  /** `Silent` ends a journey without recording a return value (HTTPFinishResponse). */
  datatype Kind = Plain | SubJourney(propsContext: string) | Success | Failure | End | Silent

  datatype Step = Step(kind: Kind, outcomes: map<string, Id>)

  datatype JourneyConf = JourneyConf(active: bool, start: Id, steps: map<Id, Step>)

  /** A resolved SubJourney configuration; `props` is None when the configured props are not an object. */
  datatype SubConfig = SubConfig(callee: Id, tagName: string, passTag: bool, setTag: bool, props: Option<Value>)

  datatype World = World(
    journeys: map<Id, JourneyConf>,
    exec: (Id, Id, Ctx) -> Effect,
    sub: (Id, Id, Ctx) -> Option<SubConfig>,
    clock: nat -> int)

  datatype Tick = Tick(count: nat, last: int)

  /** The part of a transaction that every frame shares; `now` is the next clock reading. */
  datatype Store = Store(ctx: Ctx, ticks: map<Id, Tick>, now: nat)

  datatype Fault = JourneyNotFound | StepNotFound | InfiniteLoop | StepFailed | InvalidOutcome

  const MAX_TICK_COUNT := 500
  const MIN_TICK_WINDOW_MS := 2000

  predicate Loadable(w: World, j: Id) {
    j in w.journeys && w.journeys[j].active
  }

  predicate IsSub(w: World, f: Frame) {
    f.journey in w.journeys && f.step in w.journeys[f.journey].steps
    && w.journeys[f.journey].steps[f.step].kind.SubJourney?
  }

  /**
   * What the engine relies on: colon-free journey ids, non-empty step ids, and
   * built-in terminal steps that request no client input.
   */
  ghost predicate WellFormed(w: World) {
    && (forall j :: j in w.journeys ==> ':' !in j && "" !in w.journeys[j].steps)
    && (forall j, s, c :: w.sub(j, s, c).Some? ==> ':' !in w.sub(j, s, c).value.callee)
    && (forall j, s, c :: j in w.journeys && s in w.journeys[j].steps ==>
          ReturnsValue(w.journeys[j].steps[s].kind) ==> !w.exec(j, s, c).Ask?)
  }

  predicate ReturnsValue(k: Kind) {
    k.Success? || k.Failure? || k.End?
  }

  predicate Terminal(k: Kind) {
    ReturnsValue(k) || k.Silent?
  }

  /** The value a terminal step leaves for its caller. */
  function ReturnValue(k: Kind, result: Option<Value>): Option<Value> {
    match k
    case Success => Some(Bool(true))
    case Failure => Some(Bool(false))
    case End => result
    case _ => None
  }

  /** Lookup of the step and the loop guard, both before the step runs. */
  function Begin(w: World, f: Frame, st: Store): (r: Result2<Step, Fault>) {
    if f.journey !in w.journeys || f.step !in w.journeys[f.journey].steps then Wrong(StepNotFound)
    else if Throttled(w, f.step, st) then Wrong(InfiniteLoop)
    else Right(w.journeys[f.journey].steps[f.step])
  }

  datatype Result2<+T, +E> = Right(value: T) | Wrong(error: E)

  predicate Throttled(w: World, s: Id, st: Store) {
    s in st.ticks && st.ticks[s].count >= MAX_TICK_COUNT
    && w.clock(st.now) - st.ticks[s].last < MIN_TICK_WINDOW_MS
  }

  /** After a step ran: its context, one more tick, and two clock readings consumed. */
  function Tally(w: World, s: Id, st: Store, ctx: Ctx): Store {
    var count := if s in st.ticks then st.ticks[s].count else 0;
    Store(ctx, st.ticks[s := Tick(count + 1, w.clock(st.now + 1))], st.now + 2)
  }

  function ClearRequestsForStep(ctx: Ctx, s: Id): Ctx {
    ctx.(requests := Without(ctx.requests, s))
  }

  function Without(rs: seq<Request>, s: Id): seq<Request> {
    if rs == [] then []
    else if rs[0].step == "" || rs[0].step == s then Without(rs[1..], s)
    else [rs[0]] + Without(rs[1..], s)
  }

  function ResetClientInputs(ctx: Ctx): Ctx {
    ctx.(requests := [], provided := [])
  }

  // ----- SubJourney -----

  predicate ValidSlot(name: string) {
    name == "closedCtx" || name == "encCtx"
  }

  function GetSlot(ctx: Ctx, name: string): PropsSlot {
    if name == "closedCtx" then ctx.closedProps else ctx.encProps
  }

  function SetSlot(ctx: Ctx, name: string, slot: PropsSlot): Ctx {
    if name == "closedCtx" then ctx.(closedProps := slot) else ctx.(encProps := slot)
  }

  function PushSlot(slot: PropsSlot, props: Value): PropsSlot {
    PropsSlot(Some(props), slot.stack + [PropsFrame(props, slot.props)])
  }

  function PopSlot(slot: PropsSlot): PropsSlot {
    if slot.stack == [] then slot
    else PropsSlot(slot.stack[|slot.stack| - 1].previous, slot.stack[..|slot.stack| - 1])
  }

  function PushProps(ctx: Ctx, name: string, props: Value): Ctx {
    SetSlot(ctx, name, PushSlot(GetSlot(ctx, name), props))
  }

  function RestoreProps(ctx: Ctx, name: string): Ctx {
    SetSlot(ctx, name, PopSlot(GetSlot(ctx, name)))
  }

  function AddTag(ctx: Ctx, tag: string): Ctx {
    if tag in ctx.tags then ctx else ctx.(tags := ctx.tags + [tag])
  }

  datatype SubMove = SubFault | Goto(outcome: string, ctx: Ctx) | Call(callee: Id, ctx: Ctx)

  /** SubJourney.Execute: `ret` is the value found under the step's own id in closedCtx. */
  function SubStep(w: World, f: Frame, slot: string, ret: Option<Value>, ctx: Ctx): SubMove {
    match w.sub(f.journey, f.step, ctx)
    case None => SubFault
    case Some(cfg) =>
      if ret.Some? then
        if !ValidSlot(slot) then SubFault
        else
          var restored := RestoreProps(ctx, slot);
          if ret.value == Bool(true)
          then Goto("true", if cfg.setTag then AddTag(restored, cfg.tagName) else restored)
          else Goto("false", restored)
      else if cfg.passTag && cfg.tagName in ctx.tags then Goto("true", ctx)
      else if !ValidSlot(slot) || cfg.props.None? then SubFault
      else Call(cfg.callee, PushProps(ctx, slot, cfg.props.value))
  }
}

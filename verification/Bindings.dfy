/**
 * What a SubJourney step does to the contexts, field by field: the props its callee
 * sees, what is left when the callee has returned, tags and inputs.
 */
module Bindings {
  import opened Basics
  import opened Tracking
  import opened Journey
  import opened Engine
  import opened Recursive
  import opened Outcomes

  /** The props slot of one of the two contexts, read off the contexts themselves. */
  predicate SlotIs(ctx: Ctx, name: string, slot: PropsSlot) {
    (name == "closedCtx" && ctx.closedProps == slot) || (name == "encCtx" && ctx.encProps == slot)
  }

  /** Nothing but the named slot has changed. */
  predicate OnlySlot(before: Ctx, after: Ctx, name: string) {
    && after.data == before.data && after.requests == before.requests && after.provided == before.provided
    && (name != "closedCtx" ==> after.closedProps == before.closedProps)
    && (name != "encCtx" ==> after.encProps == before.encProps)
  }

  /** In slot `name`, `props` are bound now, and the stack has one more frame with them and the binding of before. */
  ghost predicate BindsProps(before: Ctx, after: Ctx, name: string, props: Value) {
    && OnlySlot(before, after, name) && after.tags == before.tags
    && exists slot: PropsSlot :: SlotIs(before, name, slot) &&
         SlotIs(after, name, PropsSlot(Some(props), slot.stack + [PropsFrame(props, slot.props)]))
  }

  /** In slot `name` the last frame is gone and its earlier binding is back; an empty stack stays as it is. */
  ghost predicate UnbindsProps(before: Ctx, after: Ctx, name: string) {
    && OnlySlot(before, after, name)
    && exists slot: PropsSlot :: SlotIs(before, name, slot) &&
         SlotIs(after, name, if slot.stack == [] then slot
                             else PropsSlot(slot.stack[|slot.stack| - 1].previous, slot.stack[..|slot.stack| - 1]))
  }

  /** A call binds the configured props for its callee, in the configured context. */
  lemma CallBinds(w: World, f: Frame, name: string, ctx: Ctx)
    requires SubStep(w, f, name, None, ctx).Call?
    ensures var move := SubStep(w, f, name, None, ctx);
            var cfg := w.sub(f.journey, f.step, ctx);
            cfg.Some? && move.callee == cfg.value.callee && cfg.value.props.Some? && BindsProps(ctx, move.ctx, name, cfg.value.props.value)
            && !(cfg.value.passTag && cfg.value.tagName in ctx.tags)
  {
    var slot := if name == "closedCtx" then ctx.closedProps else ctx.encProps;
    assert SlotIs(ctx, name, slot);
  }

  /**
   * A step that has been given a value takes its binding off, goes to "true" exactly
   * for the value true, and only then sets its tag, once.
   */
  lemma ReturnUnbinds(w: World, f: Frame, name: string, v: Value, ctx: Ctx)
    ensures var move := SubStep(w, f, name, Some(v), ctx);
            var cfg := w.sub(f.journey, f.step, ctx);
            && !move.Call?
            && (move.Goto? <==> cfg.Some? && name in {"closedCtx", "encCtx"})
            && (move.Goto? ==>
                  && UnbindsProps(ctx, move.ctx, name)
                  && move.outcome == (if v == Bool(true) then "true" else "false")
                  && move.ctx.tags == if v == Bool(true) && cfg.value.setTag && cfg.value.tagName !in ctx.tags
                                      then ctx.tags + [cfg.value.tagName] else ctx.tags)
  {
    var slot := if name == "closedCtx" then ctx.closedProps else ctx.encProps;
    if name in {"closedCtx", "encCtx"} { assert SlotIs(ctx, name, slot); }
  }

  /**
   * A step that nothing was returned to is skipped by its tag, with its contexts as
   * they were; otherwise it calls, or fails for want of a configuration, a context or
   * an object of props.
   */
  lemma FreshStepMoves(w: World, f: Frame, name: string, ctx: Ctx)
    ensures var cfg := w.sub(f.journey, f.step, ctx);
            match SubStep(w, f, name, None, ctx)
            case Goto(o, c) => cfg.Some? && cfg.value.passTag && cfg.value.tagName in ctx.tags && o == "true" && c == ctx
            case Call(_, _) => cfg.Some? && name in {"closedCtx", "encCtx"} && cfg.value.props.Some?
            case SubFault => cfg.Some? ==> name !in {"closedCtx", "encCtx"} || cfg.value.props.None?
  {
  }

  /** Both of these together, for a step with or without a value. */
  lemma BothWays(w: World, f: Frame, name: string, ret: Option<Value>, ctx: Ctx)
    ensures match (ret, SubStep(w, f, name, ret, ctx))
            case (None, Call(_, c)) => w.sub(f.journey, f.step, ctx).value.props.Some? && BindsProps(ctx, c, name, w.sub(f.journey, f.step, ctx).value.props.value)
            case (Some(v), Goto(o, c)) => UnbindsProps(ctx, c, name) && o == (if v == Bool(true) then "true" else "false")
            case (Some(_), Call(_, _)) => false
            case _ => true
  {
    hide SubStep, BindsProps, UnbindsProps;
    if ret.Some? {
      ReturnUnbinds(w, f, name, ret.value, ctx);
    } else if SubStep(w, f, name, None, ctx).Call? {
      CallBinds(w, f, name, ctx);
    }
  }

  /** After these two turns `callee` is about to run its first step, over the frame that called it. */
  ghost predicate CalleeStarts(w: World, m: Machine, f: Frame, callee: Id, n: Machine) {
    && callee in w.journeys && n.control == Running(Frame(callee, w.journeys[callee].start))
    && n.stack == m.stack + [Join(f)] && n.inbox == m.inbox && n.store.ctx.requests == [] && n.store.ctx.provided == []
  }

  /**
   * The loop from the dispatch of a calling step to the first dispatch of its callee:
   * the callee starts with the props of its call bound, and without client inputs.
   */
  lemma CalleeSeesProps(w: World, m: Machine, f: Frame)
    requires WellFormed(w) && m.control == Running(f) && IsSub(w, f) && f.step !in m.inbox
    requires var name := w.journeys[f.journey].steps[f.step].kind.propsContext; SubStep(w, f, name, None, m.store.ctx).Call?
    requires Advance(w, m).Live? && Advance(w, Advance(w, m).m).Live?
    ensures var name := w.journeys[f.journey].steps[f.step].kind.propsContext;
            var cfg := w.sub(f.journey, f.step, m.store.ctx).value;
            var n := Advance(w, Advance(w, m).m).m;
            && cfg.props.Some? && CalleeStarts(w, m, f, cfg.callee, n)
            && (name == "closedCtx" ==> n.store.ctx.closedProps.props == cfg.props && n.store.ctx.encProps == m.store.ctx.encProps)
            && (name == "encCtx" ==> n.store.ctx.encProps.props == cfg.props && n.store.ctx.closedProps == m.store.ctx.closedProps)
  {
    var name := w.journeys[f.journey].steps[f.step].kind.propsContext;
    CallBinds(w, f, name, m.store.ctx);
    hide SubStep, Throttled;
    var move := SubStep(w, f, name, None, m.store.ctx);
    var called := Advance(w, m).m;
    assert called.stack == m.stack + [Join(f)] + [Join(Frame(move.callee, ""))];
    CalleeIsEntered(w, f, m.stack, move.callee, called.store);
  }

  /** The recursive run of the callee starts in the same contexts. */
  lemma CalleeRunsWithProps(w: World, d: Dispatch, callee: Id, ctx: Ctx)
    requires IsSub(w, d.at) && Calls(w, d, callee, ctx)
    ensures var name := w.journeys[d.at.journey].steps[d.at.step].kind.propsContext;
            var cfg := w.sub(d.at.journey, d.at.step, d.store.ctx).value;
            var c := CalleeOf(w, d, callee, ctx).store.ctx;
            && cfg.props.Some? && callee == cfg.callee && c.requests == [] && c.provided == []
            && (name == "closedCtx" ==> c.closedProps.props == cfg.props) && (name == "encCtx" ==> c.encProps.props == cfg.props)
  {
    CallBinds(w, d.at, w.journeys[d.at.journey].steps[d.at.step].kind.propsContext, d.store.ctx);
    hide SubStep, Throttled;
  }
}

/**
 * What every turn of the loop keeps about pending calls: the shape of the
 * tracking stack, the entries waiting in closedCtx, and the props stacks.
 */
module Calls {
  import opened Basics
  import opened Tracking
  import opened Journey
  import opened Engine
  import opened Recursive

  /** Frame `f` can have called journey `callee`. */
  ghost predicate MayCall(w: World, f: Frame, callee: Id) {
    IsSub(w, f) && exists c: Ctx :: w.sub(f.journey, f.step, c).Some? && w.sub(f.journey, f.step, c).value.callee == callee
  }

  /** Every frame below the top names a SubJourney step whose callee is the frame above it. */
  ghost predicate Chained(w: World, stack: seq<string>) {
    && (forall t :: t in stack ==> Join(Split(t)) == t && ':' !in Split(t).journey)
    && (forall i :: 0 <= i < |stack| - 1 ==> MayCall(w, Split(stack[i]), Split(stack[i + 1]).journey))
  }

  /** A value waits in closedCtx only for the frame that is about to run, and that frame is a SubJourney step. */
  ghost predicate Awaited(w: World, inbox: map<Id, Value>, f: Frame) {
    inbox == map[] || (inbox.Keys == {f.step} && IsSub(w, f))
  }

  ghost predicate Sound(w: World, m: Machine) {
    match m.control
    case Running(f) => Loadable(w, f.journey) && Chained(w, m.stack + [Join(f)]) && Awaited(w, m.inbox, f)
    case Popping =>
      && Chained(w, m.stack)
      && (if m.stack == [] then m.inbox == map[] else Awaited(w, m.inbox, Split(m.stack[|m.stack| - 1])))
  }

  ghost predicate SoundState(w: World, s: State) {
    match s
    case Live(m) => Sound(w, m)
    case Paused(stack, inbox, _) => stack != [] && Chained(w, stack) && inbox == map[]
    case _ => true
  }

  lemma ChainedPrefix(w: World, stack: seq<string>, n: nat)
    requires Chained(w, stack) && n <= |stack|
    ensures Chained(w, stack[..n])
  {
  }

  /** Replacing the top frame keeps the chain as long as its journey stays the same. */
  lemma ChainedRetop(w: World, base: seq<string>, f: Frame, g: Frame)
    requires Chained(w, base + [Join(f)]) && ':' !in f.journey && f.journey == g.journey
    ensures Chained(w, base + [Join(g)])
  {
    SplitJoin(f);
    SplitJoin(g);
    var before, after := base + [Join(f)], base + [Join(g)];
    forall i | 0 <= i < |after| - 1
      ensures MayCall(w, Split(after[i]), Split(after[i + 1]).journey)
    {
      assert MayCall(w, Split(before[i]), Split(before[i + 1]).journey);
    }
    assert forall t :: t in after ==> t in before || t == Join(g);
  }

  lemma ChainedPush(w: World, base: seq<string>, f: Frame, callee: Id)
    requires Chained(w, base + [Join(f)]) && ':' !in f.journey && ':' !in callee && MayCall(w, f, callee)
    ensures Chained(w, base + [Join(f), Join(Frame(callee, ""))])
  {
    var g := Frame(callee, "");
    SplitJoin(f);
    SplitJoin(g);
    var before, after := base + [Join(f)], base + [Join(f), Join(g)];
    forall i | 0 <= i < |after| - 1
      ensures MayCall(w, Split(after[i]), Split(after[i + 1]).journey)
    {
      if i < |base| { assert MayCall(w, Split(before[i]), Split(before[i + 1]).journey); }
    }
    assert forall t :: t in after ==> t in before || t == Join(g);
  }

  lemma PopKeepsSound(w: World, m: Machine)
    requires WellFormed(w) && Sound(w, m) && m.control.Popping?
    ensures SoundState(w, Advance(w, m))
  {
    if m.stack != [] {
      var n := |m.stack| - 1;
      var f := Split(m.stack[n]);
      if Loadable(w, f.journey) {
        assert m.stack == m.stack[..n] + [Join(f)];
        ChainedRetop(w, m.stack[..n], f, Entry(w, f));
      }
    }
  }

  lemma FollowKeepsSound(w: World, m: Machine, f: Frame, step: Step, outcome: string)
    requires WellFormed(w) && Loadable(w, f.journey) && Chained(w, m.stack + [Join(f)]) && m.inbox == map[]
    ensures SoundState(w, Follow(m, f, step, outcome))
  {
    if outcome in step.outcomes {
      ChainedRetop(w, m.stack, f, Frame(f.journey, step.outcomes[outcome]));
    }
  }

  /** While a step runs, the frame below it waits at a SubJourney step. */
  lemma CallerWaits(w: World, stack: seq<string>, f: Frame)
    requires Chained(w, stack + [Join(f)])
    ensures Chained(w, stack)
    ensures stack != [] ==> IsSub(w, Split(stack[|stack| - 1]))
  {
    var whole := stack + [Join(f)];
    ChainedPrefix(w, whole, |stack|);
    assert whole[..|stack|] == stack;
    if stack != [] {
      assert MayCall(w, Split(whole[|stack| - 1]), Split(whole[|stack|]).journey);
    }
  }

  lemma SubKeepsSound(w: World, m: Machine, f: Frame, step: Step)
    requires WellFormed(w) && Sound(w, m) && m.control == Running(f)
    requires Begin(w, f, m.store) == Right(step) && step.kind.SubJourney?
    ensures SoundState(w, DispatchSub(w, m, f, step))
  {
    var ret := if f.step in m.inbox then Some(m.inbox[f.step]) else None;
    var move := SubStep(w, f, step.kind.propsContext, ret, m.store.ctx);
    assert m.inbox - {f.step} == map[];
    if move.Call? {
      assert MayCall(w, f, move.callee);
      assert m.inbox == map[];
      hide Chained, MayCall, SubStep;
      ChainedPush(w, m.stack, f, move.callee);
    } else if move.Goto? {
      hide Chained, MayCall, SubStep;
      FollowKeepsSound(w, m.(inbox := map[], store := Tally(w, f.step, m.store, move.ctx)), f, step, move.outcome);
    }
  }

  lemma DispatchKeepsSound(w: World, m: Machine)
    requires WellFormed(w) && Sound(w, m) && m.control.Running?
    ensures SoundState(w, Advance(w, m))
  {
    hide Chained, MayCall, SubStep, DispatchSub;
    var f := m.control.at;
    if Begin(w, f, m.store).Right? {
      var step := Begin(w, f, m.store).value;
      if step.kind.SubJourney? {
        SubKeepsSound(w, m, f, step);
      } else {
        assert m.inbox == map[];
        CallerWaits(w, m.stack, f);
        match w.exec(f.journey, f.step, m.store.ctx) {
          case Raise =>
          case Ask(_) =>
          case Done(ctx, outcome, _) =>
            if !Terminal(step.kind) && outcome != "" {
              FollowKeepsSound(w, m.(store := Tally(w, f.step, m.store, ctx)), f, step, outcome);
            }
        }
      }
    }
  }

  /** The shape of pending calls is an invariant of every run, up to and including a pause. */
  lemma {:induction false} RunKeepsSound(w: World, s: State, n: nat)
    requires WellFormed(w) && SoundState(w, s)
    ensures SoundState(w, Iterate(w, s, n))
    decreases n
  {
    if n > 0 && s.Live? {
      if s.m.control.Popping? { PopKeepsSound(w, s.m); } else { DispatchKeepsSound(w, s.m); }
      RunKeepsSound(w, Advance(w, s.m), n - 1);
    }
  }

  function SplitAll(stack: seq<string>): (r: seq<Frame>)
    ensures |r| == |stack| && forall i :: 0 <= i < |r| ==> r[i] == Split(stack[i])
  {
    seq(|stack|, i requires 0 <= i < |stack| => Split(stack[i]))
  }

  /** Some SubJourney step can call the journey. */
  ghost predicate Callable(w: World, j: Id) {
    exists f :: MayCall(w, f, j)
  }

  /** Every frame above the lowest is of a journey that can be called. */
  ghost predicate Called(w: World, frames: seq<Frame>) {
    forall i :: 0 < i < |frames| ==> Callable(w, frames[i].journey)
  }

  /**
   * A pause can always be resumed: whatever stack it saved is the stack of a run
   * to which the recursive meaning applies, and the resumed run starts sound.
   */
  lemma PauseIsResumable(w: World, s: State, n: nat, st: Store)
    requires WellFormed(w) && SoundState(w, s) && Iterate(w, s, n).Paused?
    ensures var frames := SplitAll(Iterate(w, s, n).stack);
            && Resumable(w, frames, None) && Called(w, frames)
            && JoinAll(frames) == Iterate(w, s, n).stack
            && SoundState(w, Resume(frames, None, st))
  {
    RunKeepsSound(w, s, n);
    var stack := Iterate(w, s, n).stack;
    var frames := SplitAll(stack);
    hide Iterate, WellFormed;
    forall i | 0 <= i < |frames|
      ensures ':' !in frames[i].journey && Join(frames[i]) == stack[i]
      ensures i < |frames| - 1 ==> IsSub(w, frames[i])
    {
      assert stack[i] in stack;
      if i < |frames| - 1 { assert MayCall(w, Split(stack[i]), Split(stack[i + 1]).journey); }
    }
    forall i | 0 < i < |frames| ensures Callable(w, frames[i].journey) {
      var below := i - 1;
      assert MayCall(w, Split(stack[below]), Split(stack[below + 1]).journey);
    }
  }

  // ----- Accounting of the props stacks -----

  /** Ordinary steps leave both props slots alone. */
  ghost predicate SlotsPrivate(w: World) {
    forall j, s, c :: match w.exec(j, s, c)
                      case Raise => true
                      case Ask(d) => d.closedProps == c.closedProps && d.encProps == c.encProps
                      case Done(d, _, _) => d.closedProps == c.closedProps && d.encProps == c.encProps
  }

  predicate UsesSlot(w: World, f: Frame, name: string) {
    IsSub(w, f) && w.journeys[f.journey].steps[f.step].kind.propsContext == name
  }

  /** How many of these frames keep their saved props in slot `name`. */
  function CountSlot(w: World, stack: seq<string>, name: string): nat {
    if stack == [] then 0
    else CountSlot(w, stack[..|stack| - 1], name) + (if UsesSlot(w, Split(stack[|stack| - 1]), name) then 1 else 0)
  }

  /** The frames whose call is active: all that wait, and the one whose callee has just returned a value. */
  function ActiveFrames(m: Machine): seq<string> {
    match m.control
    case Running(f) => if m.inbox == map[] then m.stack else m.stack + [Join(f)]
    case Popping => if m.stack == [] || m.inbox != map[] then m.stack else m.stack[..|m.stack| - 1]
  }

  /** Entries of a props stack that no active call owns. */
  function Excess(w: World, m: Machine, name: string): int {
    |GetSlot(m.store.ctx, name).stack| - CountSlot(w, ActiveFrames(m), name)
  }

  /** The same for any state that has a store; at a pause the callers are the frames below the one that asked. */
  function ExcessOf(w: World, s: State, name: string): int
    requires !s.Faulted?
  {
    match s
    case Live(m) => Excess(w, m, name)
    case Paused(stack, inbox, st) => Excess(w, Machine(Popping, stack, inbox, st), name)
    case Finished(_, st) => |GetSlot(st.ctx, name).stack|
  }

  /** This turn ends a called journey without leaving a value for its caller, which will therefore call again. */
  predicate SilentEnd(w: World, m: Machine) {
    && m.control.Running? && m.stack != []
    && Begin(w, m.control.at, m.store).Right?
    && var f := m.control.at;
       var step := Begin(w, f, m.store).value;
       && !step.kind.SubJourney?
       && var e := w.exec(f.journey, f.step, m.store.ctx);
          && e.Done?
          && (if Terminal(step.kind) then ReturnValue(step.kind, e.result).None? else e.outcome == "")
  }

  lemma CountSlotPush(w: World, stack: seq<string>, t: string, name: string)
    ensures CountSlot(w, stack + [t], name) == CountSlot(w, stack, name) + (if UsesSlot(w, Split(t), name) then 1 else 0)
  {
    assert (stack + [t])[..|stack|] == stack;
  }

  lemma NobodyCounts(w: World, name: string)
    ensures CountSlot(w, [], name) == 0
  {
  }

  lemma PopConservesProps(w: World, m: Machine, name: string)
    requires WellFormed(w) && Sound(w, m) && m.control.Popping? && !Advance(w, m).Faulted?
    ensures ExcessOf(w, Advance(w, m), name) == Excess(w, m, name)
  {
    if m.stack == [] { return; }
    var f := Split(m.stack[|m.stack| - 1]);
    assert m.inbox != map[] ==> IsSub(w, f) && f.step != "" && Join(f) == m.stack[|m.stack| - 1];
    hide Chained, CountSlot, UsesSlot;
    assert m.stack[..|m.stack| - 1] + [m.stack[|m.stack| - 1]] == m.stack;
  }

  function Depth(ctx: Ctx, name: string): nat {
    |GetSlot(ctx, name).stack|
  }

  /** A call pushes one entry on its own slot; coming back pops one from it, if there is one. */
  lemma SubStepDepth(w: World, f: Frame, slot: string, ret: Option<Value>, ctx: Ctx, name: string)
    requires ValidSlot(name)
    ensures var move := SubStep(w, f, slot, ret, ctx);
            && (move.Call? ==> Depth(move.ctx, name) == Depth(ctx, name) + (if slot == name then 1 else 0))
            && (move.Goto? && (slot != name || ret.None?) ==> Depth(move.ctx, name) == Depth(ctx, name))
            && (move.Goto? && slot == name && ret.Some? && Depth(ctx, name) > 0 ==> Depth(move.ctx, name) == Depth(ctx, name) - 1)
  {
  }

  lemma CallConservesProps(w: World, m: Machine, f: Frame, callee: Id, st: Store, name: string)
    requires ':' !in f.journey && m.control == Running(f) && m.inbox == map[]
    requires Depth(st.ctx, name) == Depth(m.store.ctx, name) + (if UsesSlot(w, f, name) then 1 else 0)
    ensures Excess(w, Calling(f, m.stack, callee, st), name) == Excess(w, m, name)
  {
    SplitJoin(f);
    hide UsesSlot, Join, Split, CountSlot;
    CountSlotPush(w, m.stack, Join(f), name);
    var stack := Calling(f, m.stack, callee, st).stack;
    assert stack[..|stack| - 1] == m.stack + [Join(f)];
  }

  lemma ReturnConservesProps(w: World, m: Machine, next: Machine, f: Frame, name: string)
    requires ':' !in f.journey && m.control == Running(f)
    requires next.control.Running? && next.stack == m.stack && next.inbox == map[]
    requires Depth(next.store.ctx, name) ==
             Depth(m.store.ctx, name) - (if UsesSlot(w, f, name) && m.inbox != map[] then 1 else 0)
    ensures Excess(w, next, name) == Excess(w, m, name)
  {
    SplitJoin(f);
    hide UsesSlot, Join, Split, CountSlot;
    CountSlotPush(w, m.stack, Join(f), name);
  }

  lemma SubConservesProps(w: World, m: Machine, f: Frame, step: Step, name: string)
    requires ':' !in f.journey && Awaited(w, m.inbox, f) && m.control == Running(f) && ValidSlot(name)
    requires Begin(w, f, m.store) == Right(step) && step.kind.SubJourney?
    requires Excess(w, m, name) >= 0 && !DispatchSub(w, m, f, step).Faulted?
    ensures DispatchSub(w, m, f, step).Live? && Excess(w, DispatchSub(w, m, f, step).m, name) == Excess(w, m, name)
  {
    assert UsesSlot(w, f, name) <==> step.kind.propsContext == name;
    assert UsesSlot(w, f, name) && m.inbox != map[] ==> Depth(m.store.ctx, name) > 0 by {
      SplitJoin(f);
      CountSlotPush(w, m.stack, Join(f), name);
    }
    var ret := if f.step in m.inbox then Some(m.inbox[f.step]) else None;
    var move := SubStep(w, f, step.kind.propsContext, ret, m.store.ctx);
    assert move.Call? ==> ret.None?;
    SubStepDepth(w, f, step.kind.propsContext, ret, m.store.ctx, name);
    assert m.inbox == map[] <==> ret.None?;
    assert m.inbox - {f.step} == map[];
    var next := DispatchSub(w, m, f, step).m;
    hide UsesSlot, Begin, Join, Split, CountSlot, IsSub, ValidSlot, SubStep, Excess;
    assert Depth(next.store.ctx, name) == Depth(move.ctx, name);
    if move.Call? {
      CallConservesProps(w, m, f, move.callee, next.store, name);
    } else {
      ReturnConservesProps(w, m, next, f, name);
    }
  }

  /** Ordinary steps leave the depth of both slots alone. */
  lemma StepKeepsDepth(w: World, m: Machine, name: string)
    requires SlotsPrivate(w) && m.inbox == map[]
    requires m.control.Running? && !IsSub(w, m.control.at) && !Advance(w, m).Faulted?
    ensures Advance(w, m).Live? ==> Depth(Advance(w, m).m.store.ctx, name) == Depth(m.store.ctx, name)
    ensures !Advance(w, m).Live? ==> Depth(Advance(w, m).store.ctx, name) == Depth(m.store.ctx, name)
  {
    hide Join, Split, DispatchSub, Throttled, ReturnValue;
    var f := m.control.at;
    var e := w.exec(f.journey, f.step, m.store.ctx);
    assert e.ctx.closedProps == m.store.ctx.closedProps && e.ctx.encProps == m.store.ctx.encProps;
  }

  lemma AskConservesProps(w: World, m: Machine, name: string)
    requires SlotsPrivate(w) && m.inbox == map[]
    requires m.control.Running? && !IsSub(w, m.control.at) && !Advance(w, m).Faulted?
    requires w.exec(m.control.at.journey, m.control.at.step, m.store.ctx).Ask?
    ensures ExcessOf(w, Advance(w, m), name) == Excess(w, m, name)
            + (if SilentEnd(w, m) && UsesSlot(w, Split(m.stack[|m.stack| - 1]), name) then 1 else 0)
  {
    StepKeepsDepth(w, m, name);
    hide UsesSlot, Join, Split, CountSlot, DispatchSub, Throttled, GetSlot, SlotsPrivate;
    assert (m.stack + [Join(m.control.at)])[..|m.stack|] == m.stack;
  }

  lemma LonelyConservesProps(w: World, m: Machine, name: string)
    requires SlotsPrivate(w) && m.inbox == map[]
    requires m.control.Running? && !IsSub(w, m.control.at) && !Advance(w, m).Faulted?
    requires !w.exec(m.control.at.journey, m.control.at.step, m.store.ctx).Ask? && m.stack == []
    ensures ExcessOf(w, Advance(w, m), name) == Excess(w, m, name) && !SilentEnd(w, m)
  {
    StepKeepsDepth(w, m, name);
    NobodyCounts(w, name);
    hide UsesSlot, Join, Split, CountSlot, DispatchSub, Throttled, GetSlot, SlotsPrivate;
  }

  /** Who is active after a step of a called journey: nobody new, and after a silent end its caller no longer. */
  lemma CalledFrames(w: World, m: Machine)
    requires m.inbox == map[]
    requires m.control.Running? && !IsSub(w, m.control.at) && !Advance(w, m).Faulted?
    requires !w.exec(m.control.at.journey, m.control.at.step, m.store.ctx).Ask? && m.stack != []
    ensures Advance(w, m).Live?
    ensures ActiveFrames(Advance(w, m).m) == if SilentEnd(w, m) then m.stack[..|m.stack| - 1] else m.stack
  {
    hide Join, Split, DispatchSub, Throttled, Tally, ResetClientInputs, ClearRequestsForStep;
    var next := Advance(w, m).m;
    assert next.control.Popping? && !SilentEnd(w, m) ==> Split(m.stack[|m.stack| - 1]).step in next.inbox;
  }

  lemma CalledConservesProps(w: World, m: Machine, name: string)
    requires SlotsPrivate(w) && m.inbox == map[]
    requires m.control.Running? && !IsSub(w, m.control.at) && !Advance(w, m).Faulted?
    requires !w.exec(m.control.at.journey, m.control.at.step, m.store.ctx).Ask? && m.stack != []
    ensures ExcessOf(w, Advance(w, m), name) == Excess(w, m, name)
            + (if SilentEnd(w, m) && UsesSlot(w, Split(m.stack[|m.stack| - 1]), name) then 1 else 0)
  {
    StepKeepsDepth(w, m, name);
    CalledFrames(w, m);
    hide UsesSlot, Split, CountSlot, GetSlot, SlotsPrivate, Advance, SilentEnd;
    var n := |m.stack| - 1;
    assert ActiveFrames(m) == m.stack;
    CountSlotPush(w, m.stack[..n], m.stack[n], name);
    assert m.stack[..n] + [m.stack[n]] == m.stack;
  }

  lemma StepConservesProps(w: World, m: Machine, name: string)
    requires SlotsPrivate(w) && m.inbox == map[]
    requires m.control.Running? && !IsSub(w, m.control.at) && !Advance(w, m).Faulted?
    ensures ExcessOf(w, Advance(w, m), name) == Excess(w, m, name)
            + (if SilentEnd(w, m) && UsesSlot(w, Split(m.stack[|m.stack| - 1]), name) then 1 else 0)
  {
    hide UsesSlot, CountSlot, Advance, SlotsPrivate, Excess, ExcessOf, SilentEnd;
    if w.exec(m.control.at.journey, m.control.at.step, m.store.ctx).Ask? {
      AskConservesProps(w, m, name);
    } else if m.stack == [] {
      LonelyConservesProps(w, m, name);
    } else {
      CalledConservesProps(w, m, name);
    }
  }

  /**
   * Conservation of saved props, turn by turn: only a silent end changes the excess
   * of a slot, by one entry in the slot of the frame that waited for it.
   */
  lemma TurnConservesProps(w: World, m: Machine, name: string)
    requires WellFormed(w) && SlotsPrivate(w) && Sound(w, m) && ValidSlot(name)
    requires Excess(w, m, name) >= 0
    requires !Advance(w, m).Faulted?
    ensures ExcessOf(w, Advance(w, m), name) == Excess(w, m, name)
            + (if SilentEnd(w, m) && UsesSlot(w, Split(m.stack[|m.stack| - 1]), name) then 1 else 0)
  {
    assert m.control.Running? ==> ':' !in m.control.at.journey;
    assert m.control.Running? && !IsSub(w, m.control.at) ==> m.inbox == map[];
    hide Chained, WellFormed, MayCall, UsesSlot, SubStep, DispatchSub, Excess;
    if m.control.Popping? {
      PopConservesProps(w, m, name);
    } else if IsSub(w, m.control.at) {
      SubConservesProps(w, m, m.control.at, Begin(w, m.control.at, m.store).value, name);
    } else {
      StepConservesProps(w, m, name);
    }
  }

  /** The number of silent ends, among the first `n` turns, whose waiting frame uses slot `name`. */
  function SilentEnds(w: World, s: State, n: nat, name: string): nat
    decreases n
  {
    if n == 0 || !s.Live? then 0
    else (if SilentEnd(w, s.m) && UsesSlot(w, Split(s.m.stack[|s.m.stack| - 1]), name) then 1 else 0)
         + SilentEnds(w, Advance(w, s.m), n - 1, name)
  }

  /**
   * Over whole runs, up to and including a pause or the end: each props stack holds
   * exactly one entry per active call that uses it if and only if no called journey
   * has ended silently in that slot.
   */
  lemma {:induction false} RunConservesProps(w: World, s: State, n: nat, name: string)
    requires WellFormed(w) && SlotsPrivate(w) && SoundState(w, s) && ValidSlot(name)
    requires !s.Faulted? && ExcessOf(w, s, name) >= 0
    requires !Iterate(w, s, n).Faulted?
    ensures ExcessOf(w, Iterate(w, s, n), name) == ExcessOf(w, s, name) + SilentEnds(w, s, n, name)
    decreases n
  {
    hide Advance, Excess, Sound, WellFormed, SlotsPrivate, SilentEnd, UsesSlot;
    if n > 0 && s.Live? {
      var next := Advance(w, s.m);
      RunKeepsSound(w, s, 1);
      assert Iterate(w, s, 1) == next;
      TurnConservesProps(w, s.m, name);
      RunConservesProps(w, next, n - 1, name);
    }
  }

  // ----- Props are restored on return, at any nesting depth -----

  predicate SameSlots(a: Ctx, b: Ctx) {
    a.closedProps == b.closedProps && a.encProps == b.encProps
  }

  /** No step of a journey that can be called ends it without a return value; other journeys end as they like. */
  ghost predicate Quiet(w: World) {
    forall j, s, c :: j in w.journeys && s in w.journeys[j].steps && Callable(w, j) && w.exec(j, s, c).Done? ==>
      match w.journeys[j].steps[s].kind
      case Silent => false
      case End => w.exec(j, s, c).result.Some?
      case Plain => w.exec(j, s, c).outcome != ""
      case _ => true
  }

  /** The slots a frame must leave behind when its journey ends: those it found, minus the entry of a call coming back. */
  function Settled(w: World, f: Frame, ret: Option<Value>, ctx: Ctx): Ctx
    requires ret.Some? ==> IsSub(w, f)
  {
    if ret.Some? then RestoreProps(ctx, w.journeys[f.journey].steps[f.step].kind.propsContext) else ctx
  }

  lemma CalleeIsCallable(w: World, f: Frame, ctx: Ctx)
    requires IsSub(w, f) && SubStep(w, f, w.journeys[f.journey].steps[f.step].kind.propsContext, None, ctx).Call?
    ensures Callable(w, SubStep(w, f, w.journeys[f.journey].steps[f.step].kind.propsContext, None, ctx).callee)
  {
    assert MayCall(w, f, w.sub(f.journey, f.step, ctx).value.callee);
  }

  lemma {:induction false} RunRestoresProps(w: World, fuel: nat, f: Frame, ret: Option<Value>, nested: bool, st: Store)
    requires Ready(w, f, ret) && SlotsPrivate(w) && Quiet(w) && (nested ==> Callable(w, f.journey))
    requires Run(w, fuel, f, ret, nested, st).Return?
    ensures nested ==> Run(w, fuel, f, ret, nested, st).value.Some?
    ensures SameSlots(Run(w, fuel, f, ret, nested, st).store.ctx, Settled(w, f, ret, st.ctx))
    decreases fuel, 0
  {
    var step := Begin(w, f, st).value;
    if step.kind.SubJourney? {
      var move := SubStep(w, f, step.kind.propsContext, ret, st.ctx);
      if move.Goto? {
        ProceedRestoresProps(w, fuel - 1, f, step, move.outcome, nested, Tally(w, f.step, st, move.ctx));
      } else {
        var st1 := Tally(w, f.step, st, ResetClientInputs(move.ctx));
        CalleeIsCallable(w, f, st.ctx);
        CallRestoresProps(w, fuel - 1, f, move.callee, nested, st1);
        var slot := GetSlot(st.ctx, step.kind.propsContext);
        assert forall p :: PopSlot(PushSlot(slot, p)) == slot;
      }
    } else {
      var Done(ctx, outcome, _) := w.exec(f.journey, f.step, st.ctx);
      if !Terminal(step.kind) && outcome != "" {
        ProceedRestoresProps(w, fuel - 1, f, step, outcome, nested, Tally(w, f.step, st, ctx));
      }
    }
  }

  lemma {:induction false} ProceedRestoresProps(w: World, fuel: nat, f: Frame, step: Step, outcome: string, nested: bool, st: Store)
    requires Ready(w, f, None) && SlotsPrivate(w) && Quiet(w) && (nested ==> Callable(w, f.journey))
    requires Proceed(w, fuel, f, step, outcome, nested, st).Return?
    ensures nested ==> Proceed(w, fuel, f, step, outcome, nested, st).value.Some?
    ensures SameSlots(Proceed(w, fuel, f, step, outcome, nested, st).store.ctx, st.ctx)
    decreases fuel, 1
  {
    hide Run, Quiet, SlotsPrivate, WellFormed, Callable;
    RunRestoresProps(w, fuel, Frame(f.journey, step.outcomes[outcome]), None, nested,
                     st.(ctx := ClearRequestsForStep(st.ctx, f.step)));
  }

  /**
   * From the moment a call has pushed its props to the end of the calling journey,
   * whatever is called in between, exactly the pushed entry is taken off again.
   */
  lemma {:induction false} CallRestoresProps(w: World, fuel: nat, f: Frame, callee: Id, nested: bool, st: Store)
    requires Ready(w, f, None) && IsSub(w, f) && SlotsPrivate(w) && Quiet(w)
    requires Callable(w, callee) && (nested ==> Callable(w, f.journey))
    requires Invoke(w, fuel, f, callee, nested, st).Return?
    ensures nested ==> Invoke(w, fuel, f, callee, nested, st).value.Some?
    ensures SameSlots(Invoke(w, fuel, f, callee, nested, st).store.ctx,
                      RestoreProps(st.ctx, w.journeys[f.journey].steps[f.step].kind.propsContext))
    decreases fuel, 1
  {
    assert f.step != "";
    hide Run, Quiet, SlotsPrivate, WellFormed, Callable;
    var entry := Frame(callee, w.journeys[callee].start);
    var answer := Run(w, fuel, entry, None, true, st);
    RunRestoresProps(w, fuel, entry, None, true, st);
    RunRestoresProps(w, fuel, f, answer.value, nested, answer.store);
  }

  /**
   * What the calling step sees: when its callee has returned, restoring the props
   * gives back both slots, binding and stack, as they were before the call.
   */
  lemma ReturnSeesPropsOfCall(w: World, fuel: nat, f: Frame, st: Store)
    requires Ready(w, f, None) && IsSub(w, f) && SlotsPrivate(w) && Quiet(w)
    requires var slot := w.journeys[f.journey].steps[f.step].kind.propsContext;
             var move := SubStep(w, f, slot, None, st.ctx);
             && move.Call? && Loadable(w, move.callee)
             && Run(w, fuel, Frame(move.callee, w.journeys[move.callee].start), None, true,
                    Tally(w, f.step, st, ResetClientInputs(move.ctx))).Return?
    ensures var slot := w.journeys[f.journey].steps[f.step].kind.propsContext;
            var move := SubStep(w, f, slot, None, st.ctx);
            var answer := Run(w, fuel, Frame(move.callee, w.journeys[move.callee].start), None, true,
                              Tally(w, f.step, st, ResetClientInputs(move.ctx)));
            var back := SubStep(w, f, slot, answer.value, answer.store.ctx);
            && answer.value.Some? && !back.Call?
            && (back.Goto? ==> SameSlots(back.ctx, st.ctx))
  {
    var slot := w.journeys[f.journey].steps[f.step].kind.propsContext;
    var move := SubStep(w, f, slot, None, st.ctx);
    var entry := Frame(move.callee, w.journeys[move.callee].start);
    hide Run, Quiet, SlotsPrivate, Callable, Begin, PushSlot, PopSlot;
    CalleeIsCallable(w, f, st.ctx);
    RunRestoresProps(w, fuel, entry, None, true, Tally(w, f.step, st, ResetClientInputs(move.ctx)));
    var answer := Run(w, fuel, entry, None, true, Tally(w, f.step, st, ResetClientInputs(move.ctx)));
    RestoreUndoesPush(st.ctx, slot, w.sub(f.journey, f.step, st.ctx).value.props.value, answer.store.ctx);
  }

  lemma RestoreUndoesPush(ctx: Ctx, name: string, props: Value, after: Ctx)
    requires SameSlots(after, PushProps(ctx, name, props))
    ensures SameSlots(RestoreProps(after, name), ctx)
  {
    var slot := GetSlot(ctx, name);
    assert PopSlot(PushSlot(slot, props)) == slot;
  }
}

/** Where the pending calls of a run come from: for every waiting frame, the turn that made its call. */
module CallHistory {
  import opened Basics
  import opened Tracking
  import opened Journey
  import opened Engine
  import opened Calls

  /** The tracking stack with the frame that is running, if any, on top. */
  function FullStack(m: Machine): seq<string> {
    match m.control
    case Running(f) => m.stack + [Join(f)]
    case Popping => m.stack
  }

  function StackOf(s: State): seq<string> {
    match s
    case Live(m) => FullStack(m)
    case Paused(stack, _, _) => stack
    case _ => []
  }

  /** In this state the frame `t`, above `below`, is dispatched and calls `callee`. */
  predicate MakesCall(w: World, s: State, below: seq<string>, t: string, callee: Id) {
    && s.Live? && s.m.control.Running? && Join(s.m.control.at) == t && s.m.stack == below
    && Advance(w, s.m).Live? && Advance(w, s.m).m.stack == below + [t, Join(Frame(callee, ""))]
  }

  /** One of the first `n` turns made the call. */
  ghost predicate WasCalled(w: World, s0: State, n: nat, below: seq<string>, t: string, callee: Id) {
    exists k: nat :: k < n && MakesCall(w, Iterate(w, s0, k), below, t, callee)
  }

  /** The frame at `i` was already waiting for the same journey when the run began. */
  predicate Inherited(first: seq<string>, stack: seq<string>, i: nat) {
    i + 1 < |first| && i + 1 < |stack| && first[..i + 1] == stack[..i + 1] && Split(first[i + 1]).journey == Split(stack[i + 1]).journey
  }

  ghost predicate Origin(w: World, s0: State, n: nat, stack: seq<string>, i: nat)
    requires i + 1 < |stack|
  {
    WasCalled(w, s0, n, stack[..i], stack[i], Split(stack[i + 1]).journey) || Inherited(StackOf(s0), stack, i)
  }

  ghost predicate Traced(w: World, s0: State, n: nat, stack: seq<string>) {
    forall i :: 0 <= i < |stack| - 1 ==> Origin(w, s0, n, stack, i)
  }

  /** A turn renames the top frame within its journey. */
  predicate Retops(before: seq<string>, after: seq<string>) {
    && before != [] && |after| == |before| && after[..|after| - 1] == before[..|before| - 1]
    && Split(after[|after| - 1]).journey == Split(before[|before| - 1]).journey
  }

  predicate Drops(before: seq<string>, after: seq<string>) {
    before != [] && after == before[..|before| - 1]
  }

  predicate PushesCall(w: World, m: Machine, before: seq<string>, after: seq<string>) {
    && before != [] && after != [] && after[..|after| - 1] == before
    && MakesCall(w, Live(m), before[..|before| - 1], before[|before| - 1], Split(after[|after| - 1]).journey)
  }

  lemma PopShapesStack(w: World, m: Machine)
    requires WellFormed(w) && Sound(w, m) && m.control.Popping? && !Advance(w, m).Faulted?
    ensures var before, after := FullStack(m), StackOf(Advance(w, m)); before == after || Retops(before, after)
  {
    if m.stack != [] {
      var n := |m.stack| - 1;
      var f := Split(m.stack[n]);
      assert m.stack[n] in m.stack;
      SplitJoin(Entry(w, f));
      assert FullStack(Advance(w, m).m) == m.stack[..n] + [Join(Entry(w, f))];
    }
  }

  lemma FollowShapesStack(w: World, m: Machine, f: Frame, step: Step, outcome: string)
    requires ':' !in f.journey && !Follow(m, f, step, outcome).Faulted?
    ensures Retops(m.stack + [Join(f)], StackOf(Follow(m, f, step, outcome)))
  {
    SplitJoin(f);
    SplitJoin(Frame(f.journey, step.outcomes[outcome]));
  }

  lemma SubShapesStack(w: World, m: Machine, f: Frame, step: Step)
    requires WellFormed(w) && Loadable(w, f.journey) && m.control == Running(f)
    requires Begin(w, f, m.store) == Right(step) && step.kind.SubJourney? && !Advance(w, m).Faulted?
    ensures var before, after := FullStack(m), StackOf(Advance(w, m)); Retops(before, after) || PushesCall(w, m, before, after)
  {
    assert Advance(w, m) == DispatchSub(w, m, f, step);
    hide Begin;
    var ret := if f.step in m.inbox then Some(m.inbox[f.step]) else None;
    var move := SubStep(w, f, step.kind.propsContext, ret, m.store.ctx);
    if move.Call? {
      assert ':' !in move.callee;
      hide SubStep;
      SplitJoin(Frame(move.callee, ""));
      var before, after := FullStack(m), StackOf(Advance(w, m));
      assert before[..|before| - 1] == m.stack;
      assert after == m.stack + [Join(f), Join(Frame(move.callee, ""))];
      assert after[..|after| - 1] == before;
    } else {
      hide SubStep;
      FollowShapesStack(w, m.(inbox := m.inbox - {f.step}, store := Tally(w, f.step, m.store, move.ctx)), f, step, move.outcome);
    }
  }

  lemma StepShapesStack(w: World, m: Machine, f: Frame, step: Step)
    requires WellFormed(w) && Loadable(w, f.journey) && m.control == Running(f)
    requires Begin(w, f, m.store) == Right(step) && !step.kind.SubJourney? && !Advance(w, m).Faulted?
    ensures var before, after := FullStack(m), StackOf(Advance(w, m)); before == after || Retops(before, after) || Drops(before, after)
  {
    hide Begin, Retops, Drops, Tally, Deliver, ReturnValue, Follow, ResetClientInputs, Join, Split, StackOf;
    assert Advance(w, m) == DispatchPlain(w, m, f, step);
    assert FullStack(m) == m.stack + [Join(f)];
    match w.exec(f.journey, f.step, m.store.ctx) {
      case Ask(ctx) => PausedStack(m, f, Tally(w, f.step, m.store, ctx));
      case Done(ctx, outcome, _) =>
        if Terminal(step.kind) || outcome == "" {
          EndKeepsBelow(w, m, f, step);
          TopDrops(m.stack, Join(f));
        } else {
          FollowShapesStack(w, m.(store := Tally(w, f.step, m.store, ctx)), f, step, outcome);
        }
    }
  }

  lemma PausedStack(m: Machine, f: Frame, st: Store)
    ensures StackOf(Paused(m.stack + [Join(f)], m.inbox, st)) == m.stack + [Join(f)]
  {
  }

  lemma EndKeepsBelow(w: World, m: Machine, f: Frame, step: Step)
    requires w.exec(f.journey, f.step, m.store.ctx).Done?
    requires Terminal(step.kind) || w.exec(f.journey, f.step, m.store.ctx).outcome == ""
    ensures DispatchPlain(w, m, f, step).Finished? ==> m.stack == []
    ensures StackOf(DispatchPlain(w, m, f, step)) == m.stack
  {
    hide Tally, Split, ReturnValue, ResetClientInputs, Follow;
  }

  lemma TopDrops(below: seq<string>, top: string)
    ensures Drops(below + [top], below)
  {
  }

  lemma OriginGrows(w: World, s0: State, n: nat, before: seq<string>, after: seq<string>, i: nat)
    requires i + 1 < |before| && i + 1 < |after| && Origin(w, s0, n, before, i)
    requires after[..i + 1] == before[..i + 1] && Split(after[i + 1]).journey == Split(before[i + 1]).journey
    ensures Origin(w, s0, n + 1, after, i)
  {
    assert after[..i] == after[..i + 1][..i] && before[..i] == before[..i + 1][..i];
    assert after[i] == after[..i + 1][i] && before[i] == before[..i + 1][i];
    if WasCalled(w, s0, n, before[..i], before[i], Split(before[i + 1]).journey) {
      var k: nat :| k < n && MakesCall(w, Iterate(w, s0, k), before[..i], before[i], Split(before[i + 1]).journey);
      assert k < n + 1 && MakesCall(w, Iterate(w, s0, k), after[..i], after[i], Split(after[i + 1]).journey);
    }
  }

  lemma TurnTraces(w: World, s0: State, n: nat, m: Machine)
    requires Iterate(w, s0, n) == Live(m) && WellFormed(w) && Sound(w, m) && !Advance(w, m).Faulted?
    requires Traced(w, s0, n, FullStack(m))
    ensures Traced(w, s0, n + 1, StackOf(Advance(w, m)))
  {
    var before, after := FullStack(m), StackOf(Advance(w, m));
    TurnShapesStack(w, m);
    hide Advance, Iterate, Origin, Sound, WellFormed, FullStack, StackOf;
    var next := n + 1;
    forall i | 0 <= i < |after| - 1 ensures Origin(w, s0, next, after, i) {
      if i + 1 < |before| {
        assert Origin(w, s0, n, before, i);
        SamePrefix(w, m, before, after, i);
        OriginGrows(w, s0, n, before, after, i);
      } else {
        CallIsOrigin(w, s0, n, m, before, after);
      }
    }
  }

  lemma SamePrefix(w: World, m: Machine, before: seq<string>, after: seq<string>, i: nat)
    requires before == after || Retops(before, after) || Drops(before, after) || PushesCall(w, m, before, after)
    requires i + 1 < |before| && i + 1 < |after|
    ensures after[..i + 1] == before[..i + 1] && Split(after[i + 1]).journey == Split(before[i + 1]).journey
  {
    hide MakesCall, Split;
    if Retops(before, after) {
      assert before[..|before| - 1][..i + 1] == before[..i + 1] && after[..|after| - 1][..i + 1] == after[..i + 1];
      if i + 2 < |before| { assert before[..|before| - 1][i + 1] == after[..|after| - 1][i + 1]; }
    } else if PushesCall(w, m, before, after) {
      assert after[..|after| - 1][..i + 1] == after[..i + 1] && after[..|after| - 1][i + 1] == after[i + 1];
    }
  }

  lemma CallIsOrigin(w: World, s0: State, n: nat, m: Machine, before: seq<string>, after: seq<string>)
    requires Iterate(w, s0, n) == Live(m) && |after| == |before| + 1 && PushesCall(w, m, before, after)
    ensures Origin(w, s0, n + 1, after, |before| - 1)
  {
    hide Advance, Iterate;
    var i := |before| - 1;
    assert after[..i] == before[..i] && after[i] == before[i];
    assert MakesCall(w, Iterate(w, s0, n), after[..i], after[i], Split(after[i + 1]).journey);
  }

  lemma TurnShapesStack(w: World, m: Machine)
    requires WellFormed(w) && Sound(w, m) && !Advance(w, m).Faulted?
    ensures var before, after := FullStack(m), StackOf(Advance(w, m));
            before == after || Retops(before, after) || Drops(before, after) || PushesCall(w, m, before, after)
  {
    if m.control.Popping? {
      PopShapesStack(w, m);
    } else {
      var f := m.control.at;
      var step := Begin(w, f, m.store).value;
      if step.kind.SubJourney? { SubShapesStack(w, m, f, step); } else { StepShapesStack(w, m, f, step); }
    }
  }

  /**
   * In every reachable state, pauses included: each frame that waits was waiting for
   * the same journey when the run began, or a turn of this run dispatched exactly
   * that frame, on exactly that stack, and called the journey of the frame above.
   */
  lemma {:induction false} RunTracesCalls(w: World, s0: State, n: nat)
    requires WellFormed(w) && SoundState(w, s0) && !Iterate(w, s0, n).Faulted?
    ensures Traced(w, s0, n, StackOf(Iterate(w, s0, n)))
    decreases n
  {
    hide WellFormed, SoundState, Advance, Iterate, Origin;
    if n == 0 {
      StartIsTraced(w, s0);
    } else {
      IterateAdd(w, s0, n - 1, 1);
      var t := Iterate(w, s0, n - 1);
      LastTurn(w, t);
      RunTracesCalls(w, s0, n - 1);
      RunKeepsSound(w, s0, n - 1);
      if t.Live? {
        SoundLive(w, t);
        TurnTraces(w, s0, n - 1, t.m);
      } else {
        TracedLonger(w, s0, n - 1, StackOf(t));
      }
    }
  }

  lemma StartIsTraced(w: World, s0: State)
    ensures Iterate(w, s0, 0) == s0 && Traced(w, s0, 0, StackOf(s0))
  {
    hide Split, Join;
  }

  lemma LastTurn(w: World, t: State)
    ensures Iterate(w, t, 1) == if t.Live? then Advance(w, t.m) else t
  {
    hide Advance;
    if t.Live? { IterateOnce(w, t.m); }
  }

  lemma SoundLive(w: World, t: State)
    requires t.Live? && SoundState(w, t)
    ensures Sound(w, t.m)
  {
  }

  lemma TracedLonger(w: World, s0: State, n: nat, stack: seq<string>)
    requires Traced(w, s0, n, stack)
    ensures Traced(w, s0, n + 1, stack)
  {
    hide Origin;
    var next := n + 1;
    forall i | 0 <= i < |stack| - 1 ensures Origin(w, s0, next, stack, i) { OriginGrows(w, s0, n, stack, stack, i); }
  }
}

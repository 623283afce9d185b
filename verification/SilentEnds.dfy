/** A world in which a called journey ends without a return value. */
module SilentEnds {
  import opened Basics
  import opened Tracking
  import opened Journey
  import opened Engine
  import opened Recursive
  import opened Calls

  const MAIN := Frame("main", "call")
  const SUB := Frame("sub", "finish")
  const PROPS := Json("{}")
  const CALL := Step(SubJourney("closedCtx"), map[])
  const FINISH := Step(Silent, map[])

  /** `main` calls `sub`, which ends in an HTTP response. */
  function SilentWorld(): World {
    World(
      map["main" := JourneyConf(true, "call", map["call" := CALL]), "sub" := JourneyConf(true, "finish", map["finish" := FINISH])],
      (j, s, c) => Done(c, "true", None),
      (j, s, c) => Some(SubConfig("sub", "tag", false, false, Some(PROPS))),
      n => 0)
  }

  /** The contexts after `n` calls of which none has been taken back. */
  function CtxAfter(n: nat): Ctx {
    Ctx(map[], SlotAfter(n), PropsSlot(None, []), [], [], [])
  }

  function SlotAfter(n: nat): PropsSlot {
    if n == 0 then PropsSlot(None, []) else PushSlot(SlotAfter(n - 1), PROPS)
  }

  /** The calling step is about to run for the `n + 1`st time, with nothing waiting for it. */
  predicate AboutToCall(m: Machine, n: nat) {
    && m.control == Running(MAIN) && m.stack == [] && m.inbox == map[] && m.store.ctx == CtxAfter(n)
    && Calm(m.store, n)
  }

  predicate Calm(st: Store, n: nat) {
    forall s :: s in st.ticks ==> st.ticks[s].count <= n
  }

  lemma OneCall(m: Machine, n: nat)
    requires AboutToCall(m, n) && n < MAX_TICK_COUNT
    ensures var w := SilentWorld();
            var s := Advance(w, m);
            s.Live? && s.m == Calling(MAIN, [], "sub", s.m.store) && s.m.store.ctx == CtxAfter(n + 1) && Calm(s.m.store, n + 1)
            && MAIN.step in s.m.store.ticks && (SUB.step in s.m.store.ticks ==> s.m.store.ticks[SUB.step].count <= n)
  {
    var w := SilentWorld();
    assert Begin(w, MAIN, m.store) == Right(CALL);
    assert m.stack + [Join(MAIN), Join(Frame("sub", ""))] == [Join(MAIN), Join(Frame("sub", ""))];
  }

  /** The callee runs and ends, and leaves nothing for the frame that waits. */
  lemma OneSilentEnd(m: Machine, n: nat)
    requires m == Calling(MAIN, [], "sub", m.store) && m.store.ctx == CtxAfter(n + 1) && Calm(m.store, n + 1)
    requires SUB.step in m.store.ticks ==> m.store.ticks[SUB.step].count <= n
    requires n < MAX_TICK_COUNT
    ensures var w := SilentWorld();
            Advance(w, m).Live? && Advance(w, Advance(w, m).m).Live? &&
            var end := Advance(w, Advance(w, m).m).m;
            end == Machine(Popping, [Join(MAIN)], map[], end.store) && end.store.ctx == CtxAfter(n + 1) && Calm(end.store, n + 1)
  {
    var w := SilentWorld();
    SplitJoin(Frame("sub", ""));
    assert m.stack[..1] == [Join(MAIN)];
    assert Entry(w, Frame("sub", "")) == SUB;
    var running := Advance(w, m).m;
    assert running == Machine(Running(SUB), [Join(MAIN)], map[], m.store);
    assert Begin(w, SUB, m.store) == Right(FINISH);
  }

  lemma OneReturn(m: Machine, n: nat)
    requires m == Machine(Popping, [Join(MAIN)], map[], m.store) && m.store.ctx == CtxAfter(n + 1) && Calm(m.store, n + 1)
    ensures Advance(SilentWorld(), m).Live? && AboutToCall(Advance(SilentWorld(), m).m, n + 1)
  {
    SplitJoin(MAIN);
    assert m.stack[..0] == [];
  }

  /** Each round of the loop calls again and leaves one more props entry, until the loop guard stops it. */
  lemma SilentEndCallsAgain(m: Machine, n: nat)
    requires AboutToCall(m, n) && n < MAX_TICK_COUNT
    ensures var s := Iterate(SilentWorld(), Live(m), 4);
            && s.Live? && AboutToCall(s.m, n + 1)
            && |s.m.store.ctx.closedProps.stack| == n + 1
            && Excess(SilentWorld(), s.m, "closedCtx") == n + 1
  {
    hide Advance, AboutToCall, Calm;
    var w := SilentWorld();
    OneCall(m, n);
    var m1 := Advance(w, m).m;
    OneSilentEnd(m1, n);
    var m2 := Advance(w, m1).m;
    var m3 := Advance(w, m2).m;
    OneReturn(m3, n);
    var m4 := Advance(w, m3).m;
    FourTurns(w, m, m1, m2, m3);
    Entries(n + 1);
    NoCallerWaits(w, m4, n + 1);
  }

  lemma FourTurns(w: World, m: Machine, m1: Machine, m2: Machine, m3: Machine)
    requires Advance(w, m) == Live(m1) && Advance(w, m1) == Live(m2) && Advance(w, m2) == Live(m3)
    ensures Iterate(w, Live(m), 4) == Advance(w, m3)
  {
    hide Advance;
    IterateFirst(w, m, 3);
    IterateFirst(w, m1, 2);
    IterateFirst(w, m2, 1);
    IterateOnce(w, m3);
  }

  lemma NoCallerWaits(w: World, m: Machine, n: nat)
    requires AboutToCall(m, n)
    ensures m.store.ctx == CtxAfter(n) && Excess(w, m, "closedCtx") == |CtxAfter(n).closedProps.stack|
  {
  }

  lemma {:induction false} Entries(n: nat)
    ensures |CtxAfter(n).closedProps.stack| == n
  {
    if n > 0 { Entries(n - 1); }
  }

  /** The journey as it starts. */
  function First(now: nat): Machine {
    Machine(Running(MAIN), [], map[], Store(CtxAfter(0), map[], now))
  }

  lemma NoRoundYet(now: nat)
    ensures Iterate(SilentWorld(), Live(First(now)), 0) == Live(First(now)) && AboutToCall(First(now), 0)
    ensures Excess(SilentWorld(), First(now), "closedCtx") == 0
  {
    NoCallerWaits(SilentWorld(), First(now), 0);
  }

  /** A run of this world calls again and again: after `n` rounds `n` entries are stacked, with no call pending. */
  lemma {:induction false} SilentRounds(now: nat, n: nat)
    requires n <= MAX_TICK_COUNT
    ensures var s := Iterate(SilentWorld(), Live(First(now)), 4 * n);
            && s.Live? && AboutToCall(s.m, n)
            && |s.m.store.ctx.closedProps.stack| == n && Excess(SilentWorld(), s.m, "closedCtx") == n
  {
    hide Iterate, AboutToCall, Excess, SilentWorld;
    if n == 0 {
      NoRoundYet(now);
    } else {
      SilentRounds(now, n - 1);
      var w, start := SilentWorld(), Live(First(now));
      IterateAdd(w, start, 4 * (n - 1), 4);
      SilentEndCallsAgain(Iterate(w, start, 4 * (n - 1)).m, n - 1);
    }
  }
}

/**
 * The loop guard: a step that has run 500 times may run again only 2000 ms after
 * it last finished. Under a clock that never goes back this bounds the number of
 * dispatches of every run, cyclic graphs and nested journeys included.
 */
module Ticks {
  import opened Basics
  import opened Tracking
  import opened Journey
  import opened Engine
  import opened Sums

  ghost predicate NeverGoesBack(clock: nat -> int) {
    forall i, j :: 0 <= i <= j ==> clock(i) <= clock(j)
  }

  /** The most often a step can have run `elapsed` ms into a transaction. */
  function TickLimit(elapsed: int): int {
    MAX_TICK_COUNT + elapsed / MIN_TICK_WINDOW_MS
  }

  /** Step ids that occur in some journey of the world. */
  ghost function StepIds(w: World): set<Id> {
    set j, s | j in w.journeys && s in w.journeys[j].steps :: s
  }

  ghost function Counts(ticks: map<Id, Tick>): map<Id, int> {
    map s | s in ticks :: ticks[s].count
  }

  /** Steps dispatched so far in this transaction. */
  ghost function Dispatched(st: Store): int {
    Sum(Counts(st.ticks))
  }

  ghost predicate Paced(w: World, t0: int, st: Store) {
    && t0 <= w.clock(st.now)
    && st.ticks.Keys <= StepIds(w)
    && forall s :: s in st.ticks ==>
         && t0 <= st.ticks[s].last <= w.clock(st.now)
         && (st.ticks[s].count > MAX_TICK_COUNT ==>
               (st.ticks[s].count - MAX_TICK_COUNT) * MIN_TICK_WINDOW_MS <= st.ticks[s].last - t0)
  }

  /** One dispatch that passes the guard keeps the pace and is counted once. */
  lemma TallyKeepsPace(w: World, t0: int, s: Id, st: Store, ctx: Ctx)
    requires NeverGoesBack(w.clock) && Paced(w, t0, st) && s in StepIds(w) && !Throttled(w, s, st)
    ensures Paced(w, t0, Tally(w, s, st, ctx))
    ensures Dispatched(Tally(w, s, st, ctx)) == Dispatched(st) + 1
  {
    hide Dispatched, StepIds;
    var after := Tally(w, s, st, ctx);
    assert w.clock(st.now) <= w.clock(st.now + 1) <= w.clock(st.now + 2);
    TallyCountsOne(w, s, st, ctx);
  }

  lemma TallyCountsOne(w: World, s: Id, st: Store, ctx: Ctx)
    ensures Dispatched(Tally(w, s, st, ctx)) == Dispatched(st) + 1
  {
    var count := if s in st.ticks then st.ticks[s].count else 0;
    hide Sum;
    assert Counts(Tally(w, s, st, ctx).ticks) == Counts(st.ticks)[s := count + 1];
    SumUpdate(Counts(st.ticks), s, count + 1);
  }

  /** The store of a state that still has one. */
  function StoreOf(s: State): Store
    requires !s.Faulted?
  {
    match s
    case Live(m) => m.store
    case Finished(_, st) => st
    case Paused(_, _, st) => st
  }

  /** Every dispatch that does not fault has passed the guard and recorded one tick. */
  lemma DispatchTallies(w: World, m: Machine)
    requires m.control.Running? && !Advance(w, m).Faulted?
    ensures var s, after := m.control.at.step, StoreOf(Advance(w, m));
            s in StepIds(w) && !Throttled(w, s, m.store) && after == Tally(w, s, m.store, after.ctx)
  {
    hide SubStep, Join, Split, ResetClientInputs, ClearRequestsForStep;
  }

  /** A turn either pops a frame and dispatches nothing, or dispatches exactly one step. */
  lemma TurnKeepsPace(w: World, t0: int, m: Machine)
    requires NeverGoesBack(w.clock) && Paced(w, t0, m.store) && !Advance(w, m).Faulted?
    ensures Paced(w, t0, StoreOf(Advance(w, m)))
    ensures Dispatched(StoreOf(Advance(w, m))) == Dispatched(m.store) + (if m.control.Running? then 1 else 0)
    ensures m.control.Popping? && Advance(w, m).Live? ==> Advance(w, m).m.control.Running?
  {
    hide Dispatch, Paced, Dispatched, NeverGoesBack, Tally, Throttled, StepIds;
    if m.control.Running? {
      DispatchTallies(w, m);
      TallyKeepsPace(w, t0, m.control.at.step, m.store, StoreOf(Advance(w, m)).ctx);
    }
  }

  /** Pace and turn count over any number of turns: `n` turns dispatch at least `(n - 1) / 2` steps. */
  lemma {:induction false} RunKeepsPace(w: World, t0: int, s: State, n: nat)
    requires NeverGoesBack(w.clock) && s.Live? && Paced(w, t0, s.m.store)
    requires !Iterate(w, s, n).Faulted?
    ensures Paced(w, t0, StoreOf(Iterate(w, s, n)))
    ensures Iterate(w, s, n).Live? ==>
              2 * Dispatched(StoreOf(Iterate(w, s, n))) + (if Iterate(w, s, n).m.control.Running? then 1 else 0)
              >= 2 * Dispatched(s.m.store) + (if s.m.control.Running? then 1 else 0) + n
    decreases n
  {
    hide Paced, Dispatched, NeverGoesBack, Advance;
    if n > 0 {
      var next := Advance(w, s.m);
      if !next.Faulted? {
        TurnKeepsPace(w, t0, s.m);
        if next.Live? { RunKeepsPace(w, t0, next, n - 1); }
      }
    }
  }

  lemma PacedBound(w: World, t0: int, st: Store)
    requires Paced(w, t0, st)
    ensures forall s :: s in st.ticks ==> st.ticks[s].count <= TickLimit(w.clock(st.now) - t0)
    ensures Dispatched(st) <= |StepIds(w)| * TickLimit(w.clock(st.now) - t0)
  {
    var limit := TickLimit(w.clock(st.now) - t0);
    var counts := Counts(st.ticks);
    forall s | s in st.ticks ensures st.ticks[s].count <= limit {
      var over := st.ticks[s].count - MAX_TICK_COUNT;
      if over > 0 { assert over * MIN_TICK_WINDOW_MS <= w.clock(st.now) - t0; }
    }
    SumBound(counts, limit);
    assert counts.Keys == st.ticks.Keys;
    SubsetSize(counts.Keys, StepIds(w));
    MulMonotone(|counts|, |StepIds(w)|, limit);
  }

  lemma SubsetSize<T>(a: set<T>, b: set<T>)
    requires a <= b
    ensures |a| <= |b|
  {
    assert b == a + (b - a);
  }

  lemma MulMonotone(a: nat, b: nat, c: int)
    requires a <= b && c >= 0
    ensures a * c <= b * c
  {
  }

  /** A transaction starts with no ticks. */
  ghost predicate Fresh(s: State) {
    s.Live? && s.m.store.ticks == map[]
  }

  /**
   * In a run that has lasted T ms, each step id has been dispatched at most
   * 500 + T/2000 times, and all of them together at most that many times each.
   */
  lemma DispatchesAreBounded(w: World, s: State, n: nat)
    requires NeverGoesBack(w.clock) && Fresh(s) && !Iterate(w, s, n).Faulted?
    ensures var st := StoreOf(Iterate(w, s, n));
            var elapsed := w.clock(st.now) - w.clock(s.m.store.now);
            && (forall id :: id in st.ticks ==> st.ticks[id].count <= TickLimit(elapsed))
            && Dispatched(st) <= |StepIds(w)| * TickLimit(elapsed)
  {
    var t0 := w.clock(s.m.store.now);
    assert Paced(w, t0, s.m.store);
    RunKeepsPace(w, t0, s, n);
    hide Iterate, Paced;
    PacedBound(w, t0, StoreOf(Iterate(w, s, n)));
  }

  /**
   * Hence a run that never gets more than `T` ms cannot go on for ever: it has
   * ended, paused or failed within a number of turns that only the step ids and
   * `T` determine.
   */
  lemma RunEndsInBoundedTime(w: World, s: State, T: nat)
    requires NeverGoesBack(w.clock) && Fresh(s)
    requires forall i: nat :: w.clock(i) - w.clock(s.m.store.now) <= T
    ensures !Iterate(w, s, 2 * (|StepIds(w)| * TickLimit(T)) + 2).Live?
  {
    var n := 2 * (|StepIds(w)| * TickLimit(T)) + 2;
    var end := Iterate(w, s, n);
    if end.Live? {
      var t0 := w.clock(s.m.store.now);
      assert Paced(w, t0, s.m.store);
      assert Counts(s.m.store.ticks) == map[];
      RunKeepsPace(w, t0, s, n);
      hide Iterate, Paced;
      PacedBound(w, t0, end.m.store);
      var elapsed := w.clock(end.m.store.now) - t0;
      LimitMonotone(elapsed, T);
      ScaleMonotone(|StepIds(w)|, TickLimit(elapsed), TickLimit(T));
    }
  }

  lemma LimitMonotone(a: int, b: int)
    requires a <= b
    ensures TickLimit(a) <= TickLimit(b)
  {
  }

  lemma ScaleMonotone(k: nat, a: int, b: int)
    requires a <= b
    ensures k * a <= k * b
  {
  }
}

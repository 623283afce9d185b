/**
 * When a pause leaves the props slots alone: props of SubJourney steps live in the
 * closed or the encrypted context, and these travel through the stored session.
 */
module PropsSessions {
  import opened Basics
  import opened Tracking
  import opened Journey
  import opened Engine
  import opened Recursive
  import opened Calls
  import opened Pauses
  import S = Session

  const EMPTY := PropsSlot(None, [])

  /** How the contexts of a state are kept and read; `slot` finds the props binding and stack in one context. */
  datatype Reader = Reader(keys: S.Keys, extendKey: string, read: S.View -> Ctx, slot: S.Data -> PropsSlot)

  ghost predicate ReadsSlots(x: Reader) {
    && S.Inverse(x.keys) && x.slot(map[]) == EMPTY
    && forall v :: x.read(v).closedProps == x.slot(v.closed) && x.read(v).encProps == x.slot(v.enc)
  }

  /** What steps see of a state. */
  function Seen(x: Reader, s: S.State): Ctx {
    x.read(S.Observe(x.keys, s))
  }

  /** A pause of the state `at`; later it is resumed with these inputs, at this reading of the clock. */
  datatype Pause = Pause(at: S.State, route: S.Route, provided: seq<string>, now: nat)

  function Resumed(x: Reader, p: Pause): Result<S.State> {
    S.Back(x.keys, p.at, x.extendKey, p.route)
  }

  /** A run in `ctx` with these trackings was paused by `p`, and the resumed run starts with `wake`. */
  ghost predicate Visited(x: Reader, p: Pause, trackings: seq<string>, ctx: Ctx, wake: Store) {
    && p.at.trackings == Some(trackings) && Seen(x, p.at) == ctx
    && Resumed(x, p).Ok? && wake == Store(Seen(x, Resumed(x, p).value).(provided := p.provided), map[], p.now)
  }

  /** The encrypted context survives, or neither it nor the older ciphertext has props in it. */
  predicate KeepsSlots(x: Reader, s: S.State) {
    S.EncSurvives(x.keys, s) || x.slot(S.OrEmpty(x.keys.open(s.sealed))) == EMPTY
  }

  /** A pause leaves the props slots alone if and only if it meets this condition. */
  lemma PauseKeepsSlotsIff(x: Reader, p: Pause, trackings: seq<string>, ctx: Ctx, wake: Store)
    requires ReadsSlots(x) && Visited(x, p, trackings, ctx, wake)
    ensures SameSlots(wake.ctx, ctx) <==> KeepsSlots(x, p.at)
  {
    hide S.Back, S.Accepts;
    S.PauseThenBack(x.keys, p.at, x.extendKey, p.route);
  }

  // ----- Whole runs -----

  ghost predicate EveryPauseKeeps(x: Reader, pauses: seq<Pause>) {
    forall p :: p in pauses ==> KeepsSlots(x, p.at)
  }

  /** The run pauses at least as often as `pauses` says, and is resumed with these stores. */
  ghost predicate RunVisits(
    w: World, fuel: nat, frames: seq<Frame>, v: Option<Value>, st: Store, wakes: seq<Store>, x: Reader, pauses: seq<Pause>)
    decreases |wakes|
  {
    && |pauses| == |wakes|
    && (wakes != [] ==>
          var a := RunFrames(w, fuel, frames, v, st);
          && a.Suspend? && Visited(x, pauses[0], JoinAll(a.frames), a.store.ctx, wakes[0])
          && RunVisits(w, fuel, a.frames, None, wakes[0], wakes[1..], x, pauses[1..]))
  }

  /** Every resumed run finds the props slots as its pause left them, if and only if every pause meets the condition. */
  lemma {:induction false} SlotsSurviveIff(
    w: World, fuel: nat, frames: seq<Frame>, v: Option<Value>, st: Store, wakes: seq<Store>, x: Reader, pauses: seq<Pause>)
    requires ReadsSlots(x) && RunVisits(w, fuel, frames, v, st, wakes, x, pauses)
    ensures SlotsSurvive(w, fuel, frames, v, st, wakes) <==> EveryPauseKeeps(x, pauses)
    decreases |wakes|
  {
    hide RunFrames, Visited, ReadsSlots, KeepsSlots, SameSlots;
    if wakes != [] {
      var a := RunFrames(w, fuel, frames, v, st);
      PauseKeepsSlotsIff(x, pauses[0], JoinAll(a.frames), a.store.ctx, wakes[0]);
      SlotsSurviveIff(w, fuel, a.frames, None, wakes[0], wakes[1..], x, pauses[1..]);
      assert pauses == [pauses[0]] + pauses[1..];
    }
  }

  ghost predicate LegsVisit(w: World, s: Engine.State, legs: seq<Leg>, x: Reader, pauses: seq<Pause>)
    decreases |legs|
  {
    && |pauses| == |legs|
    && (legs != [] ==>
          var t := Iterate(w, s, legs[0].turns);
          && t.Paused? && Visited(x, pauses[0], t.stack, t.store.ctx, legs[0].store)
          && LegsVisit(w, Wake(t, legs[0].store), legs[1..], x, pauses[1..]))
  }

  /** The same for the turns of the loop. */
  lemma {:induction false} CarriedIff(w: World, s: Engine.State, legs: seq<Leg>, x: Reader, pauses: seq<Pause>)
    requires ReadsSlots(x) && LegsVisit(w, s, legs, x, pauses)
    ensures Carried(w, s, legs) <==> EveryPauseKeeps(x, pauses)
    decreases |legs|
  {
    hide Iterate, Visited, ReadsSlots, KeepsSlots, SameSlots;
    if legs != [] {
      var t := Iterate(w, s, legs[0].turns);
      PauseKeepsSlotsIff(x, pauses[0], t.stack, t.store.ctx, legs[0].store);
      CarriedIff(w, Wake(t, legs[0].store), legs[1..], x, pauses[1..]);
      assert pauses == [pauses[0]] + pauses[1..];
    }
  }

  /**
   * From stored session to stored session: a run whose pauses all keep the slots
   * returns with the props binding and stack it started from, and when it waits
   * once more, exactly its pending calls have pushed.
   */
  lemma SessionsRestoreProps(
    w: World, fuel: nat, frames: seq<Frame>, v: Option<Value>, st: Store, wakes: seq<Store>, x: Reader, pauses: seq<Pause>, base: Ctx)
    requires Resumable(w, frames, v) && Called(w, frames) && SlotsPrivate(w) && Quiet(w)
    requires Pushed(w, base, Callers(frames, v), st.ctx)
    requires ReadsSlots(x) && RunVisits(w, fuel, frames, v, st, wakes, x, pauses) && EveryPauseKeeps(x, pauses)
    ensures var a := RunPaused(w, fuel, frames, v, st, wakes);
            && (a.Return? ==> SameSlots(a.store.ctx, base))
            && (a.Suspend? ==> frames != [] && Suspended(w, base, frames[0].journey, a.frames, a.store.ctx))
  {
    hide RunPaused, RunVisits, Resumable, Called, Quiet, SlotsPrivate, Pushed, ReadsSlots;
    SlotsSurviveIff(w, fuel, frames, v, st, wakes, x, pauses);
    PausedRunsRestoreProps(w, fuel, frames, v, st, wakes, base);
  }

  // ----- Props that come back from an older ciphertext -----

  const PROPS := Json("{}")
  const CALLER := Frame("main", "call")
  const ASK := Frame("sub", "ask")
  const FORM := Frame("main", "form")

  /** `main` calls `sub` with props in the encrypted context, and then asks for an input of its own, as `sub` does. */
  function FormWorld(): World {
    World(
      map["main" := JourneyConf(true, "call", map[
            "call" := Step(SubJourney("encCtx"), map["true" := "form", "false" := "form"]),
            "form" := Step(Plain, map["next" := "end"]),
            "end" := Step(Success, map[])]),
          "sub" := JourneyConf(true, "ask", map[
            "ask" := Step(Plain, map["next" := "end"]),
            "end" := Step(Success, map[])])],
      (j: Id, s: Id, c: Ctx) => if s == "end" || s in c.provided then Done(c, "next", None) else Ask(c.(requests := [Request(s, "input")])),
      (j, s, c) => Some(SubConfig("sub", "tag", false, false, Some(PROPS))),
      n => 0)
  }

  lemma {:induction false} FormWorldIsWellFormed()
    ensures WellFormed(FormWorld())
  {
  }

  lemma {:induction false} FormWorldIsTame()
    ensures SlotsPrivate(FormWorld()) && Quiet(FormWorld())
  {
  }

  /** Nothing in any context yet. */
  function Blank(now: nat): Store {
    Store(Ctx(map[], EMPTY, EMPTY, [], [], []), map[], now)
  }

  /** The callee asks for its input: the call waits, with its props pushed. */
  lemma {:induction false} CalleeAsks(now: nat)
    ensures var a := RunFrames(FormWorld(), 5, [CALLER], None, Blank(now));
            a.Suspend? && a.frames == [CALLER, ASK] && a.store.ctx == Ctx(map[], EMPTY, PushSlot(EMPTY, PROPS), [], [Request("ask", "input")], [])
  {
    var w := FormWorld();
    var st := Blank(now);
    assert Begin(w, CALLER, st).Right?;
    var inside := Tally(w, "call", st, ResetClientInputs(PushProps(st.ctx, "encCtx", PROPS)));
    assert Begin(w, ASK, inside).Right?;
    assert Run(w, 4, ASK, None, true, inside).Suspend?;
    assert Invoke(w, 4, CALLER, "sub", false, inside).Suspend?;
    assert Run(w, 5, CALLER, None, false, st) == Invoke(w, 4, CALLER, "sub", false, inside);
  }

  /** With its input the callee returns. */
  lemma {:induction false} CalleeReturns(st: Store)
    requires st.ticks == map[] && st.ctx.provided == ["ask"]
    ensures var a := Run(FormWorld(), 5, ASK, None, true, st);
            a.Return? && a.value == Some(Bool(true)) && a.store.ctx == ClearRequestsForStep(st.ctx, "ask")
            && "call" !in a.store.ticks && "form" !in a.store.ticks
  {
    var w := FormWorld();
    var end := Frame("sub", "end");
    var st1 := Tally(w, "ask", st, st.ctx);
    assert Begin(w, ASK, st).Right?;
    var st2 := st1.(ctx := ClearRequestsForStep(st1.ctx, "ask"));
    assert Begin(w, end, st2).Right?;
    assert Run(w, 5, ASK, None, true, st) == Run(w, 4, end, None, true, st2);
  }

  /** The value reaches the calling step: its props go, and `main` asks for an input of its own. */
  lemma {:induction false} FormAsks(v: Value, st: Store)
    requires v == Bool(true) && "call" !in st.ticks && "form" !in st.ticks
    requires st.ctx.provided == ["ask"] && st.ctx.encProps == PushSlot(EMPTY, PROPS)
    ensures var a := RunFrames(FormWorld(), 5, [CALLER], Some(v), st);
            a.Suspend? && a.frames == [FORM] && a.store.ctx == st.ctx.(encProps := EMPTY, requests := [Request("form", "input")])
  {
    var w := FormWorld();
    assert Begin(w, CALLER, st).Right?;
    var st1 := Tally(w, "call", st, RestoreProps(st.ctx, "encCtx"));
    var st2 := st1.(ctx := ClearRequestsForStep(st1.ctx, "call"));
    assert Begin(w, FORM, st2).Right?;
    assert Run(w, 5, CALLER, Some(v), false, st) == Run(w, 4, FORM, None, false, st2);
  }

  lemma {:induction false} CallerAsks(st: Store)
    requires st.ticks == map[] && st.ctx.provided == ["ask"] && st.ctx.encProps == PushSlot(EMPTY, PROPS)
    ensures var a := RunFrames(FormWorld(), 5, [CALLER, ASK], None, st);
            a.Suspend? && a.frames == [FORM] && a.store.ctx == st.ctx.(encProps := EMPTY, requests := [Request("form", "input")])
  {
    var w := FormWorld();
    CalleeReturns(st);
    hide Run;
    var answer := Run(w, 5, ASK, None, true, st);
    FormAsks(answer.value.value, answer.store);
    assert [CALLER, ASK][..1] == [CALLER];
    assert Reenter(w, 5, ASK, None, true, st) == answer;
  }

  /**
   * A run of this world that is paused twice. The call has returned before the second
   * pause and nothing else is in the encrypted context, so that pause keeps the
   * ciphertext of the first: the resumed run finds the props of the finished call
   * bound and stacked again, with no call pending.
   */
  lemma {:induction false} FinishedCallsPropsComeBack(x: Reader, now: nat, wakes: seq<Store>, pauses: seq<Pause>)
    requires ReadsSlots(x) && |wakes| == 2 && RunVisits(FormWorld(), 5, [CALLER], None, Blank(now), wakes, x, pauses)
    requires pauses[0].provided == ["ask"]
    requires pauses[1].at.enc == Some(map[]) && pauses[1].at.sealed == Resumed(x, pauses[0]).value.sealed
    ensures var a := RunFrames(FormWorld(), 5, [CALLER, ASK], None, wakes[0]);
            && a.Suspend? && a.frames == [FORM] && Callers(a.frames, None) == [] && a.store.ctx.encProps == EMPTY
            && wakes[1].ctx.encProps == PushSlot(EMPTY, PROPS)
            && KeepsSlots(x, pauses[0].at) && !KeepsSlots(x, pauses[1].at)
            && !SlotsSurvive(FormWorld(), 5, [CALLER], None, Blank(now), wakes)
    ensures WellFormed(FormWorld()) && SlotsPrivate(FormWorld()) && Quiet(FormWorld())
  {
    hide RunFrames, S.Back, S.Accepts, SlotsSurvive, FormWorld, WellFormed, SlotsPrivate, Quiet;
    FormWorldIsWellFormed();
    FormWorldIsTame();
    var w := FormWorld();
    var (p, q) := (pauses[0], pauses[1]);
    CalleeAsks(now);
    S.PauseThenBack(x.keys, p.at, x.extendKey, p.route);
    S.PauseThenBack(x.keys, q.at, x.extendKey, q.route);
    assert S.EncOf(x.keys, p.at) != map[];
    assert wakes[0].ctx.encProps == PushSlot(EMPTY, PROPS);
    CallerAsks(wakes[0]);
    assert RunVisits(w, 5, [CALLER, ASK], None, wakes[0], wakes[1..], x, pauses[1..]);
    assert !KeepsSlots(x, q.at);
    SlotsSurviveIff(w, 5, [CALLER], None, Blank(now), wakes, x, pauses);
  }

  /** A session with such a run: props are kept under one key, and the context remembers what was asked for and given. */
  function PlainReader(k: S.Keys): Reader {
    Reader(k, "extension", (v: S.View) => SeenBy(v), (d: S.Data) => SlotIn(d))
  }

  function SlotIn(d: S.Data): PropsSlot {
    if "props" in d then PushSlot(EMPTY, PROPS) else EMPTY
  }

  function SeenBy(v: S.View): Ctx {
    Ctx(map[], SlotIn(v.closed), SlotIn(v.enc), [],
        if "asked" in v.ctx then [Request(v.ctx["asked"], "input")] else [], if "given" in v.ctx then [v.ctx["given"]] else [])
  }

  /** The pause in the callee, and the later one in `main` over the ciphertext of the first. */
  function FirstPause(now: nat): Pause {
    Pause(S.State("id", "realm", Some(JoinAll([CALLER, ASK])), None, Some(map["asked" := "ask"]), "", Some(map["props" := "{}"]), None, None),
          S.Token, ["ask"], now)
  }

  function SecondPause(sealed: string, now: nat): Pause {
    Pause(S.State("id", "realm", Some(JoinAll([FORM])), None, Some(map["asked" := "form", "given" := "ask"]), sealed, Some(map[]), None, None),
          S.Token, ["form"], now)
  }

  lemma {:induction false} FirstPauseComesBack(k: S.Keys, now: nat)
    requires S.Inverse(k)
    ensures var x := PlainReader(k);
            var r := Resumed(x, FirstPause(now));
            && r.Ok? && r.value.sealed == k.seal(map["props" := "{}"])
            && Seen(x, r.value) == Seen(x, FirstPause(now).at)
  {
    hide S.Back, S.Accepts;
    var p := FirstPause(now);
    assert [CALLER] + [ASK] == [CALLER, ASK];
    FramesAccepted([CALLER], ASK, p.at);
    S.PauseThenBack(k, p.at, "extension", p.route);
    assert "props" in S.EncOf(k, p.at);
    assert S.CtxOf(p.at) - {"extension"} == S.CtxOf(p.at);
  }

  lemma {:induction false} SecondPauseComesBack(k: S.Keys, sealed: string, now: nat)
    requires S.Inverse(k) && sealed == k.seal(map["props" := "{}"])
    ensures Resumed(PlainReader(k), SecondPause(sealed, now)).Ok?
  {
    hide S.Back, S.Accepts;
    var q := SecondPause(sealed, now);
    assert [] + [FORM] == [FORM];
    FramesAccepted([], FORM, q.at);
    S.PauseThenBack(k, q.at, "extension", q.route);
  }

  lemma {:induction false} FramesAccepted(below: seq<Frame>, f: Frame, s: S.State)
    requires s.trackings == Some(JoinAll(below + [f])) && f.journey != "" && ':' !in f.journey
    ensures S.Accepts(s, S.Token)
  {
    var t := Join(f);
    assert t[|f.journey|] == ':' && t[..|f.journey|] == f.journey;
    assert forall i :: 0 <= i < |f.journey| ==> t[i] == f.journey[i];
  }

  /** For any keys there is a session in which the props of the finished call come back. */
  lemma {:induction false} FinishedCallExists(k: S.Keys, now: nat) returns (x: Reader, wakes: seq<Store>, pauses: seq<Pause>)
    requires S.Inverse(k)
    ensures x.keys == k && ReadsSlots(x) && |wakes| == 2 == |pauses|
    ensures RunVisits(FormWorld(), 5, [CALLER], None, Blank(now), wakes, x, pauses)
    ensures pauses[0].provided == ["ask"] && Resumed(x, pauses[0]).Ok?
    ensures pauses[1].at.enc == Some(map[]) && pauses[1].at.sealed == Resumed(x, pauses[0]).value.sealed
    ensures wakes[1].ctx.encProps == PushSlot(EMPTY, PROPS) && !SlotsSurvive(FormWorld(), 5, [CALLER], None, Blank(now), wakes)
  {
    hide RunFrames, FormWorld, SlotsSurvive, Resumed, JoinAll;
    var w := FormWorld();
    x := PlainReader(k);
    var p := FirstPause(now);
    FirstPauseComesBack(k, now);
    var q := SecondPause(Resumed(x, p).value.sealed, now);
    SecondPauseComesBack(k, q.at.sealed, now);
    var first := Store(Seen(x, Resumed(x, p).value).(provided := p.provided), map[], now);
    var second := Store(Seen(x, Resumed(x, q).value).(provided := q.provided), map[], now);
    wakes, pauses := [first, second], [p, q];
    CalleeAsks(now);
    CallerAsks(first);
    assert RunVisits(w, 5, [FORM], None, second, [], x, []);
    assert wakes[1..] == [second] && pauses[1..] == [q];
    assert RunVisits(w, 5, [CALLER, ASK], None, first, [second], x, [q]);
    FinishedCallsPropsComeBack(x, now, wakes, pauses);
  }
}

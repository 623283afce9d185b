/**
 * A pause from end to end: the frames a run suspends with travel through the token
 * and the stored state, and come back as the frames of the resumed run.
 */
module Resumption {
  import opened Basics
  import opened Tracking
  import opened Journey
  import opened Engine
  import opened Recursive
  import opened Calls
  import S = Session

  /** Frames to resume, with a journey on top that can be loaded. */
  ghost predicate Comeback(w: World, frames: seq<Frame>) {
    frames != [] && Resumable(w, frames, None) && Loadable(w, frames[|frames| - 1].journey)
  }

  lemma ComebackAbove(w: World, below: seq<Frame>, frames: seq<Frame>)
    requires Comeback(w, frames) && forall f :: f in below ==> IsSub(w, f) && ':' !in f.journey
    ensures Comeback(w, below + frames)
  {
  }

  /** A run that suspends leaves frames that can be resumed. */
  lemma {:induction false} RunSuspends(w: World, fuel: nat, f: Frame, ret: Option<Value>, nested: bool, st: Store)
    requires Ready(w, f, ret) && Run(w, fuel, f, ret, nested, st).Suspend?
    ensures Comeback(w, Run(w, fuel, f, ret, nested, st).frames)
    decreases fuel, 0
  {
    hide Comeback, Throttled;
    var step := Begin(w, f, st).value;
    if step.kind.SubJourney? {
      var move := SubStep(w, f, step.kind.propsContext, ret, st.ctx);
      if move.Goto? {
        ProceedSuspends(w, fuel - 1, f, step, move.outcome, nested, Tally(w, f.step, st, move.ctx));
      } else {
        InvokeSuspends(w, fuel - 1, f, move.callee, nested, Tally(w, f.step, st, ResetClientInputs(move.ctx)));
      }
    } else {
      match w.exec(f.journey, f.step, st.ctx) {
        case Ask(_) => AskComesBack(w, f);
        case Done(ctx, outcome, _) => ProceedSuspends(w, fuel - 1, f, step, outcome, nested, Tally(w, f.step, st, ctx));
      }
    }
  }

  lemma AskComesBack(w: World, f: Frame)
    requires WellFormed(w) && Loadable(w, f.journey)
    ensures Comeback(w, [f])
  {
  }

  lemma {:induction false} ProceedSuspends(w: World, fuel: nat, f: Frame, step: Step, outcome: string, nested: bool, st: Store)
    requires Ready(w, f, None) && Proceed(w, fuel, f, step, outcome, nested, st).Suspend?
    ensures Comeback(w, Proceed(w, fuel, f, step, outcome, nested, st).frames)
    decreases fuel, 1
  {
    hide Run, Comeback, WellFormed;
    RunSuspends(w, fuel, Frame(f.journey, step.outcomes[outcome]), None, nested, st.(ctx := ClearRequestsForStep(st.ctx, f.step)));
  }

  lemma {:induction false} InvokeSuspends(w: World, fuel: nat, f: Frame, callee: Id, nested: bool, st: Store)
    requires Ready(w, f, None) && IsSub(w, f) && Invoke(w, fuel, f, callee, nested, st).Suspend?
    ensures Comeback(w, Invoke(w, fuel, f, callee, nested, st).frames)
    decreases fuel, 1
  {
    assert f.step != "" && ':' !in f.journey;
    hide Run, Comeback, WellFormed;
    var answer := Run(w, fuel, Frame(callee, w.journeys[callee].start), None, true, st);
    if answer.Suspend? {
      RunSuspends(w, fuel, Frame(callee, w.journeys[callee].start), None, true, st);
      ComebackAbove(w, [f], answer.frames);
    } else {
      RunSuspends(w, fuel, f, answer.value, nested, answer.store);
    }
  }

  /** So does a resumed run that suspends once more. */
  lemma {:induction false} FramesSuspend(w: World, fuel: nat, frames: seq<Frame>, v: Option<Value>, st: Store)
    requires Resumable(w, frames, v) && RunFrames(w, fuel, frames, v, st).Suspend?
    ensures Comeback(w, RunFrames(w, fuel, frames, v, st).frames)
    decreases |frames|
  {
    hide Run, Comeback, WellFormed;
    var n := |frames| - 1;
    EntryIsReady(w, frames, v);
    var answer := Run(w, fuel, Entry(w, frames[n]), v, frames[..n] != [], st);
    if answer.Suspend? {
      RunSuspends(w, fuel, Entry(w, frames[n]), v, frames[..n] != [], st);
      ComebackAbove(w, frames[..n], answer.frames);
    } else {
      ReturnedBelow(w, frames, v);
      FramesSuspend(w, fuel, frames[..n], answer.value, answer.store);
    }
  }

  lemma ReturnedBelow(w: World, frames: seq<Frame>, v: Option<Value>)
    requires Resumable(w, frames, v) && |frames| > 1
    ensures var below := frames[..|frames| - 1]; forall value :: Resumable(w, below, value)
  {
    var below := frames[..|frames| - 1];
    assert IsSub(w, below[|below| - 1]);
  }

  lemma {:induction false} SplitJoinAll(frames: seq<Frame>)
    requires forall f :: f in frames ==> ':' !in f.journey
    ensures SplitAll(JoinAll(frames)) == frames
    decreases |frames|
  {
    forall i | 0 <= i < |frames| ensures Split(JoinAll(frames)[i]) == frames[i] {
      assert frames[i] in frames;
      SplitJoin(frames[i]);
    }
  }

  lemma NamesItsJourney(f: Frame)
    requires ':' !in f.journey && f.journey != ""
    ensures 0 < IndexOf(Join(f), ':') < |Join(f)|
  {
    var t := Join(f);
    assert t[|f.journey|] == ':' && t[..|f.journey|] == f.journey;
    assert forall i :: 0 <= i < |f.journey| ==> t[i] == f.journey[i];
  }

  /** The resumed loop, over what the token and the stored state gave back. */
  function ResumedLoop(read: S.View -> Ctx, k: S.Keys, s: S.State, now: nat): Engine.State
    requires s.trackings.Some?
  {
    Live(Machine(Popping, s.trackings.value, map[], Store(read(S.Observe(k, s)), map[], now)))
  }

  /** Where the reference run ends, the loop ends. */
  ghost predicate Ends(w: World, s: Engine.State, a: Answer) {
    !a.OutOfFuel? ==> exists n: nat :: Iterate(w, s, n) == Conclusion(a)
  }

  /** Frames a run suspended with can be stored, and found again by this route. */
  lemma FramesAreAccepted(w: World, frames: seq<Frame>, s: S.State, route: S.Route)
    requires Comeback(w, frames) && s.trackings == Some(JoinAll(frames)) && Finds(s, route) && "" !in w.journeys
    ensures S.Accepts(s, route)
  {
    var n := |frames| - 1;
    assert frames[n] in frames;
    NamesItsJourney(frames[n]);
  }

  /** A resume id finds a state only if its closed context names the suspended journey. */
  predicate Finds(s: S.State, route: S.Route) {
    match route
    case Token => true
    case Identifier(_, key) => key in S.OrEmpty(s.closed) && S.OrEmpty(s.closed)[key] != ""
  }

  /**
   * Frames that a run suspends with come back by token or by resume id as the frames
   * of the resumed run, with the contexts the run was paused in, less the extension of
   * the expiry; and the loop that is then started ends as the reference meaning of
   * exactly those frames ends. `read` is how steps see the contexts of a state.
   */
  lemma FramesComeBack(w: World, frames: seq<Frame>, k: S.Keys, read: S.View -> Ctx, s: S.State, extendKey: string, route: S.Route, now: nat)
    requires Comeback(w, frames) && "" !in w.journeys
    requires S.Inverse(k) && S.EncSurvives(k, s) && Finds(s, route) && s.trackings == Some(JoinAll(frames))
    ensures var r := S.Back(k, s, extendKey, route);
            var st := Store(read(S.Remembered(k, s, extendKey)), map[], now);
            && r.Ok? && r.value.trackings.Some? && SplitAll(r.value.trackings.value) == frames
            && ResumedLoop(read, k, r.value, now) == Resume(frames, None, st)
            && forall fuel :: Ends(w, ResumedLoop(read, k, r.value, now), RunFrames(w, fuel, frames, None, st))
  {
    hide S.Back, S.Remembered, S.Accepts, Run, RunFrames, Iterate, Split, Join, Conclusion, S.EncSurvives;
    FramesAreAccepted(w, frames, s, route);
    S.PauseThenBack(k, s, extendKey, route);
    SplitJoinAll(frames);
    var st := Store(read(S.Remembered(k, s, extendKey)), map[], now);
    forall fuel | !RunFrames(w, fuel, frames, None, st).OutOfFuel?
      ensures Ends(w, Resume(frames, None, st), RunFrames(w, fuel, frames, None, st))
    {
      var m := LoopFollowsFrames(w, fuel, frames, None, st);
    }
  }

  /** A run of a started journey that suspends, paused and resumed by token or by resume id. */
  lemma SuspendedRunComesBack(
    w: World, fuel: nat, frames: seq<Frame>, st: Store, k: S.Keys, read: S.View -> Ctx, s: S.State, extendKey: string, route: S.Route, now: nat)
    requires Resumable(w, frames, None) && RunFrames(w, fuel, frames, None, st).Suspend? && "" !in w.journeys
    requires S.Inverse(k) && S.EncSurvives(k, s) && Finds(s, route)
    requires var a := RunFrames(w, fuel, frames, None, st);
             s.trackings == Some(JoinAll(a.frames)) && read(S.Observe(k, s)) == a.store.ctx
    ensures var a := RunFrames(w, fuel, frames, None, st);
            var r := S.Back(k, s, extendKey, route);
            var next := Store(read(S.Remembered(k, s, extendKey)), map[], now);
            && r.Ok? && r.value.trackings.Some? && SplitAll(r.value.trackings.value) == a.frames
            && (extendKey !in S.CtxOf(s) ==> next.ctx == a.store.ctx)
            && forall more :: Ends(w, ResumedLoop(read, k, r.value, now), RunFrames(w, more, a.frames, None, next))
  {
    hide RunFrames, Iterate, Resumable, S.Back, Ends;
    var a := RunFrames(w, fuel, frames, None, st);
    FramesSuspend(w, fuel, frames, None, st);
    FramesComeBack(w, a.frames, k, read, s, extendKey, route, now);
    assert extendKey !in S.CtxOf(s) ==> S.CtxOf(s) - {extendKey} == S.CtxOf(s);
  }
}

/**
 * What the results of runs say, over all interleavings: a call is closed with what
 * the target of its own run returned and the count that run saved, and a Get is
 * answered with a value that a target has returned.
 */
module SchedulerResults {
  import opened Basics
  import opened Scheduler
  import opened SchedulerRuns
  import opened SchedulerCache
  import opened SchedulerGet

  datatype History = History(init: map<Id, Schedule>, clock: int, actions: seq<Action>)

  /** The system after the first `k` actions. */
  function At(h: History, k: nat): System
    requires k <= |h.actions|
  {
    Execute(h.init, h.clock, h.actions[..k])
  }

  /** Action `k` is one of the leader of call `c`, for `id`. */
  ghost predicate ByLeader(h: History, k: nat, c: nat, id: Id) {
    && k < |h.actions| && LeaderStep(h.actions[k])
    && Leads(At(h, k), h.actions[k].t) && At(h, k).threads[h.actions[k].t].call == c && At(h, k).threads[h.actions[k].t].id == id
  }

  /** The run of call `c` loads its schedule and finds runs left, or no limit. */
  ghost predicate StartsRun(h: History, k: nat, c: nat, id: Id) {
    && ByLeader(h, k, c, id) && h.actions[k].Load? && At(h, k).threads[h.actions[k].t].stage.Starting?
    && id in At(h, k).store && (At(h, k).store[id].maxRuns > 0 ==> At(h, k).store[id].runCount < At(h, k).store[id].maxRuns)
  }

  /** The target of that run returns `o`. */
  ghost predicate Returns(h: History, k: nat, c: nat, id: Id, o: Outcome) {
    ByLeader(h, k, c, id) && h.actions[k].TargetReturns? && h.actions[k].outcome == o && At(h, k).threads[h.actions[k].t].stage.Executing?
  }

  /** That run saves its schedule with `n` runs. */
  ghost predicate SavesRun(h: History, k: nat, c: nat, id: Id, n: int) {
    && ByLeader(h, k, c, id) && h.actions[k].Save? && At(h, k).threads[h.actions[k].t].stage.Saving?
    && id in At(h, k + 1).store && At(h, k + 1).store[id].runCount == n
  }

  /** The run of call `c` loads no schedule, or one whose budget is spent after `n` runs. */
  ghost predicate LoadsNothing(h: History, k: nat, c: nat, id: Id) {
    ByLeader(h, k, c, id) && h.actions[k].Load? && At(h, k).threads[h.actions[k].t].stage.Starting? && id !in At(h, k).store
  }

  ghost predicate LoadsSpent(h: History, k: nat, c: nat, id: Id, n: int) {
    && ByLeader(h, k, c, id) && h.actions[k].Load? && At(h, k).threads[h.actions[k].t].stage.Starting?
    && id in At(h, k).store && At(h, k).store[id].maxRuns > 0 && At(h, k).store[id].runCount >= At(h, k).store[id].maxRuns
    && n == At(h, k).store[id].runCount
  }

  ghost predicate HasStarted(h: History, m: nat, c: nat, id: Id) {
    exists i :: 0 <= i < m && StartsRun(h, i, c, id)
  }

  /** Before action `m` the run of call `c` started, and after that its target returned `o`. */
  ghost predicate HasReturned(h: History, m: nat, c: nat, id: Id, o: Outcome) {
    exists j :: 0 <= j < m && HasStarted(h, j, c, id) && Returns(h, j, c, id, o)
  }

  ghost predicate HasSaved(h: History, m: nat, c: nat, id: Id, o: Outcome, n: int) {
    exists k :: 0 <= k < m && HasReturned(h, k, c, id, o) && SavesRun(h, k, c, id, n)
  }

  /** The result tells what the run of call `c` did before action `m`. */
  ghost predicate Told(h: History, m: nat, c: nat, id: Id, r: RunResult) {
    match r
    case NotFound => exists k :: 0 <= k < m && LoadsNothing(h, k, c, id)
    case AlreadyCompleted(n) => exists k :: 0 <= k < m && LoadsSpent(h, k, c, id, n)
    case Ran(o, n) => HasSaved(h, m, c, id, o, n)
  }

  ghost predicate StageTold(h: History, m: nat, c: nat, id: Id, stage: Stage) {
    match stage
    case Starting => true
    case Marking(_) => HasStarted(h, m, c, id)
    case Executing(_) => HasStarted(h, m, c, id)
    case Publishing(_, o) => HasReturned(h, m, c, id, o)
    case Saving(_, o) => HasReturned(h, m, c, id, o)
    case Unscheduling(r) => Told(h, m, c, id, r)
    case Ending(r) => Told(h, m, c, id, r)
  }

  ghost predicate LeaderTold(h: History, m: nat, t: Thread)
    requires m <= |h.actions|
  {
    Leads(At(h, m), t) ==> var Leader(id, c, stage, _) := At(h, m).threads[t]; StageTold(h, m, c, id, stage)
  }

  ghost predicate CallTold(h: History, m: nat, c: nat)
    requires m <= |h.actions|
  {
    c < |At(h, m).calls| && At(h, m).calls[c].result.Some? ==> Told(h, m, c, At(h, m).calls[c].id, At(h, m).calls[c].result.value)
  }

  ghost predicate AllTold(h: History, m: nat)
    requires m <= |h.actions|
  {
    (forall t :: LeaderTold(h, m, t)) && (forall c :: CallTold(h, m, c))
  }

  // ----- How stages follow one another -----

  /** The stage a leader is in now, and the one it was in before its own action `a`. */
  predicate StageFollows(s: System, a: Action, n: System, t: Thread)
    requires Leads(s, t) && Leads(n, t)
  {
    var Leader(id, _, before, _) := s.threads[t];
    match (a, before, n.threads[t].stage)
    case (Load(_), Starting, Marking(_)) => id in s.store && (s.store[id].maxRuns > 0 ==> s.store[id].runCount < s.store[id].maxRuns)
    case (Load(_), Starting, Ending(NotFound)) => id !in s.store
    case (Load(_), Starting, Ending(AlreadyCompleted(k))) =>
      id in s.store && s.store[id].maxRuns > 0 && s.store[id].runCount >= s.store[id].maxRuns && k == s.store[id].runCount
    case (Mark(_), Marking(_), Executing(_)) => true
    case (TargetReturns(_, o), Executing(_), Publishing(_, p)) => p == o
    case (Publish(_), Publishing(_, o), Saving(_, p)) => p == o
    case (Save(_, _), Saving(_, o), Unscheduling(Ran(p, k))) => p == o && id in n.store && n.store[id].runCount == k
    case (Save(_, _), Saving(_, o), Ending(Ran(p, k))) => p == o && id in n.store && n.store[id].runCount == k
    case (Unschedule(_), Unscheduling(r), Ending(q)) => q == r
    case _ => false
  }

  /** Whoever leads now led the same call in the same stage, has made its own step, or has just begun. */
  predicate LeaderEvolves(s: System, a: Action, n: System, t: Thread) {
    Leads(n, t) ==>
      || n.threads[t].stage.Starting?
      || (&& Leads(s, t) && n.threads[t].id == s.threads[t].id && n.threads[t].call == s.threads[t].call
          && (n.threads[t].stage == s.threads[t].stage || (LeaderStep(a) && a.t == t && StageFollows(s, a, n, t))))
  }

  lemma OwnStep(s: System, a: Action)
    requires LeaderStep(a)
    ensures LeaderEvolves(s, a, Next(s, a), a.t)
  {
    hide CacheKey;
  }

  lemma OtherLeaders(s: System, a: Action, t: Thread)
    requires LeaderStep(a) && t != a.t
    ensures LeaderEvolves(s, a, Next(s, a), t)
  {
    hide CacheKey, AfterRun, Completed, StageFollows;
  }

  lemma DeliveriesKeepLeaders(s: System, a: Action, t: Thread)
    requires Delivers(a)
    ensures LeaderEvolves(s, a, Next(s, a), t)
  {
    hide ValueOf, StageFollows;
  }

  lemma OthersKeepLeaders(s: System, a: Action, t: Thread)
    requires !LeaderStep(a) && !Delivers(a)
    ensures LeaderEvolves(s, a, Next(s, a), t)
  {
    hide CacheKey, Completed, IsFresh, Lookup, StageFollows, Rewrites;
  }

  lemma LeadersEvolve(s: System, a: Action, t: Thread)
    ensures LeaderEvolves(s, a, Next(s, a), t)
  {
    hide Next, LeaderEvolves;
    if LeaderStep(a) {
      if t == a.t { OwnStep(s, a); } else { OtherLeaders(s, a, t); }
    } else if Delivers(a) {
      DeliveriesKeepLeaders(s, a, t);
    } else {
      OthersKeepLeaders(s, a, t);
    }
  }

  /** A call gets its result from its leader, and keeps it. */
  predicate CallEvolves(s: System, a: Action, n: System, c: nat) {
    c < |n.calls| && n.calls[c].result.Some? ==>
      || (c < |s.calls| && n.calls[c] == s.calls[c])
      || (&& a.End? && Leads(s, a.t) && s.threads[a.t].call == c && s.threads[a.t].id == n.calls[c].id
          && s.threads[a.t].stage == Ending(n.calls[c].result.value))
  }

  lemma CallsEvolve(s: System, a: Action, c: nat)
    ensures CallEvolves(s, a, Next(s, a), c)
  {
    if a.Begin? {
      hide Deliver;
    } else if a.End? {
      hide Deliver;
      if Leads(s, a.t) && s.threads[a.t].stage.Ending? && s.threads[a.t].call < |s.calls| {
        var Leader(id, _, Ending(result), get) := s.threads[a.t];
        DeliverAppends(Ended(s, a.t), id, get, Some(result));
      }
    } else {
      hide Next;
      OthersKeepFlight(s, a);
    }
  }

  // ----- Over whole histories -----

  lemma AtStep(h: History, m: nat)
    requires m < |h.actions|
    ensures At(h, m + 1) == Next(At(h, m), h.actions[m])
  {
    ExecuteStep(h.init, h.clock, h.actions, m);
  }

  lemma ToldLater(h: History, m: nat, c: nat, id: Id, stage: Stage)
    requires StageTold(h, m, c, id, stage)
    ensures StageTold(h, m + 1, c, id, stage)
  {
    hide StartsRun, Returns, SavesRun, LoadsNothing, LoadsSpent;
  }

  /** The step of a leader makes its stage true of the history. */
  lemma OwnStepTells(h: History, m: nat)
    requires m < |h.actions| && LeaderStep(h.actions[m]) && LeaderTold(h, m, h.actions[m].t)
    requires Leads(At(h, m), h.actions[m].t) && Leads(At(h, m + 1), h.actions[m].t)
    requires StageFollows(At(h, m), h.actions[m], At(h, m + 1), h.actions[m].t)
    ensures var Leader(id, c, _, _) := At(h, m).threads[h.actions[m].t];
            StageTold(h, m + 1, c, id, At(h, m + 1).threads[h.actions[m].t].stage)
  {
    hide At;
    var a, s, n := h.actions[m], At(h, m), At(h, m + 1);
    var Leader(id, c, before, _) := s.threads[a.t];
    assert ByLeader(h, m, c, id);
    match a {
      case Load(_) =>
        match n.threads[a.t].stage {
          case Marking(_) => assert StartsRun(h, m, c, id);
          case Ending(NotFound) => assert LoadsNothing(h, m, c, id);
          case Ending(AlreadyCompleted(k)) => assert LoadsSpent(h, m, c, id, k);
          case _ =>
        }
      case TargetReturns(_, o) => assert Returns(h, m, c, id, o);
      case Save(_, _) => SaveTells(h, m, c, id, before.outcome, n.store[id].runCount);
      case _ => ToldLater(h, m, c, id, before);
    }
  }

  lemma SaveTells(h: History, m: nat, c: nat, id: Id, o: Outcome, n: int)
    requires HasReturned(h, m, c, id, o) && SavesRun(h, m, c, id, n)
    ensures HasSaved(h, m + 1, c, id, o, n)
  {
    hide HasReturned, SavesRun;
  }

  lemma StepKeepsTold(h: History, m: nat)
    requires m < |h.actions| && AllTold(h, m)
    ensures AllTold(h, m + 1)
  {
    hide At, Next, StageTold, LeaderEvolves, CallEvolves;
    var a, s, after := h.actions[m], At(h, m), m + 1;
    AtStep(h, m);
    forall t ensures LeaderTold(h, after, t) {
      LeadersEvolve(s, a, t);
      LeaderStaysTold(h, m, t);
    }
    forall c: nat ensures CallTold(h, after, c) {
      CallsEvolve(s, a, c);
      CallStaysTold(h, m, c);
    }
  }

  lemma LeaderStaysTold(h: History, m: nat, t: Thread)
    requires m < |h.actions| && LeaderTold(h, m, t) && LeaderEvolves(At(h, m), h.actions[m], At(h, m + 1), t)
    ensures LeaderTold(h, m + 1, t)
  {
    hide At, StageFollows, HasStarted, HasReturned, Told;
    var s, n := At(h, m), At(h, m + 1);
    if Leads(n, t) && !n.threads[t].stage.Starting? {
      if n.threads[t].stage == s.threads[t].stage {
        hide StageTold;
        ToldLater(h, m, s.threads[t].call, s.threads[t].id, s.threads[t].stage);
      } else {
        OwnStepTells(h, m);
      }
    }
  }

  lemma CallStaysTold(h: History, m: nat, c: nat)
    requires m < |h.actions| && CallTold(h, m, c) && CallEvolves(At(h, m), h.actions[m], At(h, m + 1), c)
    requires forall t :: LeaderTold(h, m, t)
    ensures CallTold(h, m + 1, c)
  {
    hide At, HasSaved, LoadsNothing, LoadsSpent;
    var s, n := At(h, m), At(h, m + 1);
    if c < |n.calls| && n.calls[c].result.Some? {
      assert !(c < |s.calls| && n.calls[c] == s.calls[c]) ==> LeaderTold(h, m, h.actions[m].t);
      ToldLater(h, m, c, n.calls[c].id, Ending(n.calls[c].result.value));
    }
  }

  lemma {:induction false} ResultsAreTold(h: History, m: nat)
    requires m <= |h.actions|
    ensures AllTold(h, m)
    decreases m
  {
    if m == 0 {
      assert h.actions[..0] == [];
    } else {
      hide AllTold;
      ResultsAreTold(h, m - 1);
      StepKeepsTold(h, m - 1);
    }
  }

  /** A call is closed with what its own run did: nothing loaded, a spent budget, or a target's outcome and the saved count. */
  lemma ClosedResultsAreTold(h: History, m: nat, k: nat)
    requires m <= |h.actions| && k < |At(h, m).log| && At(h, m).log[k].Closed?
    ensures var Closed(id, c, r) := At(h, m).log[k]; Told(h, m, c, id, r)
  {
    hide Execute, Told;
    ResultsAreTold(h, m);
    RunsAreLogged(h.init, h.clock, h.actions[..m]);
    assert ClosedOk(At(h, m), k);
    assert CallTold(h, m, At(h, m).log[k].call);
  }

  /** So is everybody who waited for the call answered. */
  lemma AnswersAreTold(h: History, m: nat, k: nat) returns (id: Id)
    requires m <= |h.actions| && k < |At(h, m).log| && At(h, m).log[k].Answered?
    ensures Told(h, m, At(h, m).log[k].call, id, At(h, m).log[k].result)
  {
    hide Execute, Told;
    ResultsAreTold(h, m);
    RunsAreLogged(h.init, h.clock, h.actions[..m]);
    assert AnswerOk(At(h, m), k);
    assert CallTold(h, m, At(h, m).log[k].call);
    id := At(h, m).calls[At(h, m).log[k].call].id;
  }

  // ----- Values that Get takes from a run -----

  /** The result of a run that returned `v` without an error. */
  predicate Yields(r: RunResult, v: Value) {
    r.Ran? && r.outcome == Outcome(Some(v), false)
  }

  /** Some run of `id` before action `m` has returned `v` without an error and been saved. */
  ghost predicate HasYielded(h: History, m: nat, id: Id, v: Value) {
    exists c, n :: HasSaved(h, m, c, id, Outcome(Some(v), false), n)
  }

  /** Thread `t` ends or wakes with result `r` of a call for `id`, and gives it to the Get it is in. */
  predicate HandsOver(s: System, a: Action, id: Id, get: Getter, r: RunResult) {
    || (a.End? && Leads(s, a.t) && s.threads[a.t].call < |s.calls| && s.threads[a.t].id == id
        && s.threads[a.t].get == get && s.threads[a.t].stage == Ending(r))
    || (a.Wake? && a.t in s.threads && s.threads[a.t].Follower? && s.threads[a.t].call < |s.calls| && s.threads[a.t].id == id
        && s.threads[a.t].get == get && s.calls[s.threads[a.t].call].result == Some(r))
  }

  /**
   * A Get that waited for a run gets the value if there is one; otherwise the value it
   * held, if it may; otherwise nothing.
   */
  lemma WaitingGetIsAnswered(s: System, a: Action, id: Id, began: nat, heldAt: nat, allowed: bool, stale: Option<CacheEntry>, r: RunResult)
    requires HandsOver(s, a, id, Get(began, heldAt, allowed, stale), r)
    ensures var more := Next(s, a).log[|s.log| + (if a.End? then 2 else 1)..];
            && |s.log| + (if a.End? then 2 else 1) <= |Next(s, a).log|
            && (forall v :: Yields(r, v) ==> more == [Got(id, v, FromRun(began))])
            && ((forall v :: !Yields(r, v)) ==>
                  more == if allowed && stale.Some? then [Got(id, stale.value.value, Stale(began, heldAt, allowed, Some(r)))] else [])
  {
    hide Ended;
    assert r.Ran? && !r.outcome.failed && r.outcome.value.Some? ==> Yields(r, r.outcome.value.value);
    var get := Get(began, heldAt, allowed, stale);
    if a.End? {
      DeliverAppends(Ended(s, a.t), id, get, Some(r));
      EndedLog(s, a.t);
    } else {
      var c := s.threads[a.t].call;
      DeliverAppends(s.(threads := s.threads - {a.t}, log := s.log + [Answered(c, r)]), id, get, Some(r));
    }
  }

  lemma EndedLog(s: System, t: Thread)
    requires Leads(s, t) && s.threads[t].stage.Ending? && s.threads[t].call < |s.calls|
    ensures var Leader(id, c, Ending(r), _) := s.threads[t]; Ended(s, t).log == s.log + [Closed(id, c, r), Answered(c, r)]
  {
  }

  /** A new value from a run is that of the result just handed over. */
  ghost predicate FromResult(s: System, a: Action, e: Event) {
    e.Got? && e.reason.FromRun? ==> exists get, r :: HandsOver(s, a, e.id, get, r) && Yields(r, e.value)
  }

  ghost predicate NewValues(s: System, a: Action) {
    forall k :: |s.log| <= k < |Next(s, a).log| ==> FromResult(s, a, Next(s, a).log[k])
  }

  lemma NewValuesAreHandedOver(s: System, a: Action)
    ensures NewValues(s, a)
  {
    if a.End? || a.Wake? {
      hide Ended, HandsOver;
      DeliveryHandsOver(s, a);
    } else if a.Cancel? || a.Refuse? {
      hide HandsOver;
      if Next(s, a).log != s.log {
        var role := s.threads[a.t];
        DeliverAppends(s.(threads := s.threads - {a.t}), role.id, role.get, None);
      }
    } else if a.Read? {
      hide HandsOver, Lookup, IsFresh;
    } else {
      hide Next, HandsOver;
      PlainEvents(s, a);
      if Next(s, a).log != s.log { var e :| Next(s, a).log == s.log + [e] && !e.Got?; }
    }
  }

  lemma DeliveryHandsOver(s: System, a: Action)
    requires a.End? || a.Wake?
    ensures NewValues(s, a)
  {
    hide Deliver;
    if a.End? && Leads(s, a.t) && s.threads[a.t].stage.Ending? && s.threads[a.t].call < |s.calls| {
      var Leader(id, c, Ending(r), get) := s.threads[a.t];
      assert HandsOver(s, a, id, get, r);
      DeliverAppends(Ended(s, a.t), id, get, Some(r));
    } else if a.Wake? && a.t in s.threads && s.threads[a.t].Follower? && s.threads[a.t].call < |s.calls| && s.calls[s.threads[a.t].call].result.Some? {
      var Follower(id, c, get) := s.threads[a.t];
      var r := s.calls[c].result.value;
      assert HandsOver(s, a, id, get, r);
      DeliverAppends(s.(threads := s.threads - {a.t}, log := s.log + [Answered(c, r)]), id, get, Some(r));
    }
  }

  /** What is handed over is told of the history. */
  lemma HandedOverIsTold(h: History, m: nat, id: Id, get: Getter, r: RunResult, v: Value)
    requires m < |h.actions| && HandsOver(At(h, m), h.actions[m], id, get, r) && Yields(r, v)
    ensures HasYielded(h, m, id, v)
  {
    hide Execute, HasSaved;
    ResultsAreTold(h, m);
    RunsKeepFlight(h.init, h.clock, h.actions[..m]);
    hide RunningLinked, LeadersLinked;
    var s, t := At(h, m), h.actions[m].t;
    var c := s.threads[t].call;
    assert LeaderTold(h, m, t) && CallTold(h, m, c);
    assert HasSaved(h, m, c, id, Outcome(Some(v), false), r.count);
  }

  ghost predicate GotTold(h: History, m: nat, k: nat)
    requires m <= |h.actions|
  {
    k < |At(h, m).log| && At(h, m).log[k].Got? && At(h, m).log[k].reason.FromRun? ==>
      HasYielded(h, m, At(h, m).log[k].id, At(h, m).log[k].value)
  }

  lemma YieldedLater(h: History, m: nat, id: Id, v: Value)
    requires HasYielded(h, m, id, v)
    ensures HasYielded(h, m + 1, id, v)
  {
    hide HasSaved;
    var c, n :| HasSaved(h, m, c, id, Outcome(Some(v), false), n);
    SavedLater(h, m, c, id, Outcome(Some(v), false), n);
  }

  lemma SavedLater(h: History, m: nat, c: nat, id: Id, o: Outcome, n: int)
    requires HasSaved(h, m, c, id, o, n)
    ensures HasSaved(h, m + 1, c, id, o, n)
  {
    hide HasReturned, SavesRun;
  }

  lemma NothingLoggedYet(h: History)
    ensures At(h, 0).log == []
  {
    assert h.actions[..0] == [];
  }

  /** Every value a Get ever takes from a run was returned without an error by the target of a run of that schedule. */
  lemma {:induction false} ValuesFromRunsAreReturned(h: History, m: nat, k: nat)
    requires m <= |h.actions| && k < |At(h, m).log| && At(h, m).log[k].Got? && At(h, m).log[k].reason.FromRun?
    ensures HasYielded(h, m, At(h, m).log[k].id, At(h, m).log[k].value)
    decreases m
  {
    NothingLoggedYet(h);
    if m > 0 {
      hide At, HasYielded, HandsOver;
      var before, a := At(h, m - 1), h.actions[m - 1];
      AtStep(h, m - 1);
      NextExtendsLog(before, a);
      var e := At(h, m).log[k];
      if k < |before.log| {
        assert before.log[k] == e;
        ValuesFromRunsAreReturned(h, m - 1, k);
      } else {
        hide Next;
        NewValuesAreHandedOver(before, a);
        assert FromResult(before, a, e);
        var get, r :| HandsOver(before, a, e.id, get, r) && Yields(r, e.value);
        HandedOverIsTold(h, m - 1, e.id, get, r, e.value);
      }
      YieldedLater(h, m - 1, e.id, e.value);
    }
  }

  // ----- Publication, age, and what is stored -----

  /** A value that a target returned without an error is published at the time of the clock; nothing else is. */
  lemma PublishDecides(s: System, t: Thread)
    requires Leads(s, t) && s.threads[t].stage.Publishing?
    ensures var o := s.threads[t].stage.outcome;
            var n := Next(s, Publish(t));
            if !o.failed && o.value.Some?
            then n.log == s.log + [Published(s.threads[t].id, CacheEntry(o.value.value, s.clock))]
            else n.log == s.log && n.cache == s.cache
  {
    hide CacheKey;
  }

  /** A Get takes what is held if it is young enough or no age is asked for, and otherwise goes on to refresh it. */
  lemma ReadDecides(h: History, m: nat, t: Thread, id: Id, maxAge: int, allowed: bool)
    requires m <= |h.actions| && OwnKeys(h.init) && t !in At(h, m).threads && id in At(h, m).store
    ensures var s := At(h, m);
            var n := Next(s, Read(t, id, maxAge, allowed));
            var held := Latest(s.log, id);
            if held.Some? && (maxAge <= 0 || s.clock - held.value.storedAt <= maxAge * 1000)
            then n == s.(log := s.log + [Got(id, held.value.value, Fresh(held.value.storedAt, s.clock, maxAge))])
            else n == s.(threads := s.threads[t := Missed(id, allowed, |s.log|)])
  {
    hide Execute, Latest;
    CacheIsLatest(h.init, h.clock, h.actions[..m]);
    assert HoldsLatest(h.init, At(h, m), id);
  }

  /** No value that Get calls fresh is older than was asked for. */
  lemma FreshValuesAreYoung(h: History, m: nat, k: nat)
    requires m <= |h.actions| && OwnKeys(h.init) && k < |At(h, m).log| && At(h, m).log[k].Got? && At(h, m).log[k].reason.Fresh?
    ensures var Got(id, v, Fresh(storedAt, now, maxAge)) := At(h, m).log[k];
            && (maxAge <= 0 || now - storedAt <= maxAge * 1000)
            && Latest(At(h, m).log[..k], id) == Some(CacheEntry(v, storedAt))
  {
    hide Execute, Latest;
    GetsAreTrue(h.init, h.clock, h.actions[..m]);
    assert GotFrom(At(h, m).log[..k], At(h, m).log[k]);
  }

  /** The save of a run, field by field. */
  lemma SaveStores(s: System, t: Thread, nextRunAt: int)
    requires Leads(s, t) && s.threads[t].stage.Saving?
    ensures var copy, id := s.threads[t].stage.s, s.threads[t].id;
            var n := Next(s, Save(t, nextRunAt));
            var spent := copy.maxRuns > 0 && copy.runCount + 1 >= copy.maxRuns;
            && n.store == s.store[id := Schedule(copy.kind, copy.realm, copy.maxRuns, copy.runCount + 1, copy.active && !spent, if spent then 0 else nextRunAt)]
            && Leads(n, t)
            && (if copy.active && !spent then n.threads[t].stage.Ending? else n.threads[t].stage.Unscheduling?)
  {
  }

  /** A Get that is refused a refresh, or is cancelled while it waits, takes the value it held, if it may. */
  lemma GivenUpGetIsAnswered(s: System, a: Action, id: Id, began: nat, heldAt: nat, allowed: bool, stale: Option<CacheEntry>)
    requires (a.Refuse? || a.Cancel?) && a.t in s.threads
    requires a.Refuse? ==> s.threads[a.t] == Refreshing(id, Get(began, heldAt, allowed, stale))
    requires a.Cancel? ==> s.threads[a.t].Follower? && s.threads[a.t].id == id && s.threads[a.t].get == Get(began, heldAt, allowed, stale)
    ensures var n := Next(s, a);
            && n.threads == s.threads - {a.t}
            && n.log == if allowed && stale.Some? then s.log + [Got(id, stale.value.value, Stale(began, heldAt, allowed, None))] else s.log
  {
  }

  /** A Get that goes on to refresh remembers what it was asked, when it began, and what is held now; so it does while it waits. */
  lemma RefreshRemembers(h: History, m: nat, t: Thread, id: Id, allowed: bool, began: nat)
    requires m <= |h.actions| && OwnKeys(h.init) && t in At(h, m).threads && At(h, m).threads[t] == Missed(id, allowed, began)
    ensures var s := At(h, m);
            var get := Get(began, |s.log|, allowed, Latest(s.log, id));
            var n := Next(s, ReadStale(t));
            && n == s.(threads := s.threads[t := Refreshing(id, get)])
            && t in Next(n, Begin(t, id)).threads
            && match Next(n, Begin(t, id)).threads[t]
               case Leader(i, c, stage, g) => id !in s.running && i == id && stage == Starting && g == get
               case Follower(i, c, g) => id in s.running && i == id && c == s.running[id] && g == get
               case _ => false
  {
    hide Execute, Latest;
    CacheIsLatest(h.init, h.clock, h.actions[..m]);
    assert HoldsLatest(h.init, At(h, m), id);
  }

  /** The end of a run tells the leader, closes the call and frees the id; a follower that wakes is told the same. */
  lemma EndTells(s: System, t: Thread)
    requires SingleFlight(s) && Leads(s, t) && s.threads[t].stage.Ending?
    ensures var Leader(id, c, Ending(r), _) := s.threads[t];
            var n := Next(s, End(t));
            && |n.log| >= |s.log| + 2 && n.log[..|s.log| + 2] == s.log + [Closed(id, c, r), Answered(c, r)]
            && n.running == s.running - {id} && n.threads == s.threads - {t} && n.store == s.store && n.cache == s.cache
            && c < |n.calls| && n.calls[c].result == Some(r)
  {
    hide Ended, FollowersLinked;
    LeaderIsOpen(s, t);
    var Leader(id, c, Ending(r), get) := s.threads[t];
    EndedFields(s, t);
    DeliverAppends(Ended(s, t), id, get, Some(r));
  }

  lemma EndedFields(s: System, t: Thread)
    requires Leads(s, t) && s.threads[t].stage.Ending? && s.threads[t].call < |s.calls|
    requires s.threads[t].id in s.running && s.running[s.threads[t].id] == s.threads[t].call
    ensures var Leader(id, c, Ending(r), _) := s.threads[t];
            Ended(s, t) == s.(calls := s.calls[c := Call(id, Some(r), |s.log|)], running := s.running - {id}, threads := s.threads - {t},
                              log := s.log + [Closed(id, c, r), Answered(c, r)])
  {
  }

  lemma WakeTells(s: System, t: Thread)
    requires t in s.threads && s.threads[t].Follower? && s.threads[t].call < |s.calls| && s.calls[s.threads[t].call].result.Some?
    ensures var Follower(_, c, _) := s.threads[t];
            var n := Next(s, Wake(t));
            && |n.log| > |s.log| && n.log[..|s.log| + 1] == s.log + [Answered(c, s.calls[c].result.value)]
            && n.threads == s.threads - {t} && n.calls == s.calls
  {
    var Follower(id, c, get) := s.threads[t];
    var r := s.calls[c].result.value;
    DeliverAppends(s.(threads := s.threads - {t}, log := s.log + [Answered(c, r)]), id, get, Some(r));
  }

  /** Before its target is called, a run stores the copy it has loaded. */
  lemma MarkStores(s: System, t: Thread)
    requires Leads(s, t) && s.threads[t].stage.Marking?
    ensures Next(s, Mark(t)).store == s.store[s.threads[t].id := s.threads[t].stage.s]
  {
  }

  /** A clear of a known schedule takes its value out of the cache. */
  lemma ClearForgets(s: System, id: Id)
    requires id in s.store
    ensures var n := Next(s, Clear(id)); Lookup(n, id) == None && n.log == s.log + [Cleared(id)] && n.store == s.store
  {
  }

  /** A Schedule call first takes the old job away, and goes on only with an active schedule that has runs left. */
  lemma PrepareDecides(s: System, t: Thread)
    requires t in s.threads && s.threads[t].Looked?
    ensures var Looked(id, copy, at) := s.threads[t];
            var n := Next(s, Prepare(t));
            && n.scheduled == s.scheduled - {id} && n.store == s.store
            && n.threads == if copy.active && (copy.maxRuns > 0 ==> copy.runCount < copy.maxRuns)
                            then s.threads[t := Adding(id, copy, at)] else s.threads - {t}
  {
  }

  /** Then it adds the job, and stores its copy with a next run time: always for a cron expression that fires again, and for an interval without one. */
  lemma AddDecides(s: System, t: Thread, next: int, fires: bool)
    requires t in s.threads && s.threads[t].Adding?
    ensures var Adding(id, copy, _) := s.threads[t];
            var n := Next(s, AddJob(t, next, fires));
            && n.scheduled == s.scheduled + {id} && n.threads == s.threads - {t}
            && n.store == if (copy.kind == Cron && fires) || (copy.kind == Interval && copy.nextRunAt == 0)
                          then s.store[id := copy.(nextRunAt := next)] else s.store
  {
  }
}

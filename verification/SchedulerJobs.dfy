/** Jobs of schedules that have made their last run, over all interleavings. */
module SchedulerJobs {
  import opened Basics
  import opened Scheduler
  import opened SchedulerRuns
  import opened SchedulerBudget

  /** The schedule is worth a job. */
  predicate Due(c: Schedule) {
    c.active && !Completed(c)
  }

  predicate LooksAhead(s: System, id: Id, t: Thread) {
    JobCopy(s, t).Some? && JobCopy(s, t).value.0 == id && Due(JobCopy(s, t).value.1)
  }

  /** A Schedule call has found the schedule worth a job, and has still to add it. */
  ghost predicate LookedAhead(s: System, id: Id) {
    exists t :: LooksAhead(s, id, t)
  }

  /** The stored schedule is inactive. */
  predicate Inactive(s: System, id: Id) {
    id in s.store && !s.store[id].active
  }

  ghost predicate Retired(s: System, id: Id) {
    Inactive(s, id) && id !in s.scheduled && !LookedAhead(s, id)
  }

  /** No job of the schedule in any later state. */
  ghost predicate NeverScheduledAfter(init: map<Id, Schedule>, clock: int, actions: seq<Action>, id: Id) {
    forall later: seq<Action> :: id !in Execute(init, clock, actions + later).scheduled
  }

  /** A leader stores what is active only while the stored schedule is. */
  lemma LeaderKeepsInactive(init: map<Id, Schedule>, s: System, a: Action, id: Id)
    requires Sane(init, s) && Inactive(s, id) && (a.Mark? || a.Save?)
    ensures Inactive(Next(s, a), id)
  {
    assert SaneBusy(init, s, a.t);
    if a.Save? && Leads(s, a.t) && s.threads[a.t].stage.Saving? { AfterRunCounts(s.threads[a.t].stage.s, a.nextRunAt); }
    hide Sane, SaneBusy, Completed, AfterRun;
  }

  /** Among Schedule's steps only the addition of a job stores anything. */
  lemma AddJobKeepsInactive(s: System, a: Action, id: Id)
    requires a.AddJob? && Inactive(s, id) && !LookedAhead(s, id) && AddingIsDue(s, a.t)
    ensures Inactive(Next(s, a), id)
  {
    hide Completed, Rewrites;
    assert !LooksAhead(s, id, a.t);
  }

  lemma NextKeepsInactive(init: map<Id, Schedule>, s: System, a: Action, id: Id)
    requires Sane(init, s) && Inactive(s, id) && !LookedAhead(s, id)
    ensures Inactive(Next(s, a), id)
  {
    if a.Mark? || a.Save? {
      LeaderKeepsInactive(init, s, a, id);
    } else if a.AddJob? {
      assert SaneJob(init, s, a.t);
      AddJobKeepsInactive(s, a, id);
    } else if QuietAction(a) {
      hide Next;
      QuietActionIsQuiet(s, a);
    } else {
      hide CacheKey, Completed, LookedAhead, Sane;
    }
  }

  /** Nobody begins to look ahead at an inactive schedule. */
  lemma NobodyLooksAhead(init: map<Id, Schedule>, s: System, a: Action, id: Id, t: Thread)
    requires Sane(init, s) && Inactive(s, id) && LooksAhead(Next(s, a), id, t)
    ensures LooksAhead(s, id, t)
  {
    assert SaneJob(init, s, t);
    hide Next, JobCopy, AddingIsDue, Sane, Completed;
    NextKeepsJobs(s, a, t);
  }

  lemma OnlyAddJobSchedules(s: System, a: Action, id: Id)
    requires id !in s.scheduled && id in Next(s, a).scheduled
    ensures a.AddJob? && a.t in s.threads && s.threads[a.t].Adding? && s.threads[a.t].id == id
  {
    if LeaderStep(a) {
      hide CacheKey, AfterRun, Completed;
    } else if Delivers(a) {
      hide ValueOf;
    } else {
      hide CacheKey, IsFresh, Lookup, Completed, Rewrites;
    }
  }

  lemma NextKeepsRetired(init: map<Id, Schedule>, s: System, a: Action, id: Id)
    requires Sane(init, s) && Retired(s, id)
    ensures Retired(Next(s, a), id)
  {
    hide Next, Sane, LooksAhead, Inactive;
    NextKeepsInactive(init, s, a, id);
    if LookedAhead(Next(s, a), id) {
      var t :| LooksAhead(Next(s, a), id, t);
      NobodyLooksAhead(init, s, a, id, t);
    }
    if id in Next(s, a).scheduled {
      OnlyAddJobSchedules(s, a, id);
      AddingLooksAhead(init, s, a.t);
    }
  }

  lemma AddingLooksAhead(init: map<Id, Schedule>, s: System, t: Thread)
    requires Sane(init, s) && t in s.threads && s.threads[t].Adding?
    ensures LooksAhead(s, s.threads[t].id, t)
  {
    assert SaneJob(init, s, t);
  }

  lemma {:induction false} RetiredStays(init: map<Id, Schedule>, clock: int, actions: seq<Action>, later: seq<Action>, id: Id)
    requires Retired(Execute(init, clock, actions), id)
    ensures Retired(Execute(init, clock, actions + later), id)
    decreases |later|
  {
    hide Next, Initial, Sane, SingleFlight, Retired;
    if later == [] {
      assert actions + later == actions;
    } else {
      var n := |later| - 1;
      var all := actions + later;
      assert all[..|all| - 1] == actions + later[..n] && all[|all| - 1] == later[n];
      RetiredStays(init, clock, actions, later[..n], id);
      RunsAreSane(init, clock, actions + later[..n]);
      NextKeepsRetired(init, Execute(init, clock, actions + later[..n]), later[n], id);
    }
  }

  lemma OneMore(init: map<Id, Schedule>, clock: int, actions: seq<Action>, a: Action)
    ensures Execute(init, clock, actions + [a]) == Next(Execute(init, clock, actions), a)
  {
    hide Next;
    assert (actions + [a])[..|actions|] == actions;
  }

  /** Whoever looks ahead can go on to add the job. */
  lemma LookerAddsJob(s: System, id: Id, t: Thread)
    requires LooksAhead(s, id, t)
    ensures id in Next(s, AddJob(t, 0, false)).scheduled || id in Next(Next(s, Prepare(t)), AddJob(t, 0, false)).scheduled
  {
    hide Completed, Rewrites;
  }

  lemma LookerIsHeard(init: map<Id, Schedule>, clock: int, actions: seq<Action>, id: Id, t: Thread)
    requires LooksAhead(Execute(init, clock, actions), id, t)
    ensures !NeverScheduledAfter(init, clock, actions, id)
  {
    hide Execute, Next, LooksAhead;
    var s := Execute(init, clock, actions);
    var add := AddJob(t, 0, false);
    LookerAddsJob(s, id, t);
    OneMore(init, clock, actions, add);
    OneMore(init, clock, actions, Prepare(t));
    OneMore(init, clock, actions + [Prepare(t)], add);
    assert actions + [Prepare(t)] + [add] == actions + [Prepare(t), add];
    assert id in Execute(init, clock, actions + [add]).scheduled || id in Execute(init, clock, actions + [Prepare(t), add]).scheduled;
  }

  /** An inactive schedule without a job stays without one if and only if no Schedule call has already looked at it. */
  lemma NoLaterJobIff(init: map<Id, Schedule>, clock: int, actions: seq<Action>, id: Id)
    requires Inactive(Execute(init, clock, actions), id) && id !in Execute(init, clock, actions).scheduled
    ensures NeverScheduledAfter(init, clock, actions, id) <==> !LookedAhead(Execute(init, clock, actions), id)
  {
    hide Execute, LooksAhead;
    var s := Execute(init, clock, actions);
    if LookedAhead(s, id) {
      var t :| LooksAhead(s, id, t);
      LookerIsHeard(init, clock, actions, id, t);
    } else {
      forall later: seq<Action> ensures id !in Execute(init, clock, actions + later).scheduled {
        RetiredStays(init, clock, actions, later, id);
      }
    }
  }

  // ----- The last run -----

  /** While a leader is about to unschedule, its schedule is inactive, or has been stored worth a job again. */
  predicate UnschedulerIsDone(s: System, t: Thread) {
    Leads(s, t) && s.threads[t].stage.Unscheduling? ==>
      var id := s.threads[t].id; id in s.store && (s.store[id].active ==> Due(s.store[id]))
  }

  /** A leader that is unscheduling now was doing so before, or has just saved its schedule inactive. */
  predicate WasUnscheduling(s: System, n: System, t: Thread) {
    Leads(n, t) && n.threads[t].stage.Unscheduling? ==> (Leads(s, t) && s.threads[t] == n.threads[t]) || Inactive(n, n.threads[t].id)
  }

  lemma UnschedulerByLeader(s: System, a: Action, t: Thread)
    requires LeaderStep(a)
    ensures WasUnscheduling(s, Next(s, a), t)
  {
    hide CacheKey, Completed, AfterRun;
  }

  lemma UnschedulerByJob(s: System, a: Action, t: Thread)
    requires JobStep(a)
    ensures WasUnscheduling(s, Next(s, a), t)
  {
    hide Completed, Rewrites, Inactive;
  }

  lemma UnschedulerByOther(s: System, a: Action, t: Thread)
    requires !LeaderStep(a) && !Delivers(a) && !JobStep(a)
    ensures WasUnscheduling(s, Next(s, a), t)
  {
    hide CacheKey, IsFresh, Lookup, Completed, Inactive;
  }

  lemma UnschedulerByDelivery(s: System, a: Action, t: Thread)
    requires Delivers(a)
    ensures WasUnscheduling(s, Next(s, a), t)
  {
    hide ValueOf, Inactive;
  }

  lemma UnschedulerBefore(s: System, a: Action, t: Thread)
    ensures WasUnscheduling(s, Next(s, a), t)
  {
    hide Next, WasUnscheduling;
    if LeaderStep(a) {
      UnschedulerByLeader(s, a, t);
    } else if Delivers(a) {
      UnschedulerByDelivery(s, a, t);
    } else if JobStep(a) {
      UnschedulerByJob(s, a, t);
    } else {
      UnschedulerByOther(s, a, t);
    }
  }

  /** Under a leader that is not running its target, only a Schedule call stores its schedule. */
  lemma StoredByOthers(init: map<Id, Schedule>, s: System, a: Action, t: Thread)
    requires SingleFlight(s) && Sane(init, s) && Leads(s, t) && BusyCopy(s, t).None? && s.threads[t].id in s.store
    ensures var id := s.threads[t].id;
            var n := Next(s, a);
            id in n.store && (n.store[id] == s.store[id] || Due(n.store[id]))
  {
    var id := s.threads[t].id;
    if a.Mark? || a.Save? {
      IdleLeaderIsAlone(s, t);
      assert !(BusyCopy(s, a.t).Some? && BusyCopy(s, a.t).value.0 == id);
      hide SingleFlight, Sane, AfterRun, Completed;
    } else if a.AddJob? {
      assert SaneJob(init, s, a.t);
      hide SingleFlight, Sane, Completed, Rewrites;
    } else if QuietAction(a) {
      hide Next;
      QuietActionIsQuiet(s, a);
    } else {
      hide CacheKey, Completed, Sane, SingleFlight;
    }
  }

  lemma NextKeepsUnschedulers(init: map<Id, Schedule>, s: System, a: Action, t: Thread)
    requires SingleFlight(s) && Sane(init, s) && UnschedulerIsDone(s, t)
    ensures UnschedulerIsDone(Next(s, a), t)
  {
    hide Next, Sane, SingleFlight, Completed;
    UnschedulerBefore(s, a, t);
    if Leads(s, t) && s.threads[t].stage.Unscheduling? { StoredByOthers(init, s, a, t); }
  }

  lemma {:induction false} RunsKeepUnschedulers(init: map<Id, Schedule>, clock: int, actions: seq<Action>, t: Thread)
    ensures UnschedulerIsDone(Execute(init, clock, actions), t)
    decreases |actions|
  {
    hide Next, Sane, SingleFlight;
    if actions != [] {
      hide UnschedulerIsDone;
      var before := actions[..|actions| - 1];
      RunsKeepUnschedulers(init, clock, before, t);
      RunsAreSane(init, clock, before);
      NextKeepsUnschedulers(init, Execute(init, clock, before), actions[|actions| - 1], t);
    }
  }

  /** The save that spends the budget deactivates the schedule, and its leader goes on to unschedule it. */
  lemma LastSaveUnschedules(s: System, t: Thread, nextRunAt: int)
    requires Leads(s, t) && s.threads[t].stage.Saving? && Completed(AfterRun(s.threads[t].stage.s, nextRunAt))
    ensures var n := Next(s, Save(t, nextRunAt));
            var id := s.threads[t].id;
            Inactive(n, id) && Completed(n.store[id]) && Leads(n, t) && n.threads[t].id == id && n.threads[t].stage.Unscheduling?
  {
    AfterRunCounts(s.threads[t].stage.s, nextRunAt);
    hide AfterRun, Completed;
  }

  lemma {:induction false} FreshThread(threads: set<Thread>) returns (u: Thread)
    ensures forall t :: t in threads ==> t < u
    decreases |threads|
  {
    if threads == {} {
      u := 0;
    } else {
      var t :| t in threads;
      var v := FreshThread(threads - {t});
      u := if v > t then v else t + 1;
      forall x | x in threads ensures x < u {
        assert x != t ==> x in threads - {t};
      }
    }
  }

  /** A stored schedule worth a job can get one: somebody only has to call Schedule. */
  lemma DueGetsJob(init: map<Id, Schedule>, clock: int, actions: seq<Action>, id: Id)
    requires var s := Execute(init, clock, actions); id in s.store && Due(s.store[id])
    ensures !NeverScheduledAfter(init, clock, actions, id)
  {
    hide Execute;
    var s := Execute(init, clock, actions);
    var u := FreshThread(s.threads.Keys);
    var look := Look(u, id);
    OneMore(init, clock, actions, look);
    assert LooksAhead(Next(s, look), id, u);
    LookerIsHeard(init, clock, actions + [look], id, u);
    var later: seq<Action> :| id in Execute(init, clock, actions + [look] + later).scheduled;
    assert actions + [look] + later == actions + ([look] + later);
  }

  /**
   * From the moment a run unschedules its spent (or otherwise inactive) schedule, the
   * schedule has no job in any later state, if and only if at that moment it is
   * stored inactive and no Schedule call is still to add its job.
   */
  lemma UnschedulingIsFinalIff(init: map<Id, Schedule>, clock: int, actions: seq<Action>, t: Thread)
    requires var s := Execute(init, clock, actions); Leads(s, t) && s.threads[t].stage.Unscheduling?
    ensures var s := Execute(init, clock, actions);
            var id := s.threads[t].id;
            NeverScheduledAfter(init, clock, actions + [Unschedule(t)], id) <==> Inactive(s, id) && !LookedAhead(s, id)
  {
    hide Execute, Completed;
    var s := Execute(init, clock, actions);
    var id := s.threads[t].id;
    RunsKeepUnschedulers(init, clock, actions, t);
    OneMore(init, clock, actions, Unschedule(t));
    UnscheduleKeepsRest(s, t);
    if Inactive(s, id) {
      NoLaterJobIff(init, clock, actions + [Unschedule(t)], id);
    } else {
      DueGetsJob(init, clock, actions + [Unschedule(t)], id);
    }
  }

  lemma UnscheduleKeepsRest(s: System, t: Thread)
    requires Leads(s, t) && s.threads[t].stage.Unscheduling?
    ensures var n := Next(s, Unschedule(t));
            var id := s.threads[t].id;
            n.store == s.store && id !in n.scheduled && (LookedAhead(n, id) <==> LookedAhead(s, id))
  {
    var n := Next(s, Unschedule(t));
    var id := s.threads[t].id;
    forall u ensures JobCopy(n, u) == JobCopy(s, u) { }
    hide JobCopy, Next, Completed;
    forall u ensures LooksAhead(n, id, u) <==> LooksAhead(s, id, u) { }
  }

  // ----- Schedule calls that straddle the last run -----

  /** A Schedule call looks at a schedule with one run left, and that run is made and saved. */
  function LastRun(id: Id): (run: seq<Action>)
    ensures |run| == 8
  {
    [Look(1, id), Prepare(1), Begin(0, id), Load(0), Mark(0), TargetReturns(0, Outcome(None, true)), Publish(0), Save(0, 0)]
  }

  /** One more run and the budget is spent. */
  predicate OneRunLeft(c: Schedule) {
    c.active && c.maxRuns > 0 && c.runCount == c.maxRuns - 1
  }

  function Late(init: map<Id, Schedule>, id: Id): map<Thread, Role>
    requires id in init
  {
    map[1 := Adding(id, init[id], 0)]
  }

  function Spent(c: Schedule): Schedule {
    c.(runCount := c.maxRuns, active := false, nextRunAt := 0)
  }

  /** After the last run has been saved. */
  function AfterLast(init: map<Id, Schedule>, clock: int, id: Id): System
    requires id in init
  {
    During(init[id := Spent(init[id])], clock, id, Unscheduling(Ran(Outcome(None, true), init[id].maxRuns)), Late(init, id), map[], {},
           [Started(id), Saved(id)])
  }

  lemma LastRunBegins(init: map<Id, Schedule>, clock: int, actions: seq<Action>, id: Id)
    requires LastRun(id) <= actions && id in init && Due(init[id])
    ensures Execute(init, clock, actions[..3]) == During(init, clock, id, Starting, Late(init, id), map[], {}, [])
  {
    hide Completed, CacheKey, Execute;
    assert actions[0] == LastRun(id)[0] && actions[1] == LastRun(id)[1] && actions[2] == LastRun(id)[2];
    NothingYet(init, clock, actions);
    ExecuteStep(init, clock, actions, 0);
    assert Execute(init, clock, actions[..1]) == Initial(init, clock).(threads := map[1 := Looked(id, init[id], 0)]);
    ExecuteStep(init, clock, actions, 1);
    assert Execute(init, clock, actions[..2]) == Initial(init, clock).(threads := Late(init, id));
    ExecuteStep(init, clock, actions, 2);
  }

  lemma NothingYet(init: map<Id, Schedule>, clock: int, actions: seq<Action>)
    ensures Execute(init, clock, actions[..0]) == Initial(init, clock)
  {
  }

  lemma LastRunIsSaved(init: map<Id, Schedule>, clock: int, actions: seq<Action>, id: Id)
    requires LastRun(id) <= actions && id in init && OneRunLeft(init[id])
    ensures Execute(init, clock, actions[..8]) == AfterLast(init, clock, id)
  {
    hide CacheKey, Execute;
    var run := LastRun(id);
    assert actions[..8] == run;
    assert actions[3..6] == run[3..6] && actions[6] == run[6] && actions[7] == run[7];
    LastRunBegins(init, clock, actions, id);
    RunUntilReturn(init, clock, actions, 3, id, Outcome(None, true), Late(init, id), map[], {}, []);
    ExecuteStep(init, clock, actions, 6);
    FailedPublish(init, clock, id);
    ExecuteStep(init, clock, actions, 7);
    SavesSpent(init, clock, id);
  }

  lemma FailedPublish(init: map<Id, Schedule>, clock: int, id: Id)
    requires id in init
    ensures Next(During(init, clock, id, Publishing(init[id], Outcome(None, true)), Late(init, id), map[], {}, [Started(id)]), Publish(0)) ==
            During(init, clock, id, Saving(init[id], Outcome(None, true)), Late(init, id), map[], {}, [Started(id)])
  {
    hide CacheKey;
  }

  lemma SavesSpent(init: map<Id, Schedule>, clock: int, id: Id)
    requires id in init && OneRunLeft(init[id])
    ensures Next(During(init, clock, id, Saving(init[id], Outcome(None, true)), Late(init, id), map[], {}, [Started(id)]), Save(0, 0)) ==
            AfterLast(init, clock, id)
  {
  }

  /** What the run answers its callers. */
  function LastResult(c: Schedule): RunResult {
    Ran(Outcome(None, true), c.maxRuns)
  }

  /** The Schedule call stores its copy while the run is about to unschedule: the stored schedule is active again. */
  lemma EarlyJobRevives(init: map<Id, Schedule>, clock: int, id: Id)
    requires id in init && OneRunLeft(init[id]) && init[id].kind == Cron
    ensures var run := LastRun(id) + [AddJob(1, 5, true)];
            var s := Execute(init, clock, run);
            && Leads(s, 0) && s.threads[0].stage.Unscheduling? && s.threads[0].id == id
            && !Inactive(s, id) && !LookedAhead(s, id)
            && !NeverScheduledAfter(init, clock, run + [Unschedule(0)], id)
  {
    var run := LastRun(id) + [AddJob(1, 5, true)];
    var s := Execute(init, clock, run);
    AfterEarlyJob(init, clock, id);
    hide Execute, CacheKey, Completed, LastRun;
    UnschedulingIsFinalIff(init, clock, run, 0);
  }

  lemma AfterEarlyJob(init: map<Id, Schedule>, clock: int, id: Id)
    requires id in init && OneRunLeft(init[id]) && init[id].kind == Cron
    ensures Execute(init, clock, LastRun(id) + [AddJob(1, 5, true)]) ==
            During(init[id := init[id].(nextRunAt := 5)], clock, id, Unscheduling(LastResult(init[id])), map[], map[], {id}, [Started(id), Saved(id)])
  {
    hide Execute;
    LastRunIsSaved(init, clock, LastRun(id), id);
    assert LastRun(id)[..8] == LastRun(id);
    OneMore(init, clock, LastRun(id), AddJob(1, 5, true));
    LateJobAdds(init, clock, id, init[id := Spent(init[id])], Unscheduling(LastResult(init[id])), [Started(id), Saved(id)]);
  }

  /** The run has unscheduled, and then the Schedule call adds its job. */
  function LateJob(id: Id): (run: seq<Action>)
    ensures |run| == 10
  {
    LastRun(id) + [Unschedule(0), AddJob(1, 5, true)]
  }

  lemma LateJobAdds(init: map<Id, Schedule>, clock: int, id: Id, store: map<Id, Schedule>, stage: Stage, log: seq<Event>)
    requires id in init && store == init[id := Spent(init[id])]
    ensures Next(During(store, clock, id, stage, Late(init, id), map[], {}, log), AddJob(1, 5, true)) ==
            During(if Rewrites(init[id], true) then init[id := init[id].(nextRunAt := 5)] else store,
                   clock, id, stage, map[], map[], {id}, log)
  {
    assert store[id := init[id].(nextRunAt := 5)] == init[id := init[id].(nextRunAt := 5)];
    assert Late(init, id)[0 := Leader(id, 0, stage, NoGet)] - {1} == map[0 := Leader(id, 0, stage, NoGet)];
  }

  lemma SpentUnschedules(store: map<Id, Schedule>, clock: int, id: Id, result: RunResult, others: map<Thread, Role>, log: seq<Event>)
    ensures Next(During(store, clock, id, Unscheduling(result), others, map[], {}, log), Unschedule(0)) ==
            During(store, clock, id, Ending(result), others, map[], {}, log)
  {
  }

  lemma AfterLateJob(init: map<Id, Schedule>, clock: int, id: Id, actions: seq<Action>)
    requires id in init && OneRunLeft(init[id]) && LateJob(id) <= actions
    ensures Execute(init, clock, actions[..10]) ==
            During(if Rewrites(init[id], true) then init[id := init[id].(nextRunAt := 5)] else init[id := Spent(init[id])],
                   clock, id, Ending(LastResult(init[id])), map[], map[], {id}, [Started(id), Saved(id)])
  {
    hide Execute, LastRun, Next, During, Rewrites;
    LastRunIsSaved(init, clock, actions, id);
    assert actions[8] == LateJob(id)[8] && actions[9] == LateJob(id)[9];
    ExecuteStep(init, clock, actions, 8);
    ExecuteStep(init, clock, actions, 9);
    var store := init[id := Spent(init[id])];
    var log := [Started(id), Saved(id)];
    SpentUnschedules(store, clock, id, LastResult(init[id]), Late(init, id), log);
    LateJobAdds(init, clock, id, store, Ending(LastResult(init[id])), log);
  }

  /** An interval whose copy has a next run time is not stored: its spent schedule is left with a job that no run will remove. */
  lemma LateJobIsLeftBehind(init: map<Id, Schedule>, clock: int, id: Id)
    requires id in init && OneRunLeft(init[id]) && init[id].kind == Interval && init[id].nextRunAt != 0
    ensures var s := Execute(init, clock, LateJob(id));
            && Inactive(s, id) && Completed(s.store[id]) && id in s.scheduled
            && forall u :: Leads(s, u) ==> !s.threads[u].stage.Unscheduling?
  {
    AfterLateJob(init, clock, id, LateJob(id));
    assert LateJob(id)[..10] == LateJob(id);
    hide Execute, LateJob, CacheKey;
  }

  /** The next run of the job that came late. */
  function RunsAgain(id: Id): seq<Action> {
    LateJob(id) + [End(0), Begin(2, id), Load(2)]
  }

  /** A cron schedule is stored as it was before its last run: it runs again, once more than its budget allows. */
  lemma LateJobRunsAgain(init: map<Id, Schedule>, clock: int, id: Id)
    requires id in init && OneRunLeft(init[id]) && init[id].kind == Cron
    ensures var s := Execute(init, clock, RunsAgain(id));
            && Starts(s.log, id) == 2 && init[id].runCount + Starts(s.log, id) == init[id].maxRuns + 1
            && id in s.store && s.store[id].active && s.store[id].runCount == init[id].runCount && Saves(s.log, id) == 1
    ensures !Clean(init, clock, RunsAgain(id))
  {
    var s := Execute(init, clock, RunsAgain(id));
    LateJobLog(init, clock, id);
    var c := LastResult(init[id]);
    LogOfTwoRuns(id, c);
    hide Execute, RunsAgain;
    if Clean(init, clock, RunsAgain(id)) { BudgetIsKept(init, clock, RunsAgain(id), id); }
  }

  lemma CountsOneMore(log: seq<Event>, k: nat, id: Id)
    requires k < |log|
    ensures Starts(log[..k + 1], id) == Starts(log[..k], id) + (if log[k] == Started(id) then 1 else 0)
    ensures Saves(log[..k + 1], id) == Saves(log[..k], id) + (if log[k] == Saved(id) then 1 else 0)
  {
    hide Latest;
    assert log[..k] + [log[k]] == log[..k + 1];
    AppendOne(log[..k], log[k], id);
  }

  function TwoRuns(id: Id, c: RunResult): seq<Event> {
    [Started(id), Saved(id), Closed(id, 0, c), Answered(0, c), Started(id)]
  }

  lemma LogOfTwoRuns(id: Id, c: RunResult)
    ensures Starts(TwoRuns(id, c), id) == 2 && Saves(TwoRuns(id, c), id) == 1
  {
    var log := TwoRuns(id, c);
    assert Starts(log[..0], id) == 0 && Saves(log[..0], id) == 0;
    hide Starts, Saves;
    CountsOneMore(log, 0, id);
    CountsOneMore(log, 1, id);
    CountsOneMore(log, 2, id);
    CountsOneMore(log, 3, id);
    CountsOneMore(log, 4, id);
    assert log[..5] == log;
  }

  /** The run ends, and the same schedule is loaded for the next one. */
  lemma EndsAndReloads(store: map<Id, Schedule>, clock: int, id: Id, c: RunResult)
    requires id in store && !Completed(store[id])
    ensures var s := During(store, clock, id, Ending(c), map[], map[], {id}, [Started(id), Saved(id)]);
            var n := Next(Next(Next(s, End(0)), Begin(2, id)), Load(2));
            n.store == store && n.log == TwoRuns(id, c)
  {
    hide Completed;
    var s := During(store, clock, id, Ending(c), map[], map[], {id}, [Started(id), Saved(id)]);
    var threads: map<Thread, Role> := map[];
    assert Next(s, End(0)) == System(clock, store, map[], [Call(id, Some(c), 2)], threads, map[], {id}, TwoRuns(id, c)[..4]);
  }

  lemma LateJobLog(init: map<Id, Schedule>, clock: int, id: Id)
    requires id in init && OneRunLeft(init[id]) && init[id].kind == Cron
    ensures var s := Execute(init, clock, RunsAgain(id));
            s.store == init[id := init[id].(nextRunAt := 5)] && s.log == TwoRuns(id, LastResult(init[id]))
  {
    hide Execute, LateJob, Next, During;
    var run := RunsAgain(id);
    AfterLateJob(init, clock, id, run);
    assert run[10] == End(0) && run[11] == Begin(2, id) && run[12] == Load(2);
    ExecuteStep(init, clock, run, 10);
    ExecuteStep(init, clock, run, 11);
    ExecuteStep(init, clock, run, 12);
    EndsAndReloads(init[id := init[id].(nextRunAt := 5)], clock, id, LastResult(init[id]));
    assert run[..13] == run;
  }
}

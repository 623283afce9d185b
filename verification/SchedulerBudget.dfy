/**
 * The run budget. A Schedule call stores the copy it looked at as a whole, so it can
 * undo runs that were counted since: the stored count is right in exactly those
 * histories in which no such call straddles the save of a run.
 */
module SchedulerBudget {
  import opened Basics
  import opened Scheduler
  import opened SchedulerRuns

  /** An id whose target is being executed. */
  ghost predicate IsBusy(s: System, id: Id) {
    exists t :: BusyCopy(s, t).Some? && BusyCopy(s, t).value.0 == id
  }

  /** Equal but for the next run time. */
  predicate Same(a: Schedule, b: Schedule) {
    a.(nextRunAt := b.nextRunAt) == b
  }

  /** The count of completed executions is the stored one. */
  predicate CountIsRight(init: map<Id, Schedule>, s: System, id: Id) {
    id in init && id in s.store ==> s.store[id].runCount == init[id].runCount + Saves(s.log, id)
  }

  /** The stored schedule of `id` after the runs saved so far. */
  ghost predicate StoreCounts(init: map<Id, Schedule>, s: System, id: Id) {
    && (id in s.store <==> id in init)
    && CountIsRight(init, s, id)
    && (id in s.store ==>
          && s.store[id].maxRuns == init[id].maxRuns
          && (Saves(s.log, id) > 0 && Completed(s.store[id]) ==> !s.store[id].active && s.store[id].nextRunAt == 0)
          && (Saves(s.log, id) > 0 && s.store[id].maxRuns > 0 ==> s.store[id].runCount <= s.store[id].maxRuns))
    && Starts(s.log, id) == Saves(s.log, id) + (if IsBusy(s, id) then 1 else 0)
  }

  /** A leader works on the stored schedule, which still has runs left. */
  ghost predicate CopyIsStored(s: System, t: Thread) {
    BusyCopy(s, t).Some? ==>
      var (id, copy) := BusyCopy(s, t).value;
      id in s.store && Same(copy, s.store[id]) && !Completed(copy)
  }

  /** A Schedule call works on what was stored when it looked, and still is unless a run was saved since. */
  ghost predicate LookIsTrue(init: map<Id, Schedule>, s: System, t: Thread) {
    JobCopy(s, t).Some? ==>
      var (id, copy, at) := JobCopy(s, t).value;
      && id in s.store && id in init && at <= |s.log|
      && copy.runCount == init[id].runCount + Saves(s.log[..at], id)
      && (Saves(s.log, id) == Saves(s.log[..at], id) ==> Same(copy, s.store[id]))
  }

  ghost predicate Counted(init: map<Id, Schedule>, s: System) {
    (forall id :: StoreCounts(init, s, id)) && (forall t :: CopyIsStored(s, t)) && (forall t :: LookIsTrue(init, s, t) && AddingIsDue(s, t))
  }

  lemma SavesGrow(log: seq<Event>, more: seq<Event>, id: Id)
    ensures Saves(log + more, id) >= Saves(log, id)
    decreases |more|
  {
    if more == [] {
      assert log + more == log;
    } else {
      var n := |more| - 1;
      SavesGrow(log, more[..n], id);
      assert log + more[..n] + [more[n]] == log + more;
      AppendOne(log + more[..n], more[n], id);
    }
  }

  /** Stored schedules change only where a run is saved, or in their next run time. */
  ghost predicate StoreFollows(s: System, n: System, id: Id) {
    && (id in n.store <==> id in s.store)
    && (id in s.store && Saves(n.log, id) == Saves(s.log, id) ==> Same(s.store[id], n.store[id]))
  }

  ghost predicate Follows(s: System, n: System) {
    forall id :: StoreFollows(s, n, id)
  }

  lemma LooksStayTrue(init: map<Id, Schedule>, s: System, a: Action)
    requires Counted(init, s) && Follows(s, Next(s, a))
    ensures var n := Next(s, a); forall t :: LookIsTrue(init, n, t) && AddingIsDue(n, t)
  {
    var n := Next(s, a);
    NextExtendsLog(s, a);
    hide Next, AddingIsDue, JobCopy, Saves, Completed;
    forall t ensures LookIsTrue(init, n, t) && AddingIsDue(n, t) {
      NextKeepsJobs(s, a, t);
      assert LookIsTrue(init, s, t);
      if JobCopy(n, t).Some? {
        var (id, copy, at) := JobCopy(n, t).value;
        assert StoreFollows(s, n, id) && StoreCounts(init, s, id);
        assert s.log[..|s.log|] == s.log;
        assert n.log[..at] == s.log[..at];
        assert n.log == s.log + n.log[|s.log|..] && s.log == s.log[..at] + s.log[at..];
        SavesGrow(s.log, n.log[|s.log|..], id);
        SavesGrow(s.log[..at], s.log[at..], id);
      }
    }
  }

  lemma BusySame(s: System, n: System, id: Id)
    requires forall t :: BusyCopy(n, t) == BusyCopy(s, t)
    ensures IsBusy(n, id) <==> IsBusy(s, id)
  {
    if IsBusy(s, id) {
      var t :| BusyCopy(s, t).Some? && BusyCopy(s, t).value.0 == id;
      assert BusyCopy(n, t) == BusyCopy(s, t);
    }
    if IsBusy(n, id) {
      var t :| BusyCopy(n, t).Some? && BusyCopy(n, t).value.0 == id;
      assert BusyCopy(n, t) == BusyCopy(s, t);
    }
  }

  /** Only thread `t` has changed what it executes. */
  ghost predicate OnlyBusy(s: System, n: System, t: Thread) {
    forall u :: u != t ==> BusyCopy(n, u) == BusyCopy(s, u)
  }

  /** A leader that is not executing means nobody executes its id. */
  lemma IdleLeaderIsAlone(s: System, t: Thread)
    requires SingleFlight(s) && Leads(s, t) && BusyCopy(s, t).None?
    ensures !IsBusy(s, s.threads[t].id)
  {
    hide RunningLinked, FollowersLinked;
  }

  lemma BusyOther(s: System, n: System, t: Thread, id: Id)
    requires OnlyBusy(s, n, t)
    requires (BusyCopy(s, t).Some? ==> BusyCopy(s, t).value.0 != id) && (BusyCopy(n, t).Some? ==> BusyCopy(n, t).value.0 != id)
    ensures IsBusy(n, id) <==> IsBusy(s, id)
  {
    hide BusyCopy;
    if IsBusy(s, id) {
      var u :| BusyCopy(s, u).Some? && BusyCopy(s, u).value.0 == id;
      assert BusyCopy(n, u) == BusyCopy(s, u);
    }
    if IsBusy(n, id) {
      var u :| BusyCopy(n, u).Some? && BusyCopy(n, u).value.0 == id;
      assert BusyCopy(n, u) == BusyCopy(s, u);
    }
  }

  /** The part of the invariant that is about stored schedules and running copies. */
  ghost predicate RunsCounted(init: map<Id, Schedule>, s: System) {
    (forall id :: StoreCounts(init, s, id)) && (forall t :: CopyIsStored(s, t))
  }

  /** Steps that run nothing: stored schedules change at most in their next run time. */
  lemma RewritingKeepsCounted(init: map<Id, Schedule>, s: System, n: System)
    requires RunsCounted(init, s) && (forall t :: BusyCopy(n, t) == BusyCopy(s, t))
    requires forall id :: Saves(n.log, id) == Saves(s.log, id) && Starts(n.log, id) == Starts(s.log, id)
    requires n.store.Keys == s.store.Keys
    requires forall id :: id in s.store ==> n.store[id] == s.store[id] || (Same(s.store[id], n.store[id]) && !Completed(n.store[id]))
    ensures RunsCounted(init, n) && Follows(s, n)
  {
    hide Starts, Saves, BusyCopy;
    forall id ensures StoreCounts(init, n, id) {
      assert StoreCounts(init, s, id);
      BusySame(s, n, id);
    }
    forall t ensures CopyIsStored(n, t) { assert CopyIsStored(s, t); }
  }

  lemma QuietCounts(s: System, n: System)
    requires QuietStep(s, n)
    ensures forall id :: Saves(n.log, id) == Saves(s.log, id) && Starts(n.log, id) == Starts(s.log, id)
  {
    hide Starts, Saves, Latest;
    var more := n.log[|s.log|..];
    assert n.log == s.log + more;
    forall id ensures Saves(n.log, id) == Saves(s.log, id) && Starts(n.log, id) == Starts(s.log, id) { AppendQuiet(s.log, more, id); }
  }

  lemma PublishCounts(s: System, n: System, e: Event)
    requires n.log == s.log + [e] && (e.Published? || e.Cleared?)
    ensures forall id :: Saves(n.log, id) == Saves(s.log, id) && Starts(n.log, id) == Starts(s.log, id)
  {
    hide Starts, Saves, Latest;
    forall id ensures Saves(n.log, id) == Saves(s.log, id) && Starts(n.log, id) == Starts(s.log, id) { AppendOne(s.log, e, id); }
  }

  /** Starting to execute is counted, and happens only while runs are left. */
  lemma StartKeepsCounted(init: map<Id, Schedule>, s: System, t: Thread, n: System)
    requires SingleFlight(s) && RunsCounted(init, s) && Leads(s, t) && BusyCopy(s, t).None?
    requires var id := s.threads[t].id;
             && id in s.store && !Completed(s.store[id]) && n.store == s.store && n.log == s.log + [Started(id)]
             && OnlyBusy(s, n, t) && BusyCopy(n, t) == Some((id, s.store[id]))
    ensures RunsCounted(init, n) && Follows(s, n)
  {
    hide Starts, Saves, Latest, Completed, BusyCopy, SingleFlight;
    var me := s.threads[t].id;
    IdleLeaderIsAlone(s, t);
    forall id ensures StoreCounts(init, n, id) && StoreFollows(s, n, id) {
      assert StoreCounts(init, s, id);
      AppendOne(s.log, Started(me), id);
      if id == me {
        assert IsBusy(n, id);
      } else {
        BusyOther(s, n, t, id);
      }
    }
    forall u ensures CopyIsStored(n, u) { assert CopyIsStored(s, u); }
  }

  /** A save counts one run and frees the id, whose only executor it was. */
  lemma SaveKeepsCounted(init: map<Id, Schedule>, s: System, t: Thread, nextRunAt: int, n: System)
    requires SingleFlight(s) && RunsCounted(init, s) && BusyCopy(s, t).Some?
    requires var (id, copy) := BusyCopy(s, t).value;
             && n.store == s.store[id := AfterRun(copy, nextRunAt)] && n.log == s.log + [Saved(id)]
             && OnlyBusy(s, n, t) && BusyCopy(n, t).None?
    ensures RunsCounted(init, n) && Follows(s, n)
  {
    var (me, copy) := BusyCopy(s, t).value;
    OneExecutor(s, n, t);
    AfterRunCounts(copy, nextRunAt);
    hide Starts, Saves, Latest, Completed, BusyCopy, SingleFlight, AfterRun;
    assert CopyIsStored(s, t);
    forall id ensures StoreCounts(init, n, id) && StoreFollows(s, n, id) {
      assert StoreCounts(init, s, id);
      AppendOne(s.log, Saved(me), id);
      if id == me {
        assert IsBusy(s, id) && !IsBusy(n, id);
      } else {
        BusyOther(s, n, t, id);
      }
    }
    forall u ensures CopyIsStored(n, u) {
      assert CopyIsStored(s, u);
    }
  }

  /** No other thread executes what `t` executes. */
  lemma OneExecutor(s: System, n: System, t: Thread)
    requires SingleFlight(s) && BusyCopy(s, t).Some? && OnlyBusy(s, n, t) && BusyCopy(n, t).None?
    ensures !IsBusy(n, BusyCopy(s, t).value.0)
    ensures forall u :: BusyCopy(n, u).Some? ==> BusyCopy(n, u).value.0 != BusyCopy(s, t).value.0
  {
    BusyIsUnique(s, t);
    hide SingleFlight, BusyCopy;
    forall u ensures BusyCopy(n, u).Some? ==> BusyCopy(n, u).value.0 != BusyCopy(s, t).value.0 {
      assert u != t ==> BusyCopy(n, u) == BusyCopy(s, u);
    }
  }

  lemma LoadKeepsCounted(init: map<Id, Schedule>, s: System, t: Thread)
    requires SingleFlight(s) && RunsCounted(init, s) && Leads(s, t) && s.threads[t].stage.Starting?
    ensures RunsCounted(init, LoadSchedule(s, t)) && Follows(s, LoadSchedule(s, t))
  {
    hide RunsCounted, SingleFlight, Completed, Follows;
    var n := LoadSchedule(s, t);
    var id := s.threads[t].id;
    if id in s.store && !Completed(s.store[id]) {
      StartKeepsCounted(init, s, t, n);
    } else {
      RewritingKeepsCounted(init, s, n);
    }
  }

  lemma MarkKeepsCounted(init: map<Id, Schedule>, s: System, t: Thread)
    requires RunsCounted(init, s) && Leads(s, t) && s.threads[t].stage.Marking?
    ensures RunsCounted(init, MarkRunning(s, t)) && Follows(s, MarkRunning(s, t))
  {
    var n := MarkRunning(s, t);
    assert CopyIsStored(s, t);
    hide RunsCounted, Follows, Completed;
    RewritingKeepsCounted(init, s, n);
  }

  lemma SaveStepKeepsCounted(init: map<Id, Schedule>, s: System, t: Thread, nextRunAt: int)
    requires SingleFlight(s) && RunsCounted(init, s) && Leads(s, t) && s.threads[t].stage.Saving?
    ensures RunsCounted(init, SaveSchedule(s, t, nextRunAt)) && Follows(s, SaveSchedule(s, t, nextRunAt))
  {
    hide RunsCounted, SingleFlight, AfterRun, Follows;
    SaveKeepsCounted(init, s, t, nextRunAt, SaveSchedule(s, t, nextRunAt));
  }

  lemma PublishStepKeepsCounted(init: map<Id, Schedule>, s: System, t: Thread)
    requires RunsCounted(init, s) && Leads(s, t) && s.threads[t].stage.Publishing?
    ensures RunsCounted(init, PublishResult(s, t)) && Follows(s, PublishResult(s, t))
  {
    hide RunsCounted, CacheKey, Follows;
    var n := PublishResult(s, t);
    var Leader(id, _, Publishing(copy, outcome), _) := s.threads[t];
    forall u ensures BusyCopy(n, u) == BusyCopy(s, u) { }
    if !(outcome.failed || outcome.value.None?) { PublishCounts(s, n, Published(id, CacheEntry(outcome.value.value, s.clock))); }
    RewritingKeepsCounted(init, s, n);
  }

  // ----- Schedule's own write -----

  /** A Schedule call is about to store the copy of thread `t`, and a run was saved since it looked. */
  predicate Straddles(s: System, a: Action) {
    && a.AddJob? && a.t in s.threads && s.threads[a.t].Adding?
    && var Adding(id, copy, at) := s.threads[a.t];
       && Rewrites(copy, a.fires) && at <= |s.log| && Saves(s.log, id) > Saves(s.log[..at], id)
  }

  /** The copy of a call that does not straddle a save is the stored schedule. */
  lemma CopyIsFresh(init: map<Id, Schedule>, s: System, a: Action)
    requires Counted(init, s) && a.AddJob? && a.t in s.threads && s.threads[a.t].Adding? && !Straddles(s, a)
    ensures var Adding(id, copy, _) := s.threads[a.t];
            Rewrites(copy, a.fires) ==> id in s.store && Same(copy, s.store[id]) && !Completed(copy)
  {
    hide Saves, Completed;
    assert LookIsTrue(init, s, a.t) && AddingIsDue(s, a.t);
    var Adding(id, _, at) := s.threads[a.t];
    assert s.log == s.log[..at] + s.log[at..];
    SavesGrow(s.log[..at], s.log[at..], id);
  }

  lemma AddKeepsCounted(init: map<Id, Schedule>, s: System, a: Action)
    requires Counted(init, s) && a.AddJob? && a.t in s.threads && s.threads[a.t].Adding? && !Straddles(s, a)
    ensures RunsCounted(init, Next(s, a)) && Follows(s, Next(s, a))
  {
    CopyIsFresh(init, s, a);
    var n := Next(s, a);
    forall u ensures BusyCopy(n, u) == BusyCopy(s, u) { }
    assert RunsCounted(init, s);
    hide Counted, RunsCounted, Follows, Straddles, BusyCopy, Completed, Rewrites;
    RewritingKeepsCounted(init, s, n);
  }

  lemma ClearKeepsCounted(init: map<Id, Schedule>, s: System, id: Id)
    requires RunsCounted(init, s) && id in s.store
    ensures RunsCounted(init, Next(s, Clear(id))) && Follows(s, Next(s, Clear(id)))
  {
    hide RunsCounted, CacheKey, Follows;
    var n := Next(s, Clear(id));
    forall u ensures BusyCopy(n, u) == BusyCopy(s, u) { }
    PublishCounts(s, n, Cleared(id));
    RewritingKeepsCounted(init, s, n);
  }

  lemma QuietKeepsCounted(init: map<Id, Schedule>, s: System, a: Action)
    requires RunsCounted(init, s) && QuietAction(a)
    ensures RunsCounted(init, Next(s, a)) && Follows(s, Next(s, a))
  {
    hide Next, RunsCounted, Follows;
    QuietActionIsQuiet(s, a);
    QuietCounts(s, Next(s, a));
    RewritingKeepsCounted(init, s, Next(s, a));
  }

  lemma NextKeepsRunsCounted(init: map<Id, Schedule>, s: System, a: Action)
    requires SingleFlight(s) && Counted(init, s) && !Straddles(s, a)
    ensures RunsCounted(init, Next(s, a)) && Follows(s, Next(s, a))
  {
    assert RunsCounted(init, s);
    hide Counted, RunsCounted, SingleFlight, LoadSchedule, MarkRunning, PublishResult, SaveSchedule, AddScheduled, CacheKey, Follows, Straddles;
    RewritingKeepsCounted(init, s, s);
    match a {
      case Load(t) => if Leads(s, t) && s.threads[t].stage.Starting? { LoadKeepsCounted(init, s, t); }
      case Mark(t) => if Leads(s, t) && s.threads[t].stage.Marking? { MarkKeepsCounted(init, s, t); }
      case Publish(t) => if Leads(s, t) && s.threads[t].stage.Publishing? { PublishStepKeepsCounted(init, s, t); }
      case Save(t, next) => if Leads(s, t) && s.threads[t].stage.Saving? { SaveStepKeepsCounted(init, s, t, next); }
      case AddJob(t, _, _) => if t in s.threads && s.threads[t].Adding? { AddKeepsCounted(init, s, a); }
      case Clear(id) => if id in s.store { ClearKeepsCounted(init, s, id); }
      case _ =>
        hide Next;
        QuietKeepsCounted(init, s, a);
    }
  }

  /** Every step keeps the counts, unless a Schedule call straddles the save of a run. */
  lemma NextKeepsCounted(init: map<Id, Schedule>, s: System, a: Action)
    requires SingleFlight(s) && Counted(init, s) && !Straddles(s, a)
    ensures Counted(init, Next(s, a))
  {
    hide Next, SingleFlight, StoreCounts, CopyIsStored, LookIsTrue, Straddles, Follows;
    NextKeepsRunsCounted(init, s, a);
    LooksStayTrue(init, s, a);
  }

  /** The write that straddles a save leaves a count that is too low. */
  lemma StraddlingMiscounts(init: map<Id, Schedule>, s: System, a: Action)
    requires Counted(init, s) && Straddles(s, a)
    ensures !CountIsRight(init, Next(s, a), s.threads[a.t].id)
  {
    hide Saves;
    assert LookIsTrue(init, s, a.t);
  }

  // ----- Whole histories -----

  /** No Schedule call of this history stores its copy after a run was saved that it had not seen. */
  ghost predicate Clean(init: map<Id, Schedule>, clock: int, actions: seq<Action>) {
    forall k :: 0 <= k < |actions| ==> !Straddles(Execute(init, clock, actions[..k]), actions[k])
  }

  lemma CleanPrefix(init: map<Id, Schedule>, clock: int, actions: seq<Action>, n: nat)
    requires Clean(init, clock, actions) && n <= |actions|
    ensures Clean(init, clock, actions[..n])
  {
    hide Execute, Straddles;
    forall k | 0 <= k < n ensures !Straddles(Execute(init, clock, actions[..n][..k]), actions[..n][k]) {
      assert actions[..n][..k] == actions[..k];
    }
  }

  lemma InitialIsCounted(init: map<Id, Schedule>, clock: int)
    ensures Counted(init, Initial(init, clock))
  {
    forall id ensures StoreCounts(init, Initial(init, clock), id) {
      assert !IsBusy(Initial(init, clock), id);
    }
  }

  lemma {:induction false} RunsAreCounted(init: map<Id, Schedule>, clock: int, actions: seq<Action>)
    requires Clean(init, clock, actions)
    ensures SingleFlight(Execute(init, clock, actions)) && Counted(init, Execute(init, clock, actions))
    decreases |actions|
  {
    hide Counted, SingleFlight, Next, Initial, Straddles;
    RunsKeepFlight(init, clock, actions);
    if actions == [] {
      InitialIsCounted(init, clock);
    } else {
      var n := |actions| - 1;
      var before := actions[..n];
      CleanPrefix(init, clock, actions, n);
      RunsAreCounted(init, clock, before);
      assert !Straddles(Execute(init, clock, actions[..n]), actions[n]);
      NextKeepsCounted(init, Execute(init, clock, before), actions[n]);
    }
  }

  /** At every moment of the history, every stored count is right. */
  ghost predicate AlwaysRight(init: map<Id, Schedule>, clock: int, actions: seq<Action>) {
    forall k, id :: 0 <= k <= |actions| ==> CountIsRight(init, Execute(init, clock, actions[..k]), id)
  }

  /**
   * At every moment each stored count is the number of completed executions, if and
   * only if no Schedule call has straddled the save of a run.
   */
  lemma CountsAreRightIffClean(init: map<Id, Schedule>, clock: int, actions: seq<Action>)
    ensures AlwaysRight(init, clock, actions) <==> Clean(init, clock, actions)
  {
    hide Execute, Straddles, CountIsRight;
    if Clean(init, clock, actions) {
      forall k, id | 0 <= k <= |actions| ensures CountIsRight(init, Execute(init, clock, actions[..k]), id) {
        CleanPrefix(init, clock, actions, k);
        RunsAreCounted(init, clock, actions[..k]);
        assert StoreCounts(init, Execute(init, clock, actions[..k]), id);
      }
    } else {
      var k, id := FirstMiscount(init, clock, actions);
    }
  }

  lemma {:induction false} FirstMiscount(init: map<Id, Schedule>, clock: int, actions: seq<Action>) returns (k: nat, id: Id)
    requires !Clean(init, clock, actions)
    ensures k <= |actions| && !CountIsRight(init, Execute(init, clock, actions[..k]), id)
    decreases |actions|
  {
    hide Execute, Counted, CountIsRight;
    var n := |actions| - 1;
    var before := actions[..n];
    if Clean(init, clock, before) {
      LastStraddles(init, clock, actions);
      RunsAreCounted(init, clock, before);
      var s := Execute(init, clock, before);
      StraddlingMiscounts(init, s, actions[n]);
      ExecuteStep(init, clock, actions, n);
      k, id := n + 1, s.threads[actions[n].t].id;
    } else {
      k, id := FirstMiscount(init, clock, before);
      assert before[..k] == actions[..k];
    }
  }

  lemma LastStraddles(init: map<Id, Schedule>, clock: int, actions: seq<Action>)
    requires !Clean(init, clock, actions) && actions != [] && Clean(init, clock, actions[..|actions| - 1])
    ensures Straddles(Execute(init, clock, actions[..|actions| - 1]), actions[|actions| - 1])
  {
    hide Execute, Straddles;
    var n := |actions| - 1;
    forall k | 0 <= k < n ensures !Straddles(Execute(init, clock, actions[..k]), actions[k]) {
      assert actions[..n][..k] == actions[..k] && actions[..n][k] == actions[k];
    }
  }

  /**
   * The budget of a schedule over every history of cron, interval and manual runs in
   * which no Schedule call straddles a save: its target starts at most as often as
   * runs were left, the stored count is the number of completed executions, and a
   * schedule that has used its budget is inactive with no next run.
   */
  lemma BudgetIsKept(init: map<Id, Schedule>, clock: int, actions: seq<Action>, id: Id)
    requires Clean(init, clock, actions) && id in init && init[id].maxRuns > 0
    ensures var s := Execute(init, clock, actions);
            && id in s.store && s.store[id].runCount == init[id].runCount + Saves(s.log, id)
            && (Starts(s.log, id) == 0 || init[id].runCount + Starts(s.log, id) <= init[id].maxRuns)
            && (Saves(s.log, id) > 0 && Completed(s.store[id]) ==> !s.store[id].active && s.store[id].nextRunAt == 0)
  {
    RunsAreCounted(init, clock, actions);
    hide Execute, SingleFlight, Starts, Saves;
    var s := Execute(init, clock, actions);
    assert StoreCounts(init, s, id);
    if IsBusy(s, id) {
      var t :| BusyCopy(s, t).Some? && BusyCopy(s, t).value.0 == id;
      assert CopyIsStored(s, t);
    }
  }

  lemma {:induction false} StartsGrow(log: seq<Event>, more: seq<Event>, id: Id)
    ensures Starts(log + more, id) >= Starts(log, id)
    decreases |more|
  {
    if more == [] {
      assert log + more == log;
    } else {
      var n := |more| - 1;
      StartsGrow(log, more[..n], id);
      assert log + more[..n] + [more[n]] == log + more;
      AppendOne(log + more[..n], more[n], id);
    }
  }

  /** Once the budget is used up, no later action of such a history starts the target again. */
  lemma ExhaustedNeverRuns(init: map<Id, Schedule>, clock: int, actions: seq<Action>, later: seq<Action>, id: Id)
    requires Clean(init, clock, actions + later) && id in init && init[id].maxRuns > 0
    requires id in Execute(init, clock, actions).store && Completed(Execute(init, clock, actions).store[id])
    ensures Starts(Execute(init, clock, actions + later).log, id) == Starts(Execute(init, clock, actions).log, id)
  {
    hide Execute, Clean;
    CleanPrefix(init, clock, actions + later, |actions|);
    assert (actions + later)[..|actions|] == actions;
    RunsAreCounted(init, clock, actions);
    var s := Execute(init, clock, actions);
    assert StoreCounts(init, s, id);
    BudgetIsKept(init, clock, actions + later, id);
    var more := LogExtends(init, clock, actions, later);
    StartsGrow(s.log, more, id);
  }
}

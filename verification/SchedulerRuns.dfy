/** What every history of the scheduler keeps, whatever its Schedule calls write. */
module SchedulerRuns {
  import opened Basics
  import opened Scheduler

  /** What it takes to be a quiet step, one thread at a time. */
  lemma QuietByThread(s: System, n: System, t: Thread, more: seq<Event>)
    requires n.store == s.store && n.cache == s.cache && n.log == s.log + more
    requires forall e :: e in more ==> QuietEvent(e)
    requires (forall u :: u != t ==> RoleOf(n, u) == RoleOf(s, u)) && BusyCopy(n, t) == BusyCopy(s, t)
    ensures QuietStep(s, n)
  {
    assert n.log[|s.log|..] == more;
    forall u ensures BusyCopy(n, u) == BusyCopy(s, u) {
      if u != t { assert RoleOf(n, u) == RoleOf(s, u); }
    }
  }

  /** What Deliver may append. */
  function Delivered(id: Id, get: Getter, result: Option<RunResult>): seq<Event> {
    match (get, ValueOf(result))
    case (NoGet, _) => []
    case (Get(began, _, _, _), Some(v)) => [Got(id, v, FromRun(began))]
    case (Get(began, heldAt, allowed, stale), None) =>
      if allowed && stale.Some? then [Got(id, stale.value.value, Stale(began, heldAt, allowed, result))] else []
  }

  lemma DeliverAppends(s: System, id: Id, get: Getter, result: Option<RunResult>)
    ensures Deliver(s, id, get, result) == s.(log := s.log + Delivered(id, get, result))
    ensures forall e :: e in Delivered(id, get, result) ==> QuietEvent(e)
  {
    assert s.log + [] == s.log;
  }

  /** Steps that may end a Get. */
  predicate Delivers(a: Action) {
    a.End? || a.Wake? || a.Cancel? || a.Refuse?
  }

  lemma DeliveryIsQuiet(s: System, a: Action)
    requires a.Wake? || a.Cancel? || a.Refuse?
    ensures QuietStep(s, Next(s, a))
  {
    hide Deliver, QuietStep;
    var n := Next(s, a);
    assert s.log + [] == s.log;
    if n == s {
      QuietByThread(s, n, a.t, []);
    } else {
      match a {
        case Wake(t) =>
          var Follower(id, c, get) := s.threads[t];
          var result := s.calls[c].result.value;
          DeliverAppends(s.(threads := s.threads - {t}, log := s.log + [Answered(c, result)]), id, get, Some(result));
          assert n.log == s.log + ([Answered(c, result)] + Delivered(id, get, Some(result)));
          QuietByThread(s, n, t, [Answered(c, result)] + Delivered(id, get, Some(result)));
        case Cancel(t) =>
          DeliverAppends(s.(threads := s.threads - {t}), s.threads[t].id, s.threads[t].get, None);
          QuietByThread(s, n, t, Delivered(s.threads[t].id, s.threads[t].get, None));
        case Refuse(t) =>
          DeliverAppends(s.(threads := s.threads - {t}), s.threads[t].id, s.threads[t].get, None);
          QuietByThread(s, n, t, Delivered(s.threads[t].id, s.threads[t].get, None));
      }
    }
  }

  lemma EndIsQuiet(s: System, t: Thread)
    requires Leads(s, t) && s.threads[t].stage.Ending? && s.threads[t].call < |s.calls|
    ensures QuietStep(s, EndRun(s, t))
  {
    hide Deliver, QuietStep;
    var Leader(id, c, Ending(result), get) := s.threads[t];
    var more := [Closed(id, c, result), Answered(c, result)];
    DeliverAppends(Ended(s, t), id, get, Some(result));
    assert EndRun(s, t).log == s.log + (more + Delivered(id, get, Some(result)));
    QuietByThread(s, EndRun(s, t), t, more + Delivered(id, get, Some(result)));
  }

  lemma ReadIsQuiet(s: System, a: Action)
    requires a.Read? || a.ReadStale? || a.Tick?
    ensures QuietStep(s, Next(s, a))
  {
    hide QuietStep, IsFresh, Lookup;
    var n := Next(s, a);
    assert s.log + [] == s.log;
    QuietByThread(s, n, if a.Tick? then 0 else a.t, if n.log == s.log then [] else [n.log[|s.log|]]);
  }

  lemma JobIsQuiet(s: System, a: Action)
    requires a.Look? || a.Prepare? || a.TargetReturns? || a.Unschedule?
    ensures QuietStep(s, Next(s, a))
  {
    hide QuietStep, Completed;
    assert s.log + [] == s.log;
    QuietByThread(s, Next(s, a), a.t, []);
  }

  lemma BeginIsQuiet(s: System, t: Thread, id: Id, get: Getter)
    requires t in s.threads ==> s.threads[t].Refreshing?
    ensures QuietStep(s, BeginRun(s, t, id, get))
  {
    hide QuietStep;
    assert s.log + [] == s.log;
    QuietByThread(s, BeginRun(s, t, id, get), t, []);
  }

  lemma QuietActionIsQuiet(s: System, a: Action)
    requires QuietAction(a)
    ensures QuietStep(s, Next(s, a))
  {
    hide QuietStep, BeginRun, EndRun, WakeFollower;
    match a {
      case Wake(_) => DeliveryIsQuiet(s, a);
      case Cancel(_) => DeliveryIsQuiet(s, a);
      case Refuse(_) => DeliveryIsQuiet(s, a);
      case Begin(t, id) =>
        if t !in s.threads {
          BeginIsQuiet(s, t, id, NoGet);
        } else if s.threads[t].Refreshing? {
          BeginIsQuiet(s, t, s.threads[t].id, s.threads[t].get);
        } else {
          NothingIsQuiet(s);
        }
      case End(t) =>
        if Leads(s, t) && s.threads[t].stage.Ending? && s.threads[t].call < |s.calls| { EndIsQuiet(s, t); } else { NothingIsQuiet(s); }
      case Read(_, _, _, _) => ReadIsQuiet(s, a);
      case ReadStale(_) => ReadIsQuiet(s, a);
      case Tick(_) => ReadIsQuiet(s, a);
      case _ => JobIsQuiet(s, a);
    }
  }

  lemma NothingIsQuiet(s: System)
    ensures QuietStep(s, s)
  {
  }

  // ----- Single flight in every history -----

  lemma {:induction false} RunsKeepFlight(init: map<Id, Schedule>, clock: int, actions: seq<Action>)
    ensures SingleFlight(Execute(init, clock, actions))
    decreases |actions|
  {
    hide Next;
    if actions != [] {
      hide SingleFlight;
      var before := actions[..|actions| - 1];
      RunsKeepFlight(init, clock, before);
      NextKeepsFlight(Execute(init, clock, before), actions[|actions| - 1]);
    }
  }

  lemma ExecuteStep(init: map<Id, Schedule>, clock: int, actions: seq<Action>, k: nat)
    requires k < |actions|
    ensures Execute(init, clock, actions[..k + 1]) == Next(Execute(init, clock, actions[..k]), actions[k])
  {
    hide Next;
    assert actions[..k + 1][..k] == actions[..k];
  }

  lemma NextExtendsLog(s: System, a: Action)
    ensures |s.log| <= |Next(s, a).log| && Next(s, a).log[..|s.log|] == s.log
  {
    if QuietAction(a) {
      hide Next;
      QuietActionIsQuiet(s, a);
    }
  }

  lemma {:induction false} LogExtends(init: map<Id, Schedule>, clock: int, actions: seq<Action>, later: seq<Action>) returns (more: seq<Event>)
    ensures Execute(init, clock, actions + later).log == Execute(init, clock, actions).log + more
    decreases |later|
  {
    hide Next, Initial;
    if later == [] {
      assert actions + later == actions;
      more := [];
    } else {
      var n := |later| - 1;
      var early := LogExtends(init, clock, actions, later[..n]);
      var all := actions + later;
      assert all[..|all| - 1] == actions + later[..n];
      var before := Execute(init, clock, actions + later[..n]);
      NextExtendsLog(before, later[n]);
      var after := Next(before, later[n]);
      more := early + after.log[|before.log|..];
    }
  }

  // ----- Schedule calls under way -----

  /** The copy a Schedule call works on, and the log position at which it looked. */
  function JobCopy(s: System, t: Thread): Option<(Id, Schedule, nat)> {
    match RoleOf(s, t)
    case Some(Looked(id, copy, at)) => Some((id, copy, at))
    case Some(Adding(id, copy, at)) => Some((id, copy, at))
    case _ => None
  }

  /** A Schedule call was under way before with the same copy, or has just looked. */
  predicate JobFrom(s: System, n: System, t: Thread) {
    match JobCopy(n, t)
    case None => true
    case Some(j) => JobCopy(s, t) == Some(j) || (j.0 in s.store && j.1 == s.store[j.0] && j.2 == |s.log|)
  }

  /** Only an active schedule with runs left is about to get a job. */
  predicate AddingIsDue(s: System, t: Thread) {
    match RoleOf(s, t)
    case Some(Adding(_, copy, _)) => copy.active && !Completed(copy)
    case _ => true
  }

  /** Steps that do not belong to a Schedule call. */
  lemma LeaderKeepsJobs(s: System, a: Action, t: Thread)
    requires LeaderStep(a) && AddingIsDue(s, t)
    ensures JobFrom(s, Next(s, a), t) && AddingIsDue(Next(s, a), t)
  {
    hide Completed, CacheKey, AfterRun;
  }

  lemma DeliveryKeepsJobs(s: System, a: Action, t: Thread)
    requires Delivers(a) && AddingIsDue(s, t)
    ensures JobFrom(s, Next(s, a), t) && AddingIsDue(Next(s, a), t)
  {
    hide Completed, ValueOf;
  }

  lemma ScheduleKeepsJobs(s: System, a: Action, t: Thread)
    requires JobStep(a) && AddingIsDue(s, t)
    ensures JobFrom(s, Next(s, a), t) && AddingIsDue(Next(s, a), t)
  {
    hide Completed, Rewrites;
  }

  lemma OthersKeepJobs(s: System, a: Action, t: Thread)
    requires !LeaderStep(a) && !Delivers(a) && !JobStep(a) && AddingIsDue(s, t)
    ensures JobFrom(s, Next(s, a), t) && AddingIsDue(Next(s, a), t)
  {
    hide Completed, CacheKey, IsFresh, Lookup;
  }

  lemma NextKeepsJobs(s: System, a: Action, t: Thread)
    requires AddingIsDue(s, t)
    ensures JobFrom(s, Next(s, a), t) && AddingIsDue(Next(s, a), t)
  {
    hide Next, JobFrom, AddingIsDue;
    if LeaderStep(a) {
      LeaderKeepsJobs(s, a, t);
    } else if Delivers(a) {
      DeliveryKeepsJobs(s, a, t);
    } else if JobStep(a) {
      ScheduleKeepsJobs(s, a, t);
    } else {
      OthersKeepJobs(s, a, t);
    }
  }

  // ----- What every copy of a schedule has in common -----

  /** The fixed fields of a schedule, and a count that never falls below the initial one. */
  predicate SaneCopy(init: map<Id, Schedule>, id: Id, c: Schedule) {
    && id in init && c.kind == init[id].kind && c.realm == init[id].realm && c.maxRuns == init[id].maxRuns
    && c.runCount >= init[id].runCount
  }

  predicate SaneStore(init: map<Id, Schedule>, s: System, id: Id) {
    (id in s.store <==> id in init) && (id in s.store ==> SaneCopy(init, id, s.store[id]))
  }

  /** A run works on a copy with runs left, and an active one only while the stored schedule is active. */
  predicate SaneBusy(init: map<Id, Schedule>, s: System, t: Thread) {
    match BusyCopy(s, t)
    case None => true
    case Some((id, copy)) =>
      SaneCopy(init, id, copy) && !Completed(copy) && id in s.store && (copy.active ==> s.store[id].active)
  }

  predicate SaneJob(init: map<Id, Schedule>, s: System, t: Thread) {
    AddingIsDue(s, t) && (JobCopy(s, t).Some? ==> SaneCopy(init, JobCopy(s, t).value.0, JobCopy(s, t).value.1))
  }

  ghost predicate SaneRuns(init: map<Id, Schedule>, s: System) {
    (forall id :: SaneStore(init, s, id)) && (forall t :: SaneBusy(init, s, t))
  }

  ghost predicate Sane(init: map<Id, Schedule>, s: System) {
    SaneRuns(init, s) && forall t :: SaneJob(init, s, t)
  }

  lemma JobsStaySane(init: map<Id, Schedule>, s: System, a: Action)
    requires Sane(init, s)
    ensures forall t :: SaneJob(init, Next(s, a), t)
  {
    hide Next, SaneBusy, SaneCopy, JobCopy, AddingIsDue;
    forall t ensures SaneJob(init, Next(s, a), t) {
      assert SaneJob(init, s, t);
      NextKeepsJobs(s, a, t);
      var j := JobCopy(Next(s, a), t);
      if j.Some? && JobCopy(s, t) != j { assert SaneStore(init, s, j.value.0); }
    }
  }

  /** Where stored schedules and running copies stay as they are. */
  lemma SameStaysSane(init: map<Id, Schedule>, s: System, n: System)
    requires Sane(init, s) && n.store == s.store && (forall t :: BusyCopy(n, t) == BusyCopy(s, t) || BusyCopy(n, t).None?)
    ensures SaneRuns(init, n)
  {
    hide SaneCopy, BusyCopy, SaneJob, Completed;
    forall id ensures SaneStore(init, n, id) { assert SaneStore(init, s, id); }
    forall t ensures SaneBusy(init, n, t) { assert SaneBusy(init, s, t); }
  }

  /** One schedule is stored; whoever runs it stops, or works on a copy that is active only if the stored one is. */
  lemma StoringStaysSane(init: map<Id, Schedule>, s: System, n: System, id: Id, c: Schedule)
    requires Sane(init, s) && n.store == s.store[id := c] && SaneCopy(init, id, c)
    requires forall t :: BusyCopy(n, t) == BusyCopy(s, t) || BusyCopy(n, t).None?
    requires forall t :: BusyCopy(n, t).Some? && BusyCopy(n, t).value.0 == id && BusyCopy(n, t).value.1.active ==> c.active
    ensures SaneRuns(init, n)
  {
    hide BusyCopy, SaneJob, Completed;
    forall i ensures SaneStore(init, n, i) { assert SaneStore(init, s, i); }
    forall t ensures SaneBusy(init, n, t) { assert SaneBusy(init, s, t); }
  }

  lemma LoadStaysSane(init: map<Id, Schedule>, s: System, t: Thread)
    requires Sane(init, s) && Leads(s, t) && s.threads[t].stage.Starting?
    ensures SaneRuns(init, LoadSchedule(s, t))
  {
    hide SaneCopy, SaneJob, Completed;
    var n := LoadSchedule(s, t);
    forall id ensures SaneStore(init, n, id) { assert SaneStore(init, s, id); }
    forall u ensures SaneBusy(init, n, u) {
      assert SaneBusy(init, s, u) && SaneStore(init, s, s.threads[t].id);
    }
  }

  lemma MarkStaysSane(init: map<Id, Schedule>, s: System, t: Thread)
    requires SingleFlight(s) && Sane(init, s) && Leads(s, t) && s.threads[t].stage.Marking?
    ensures SaneRuns(init, MarkRunning(s, t))
  {
    var n := MarkRunning(s, t);
    var Leader(id, _, Marking(copy), _) := s.threads[t];
    assert SaneBusy(init, s, t);
    forall u ensures BusyCopy(n, u) == BusyCopy(s, u) { }
    BusyIsUnique(s, t);
    hide SingleFlight, BusyCopy, Sane, SaneBusy, SaneCopy;
    StoringStaysSane(init, s, n, id, copy);
  }

  lemma SaveStaysSane(init: map<Id, Schedule>, s: System, t: Thread, nextRunAt: int)
    requires SingleFlight(s) && Sane(init, s) && Leads(s, t) && s.threads[t].stage.Saving?
    ensures SaneRuns(init, SaveSchedule(s, t, nextRunAt))
  {
    var n := SaveSchedule(s, t, nextRunAt);
    var Leader(id, _, Saving(copy, outcome), _) := s.threads[t];
    assert SaneBusy(init, s, t);
    AfterRunCounts(copy, nextRunAt);
    BusyIsUnique(s, t);
    hide SingleFlight, AfterRun, Sane, SaneBusy;
    forall u ensures BusyCopy(n, u) == BusyCopy(s, u) || BusyCopy(n, u).None? { }
    assert BusyCopy(n, t).None?;
    forall u ensures BusyCopy(n, u).Some? ==> BusyCopy(n, u).value.0 != id { }
    hide BusyCopy, SaveSchedule;
    SaveStores(s, t, nextRunAt);
    StoringStaysSane(init, s, n, id, AfterRun(copy, nextRunAt));
  }

  lemma SaveStores(s: System, t: Thread, nextRunAt: int)
    requires Leads(s, t) && s.threads[t].stage.Saving?
    ensures SaveSchedule(s, t, nextRunAt).store == s.store[s.threads[t].id := AfterRun(s.threads[t].stage.s, nextRunAt)]
  {
  }

  lemma AfterRunCounts(copy: Schedule, nextRunAt: int)
    ensures var r := AfterRun(copy, nextRunAt);
            && r.runCount == copy.runCount + 1 && r.maxRuns == copy.maxRuns && r.realm == copy.realm && r.kind == copy.kind
            && (Completed(r) ==> !r.active && r.nextRunAt == 0) && (r.active ==> copy.active)
            && (!Completed(copy) && r.maxRuns > 0 ==> r.runCount <= r.maxRuns)
  {
  }

  /** No other thread runs what `t` runs. */
  lemma BusyIsUnique(s: System, t: Thread)
    requires SingleFlight(s) && BusyCopy(s, t).Some?
    ensures forall u :: u != t && BusyCopy(s, u).Some? ==> BusyCopy(s, u).value.0 != BusyCopy(s, t).value.0
  {
    hide RunningLinked, FollowersLinked;
  }

  lemma AddStaysSane(init: map<Id, Schedule>, s: System, t: Thread, next: int, fires: bool)
    requires Sane(init, s) && t in s.threads && s.threads[t].Adding?
    ensures SaneRuns(init, AddScheduled(s, t, next, fires))
  {
    var n := AddScheduled(s, t, next, fires);
    var Adding(id, copy, _) := s.threads[t];
    assert SaneJob(init, s, t);
    forall u ensures BusyCopy(n, u) == BusyCopy(s, u) { }
    hide BusyCopy, Sane, SaneJob, Rewrites;
    if Rewrites(copy, fires) {
      StoringStaysSane(init, s, n, id, copy.(nextRunAt := next));
    } else {
      SameStaysSane(init, s, n);
    }
  }

  lemma NextKeepsSane(init: map<Id, Schedule>, s: System, a: Action)
    requires SingleFlight(s) && Sane(init, s)
    ensures Sane(init, Next(s, a))
  {
    hide Next, SingleFlight, SaneRuns, SaneJob;
    JobsStaySane(init, s, a);
    NextKeepsSaneRuns(init, s, a);
  }

  lemma NextKeepsSaneRuns(init: map<Id, Schedule>, s: System, a: Action)
    requires SingleFlight(s) && Sane(init, s)
    ensures SaneRuns(init, Next(s, a))
  {
    hide SingleFlight, LoadSchedule, MarkRunning, SaveSchedule, AddScheduled, CacheKey, SaneRuns, SaneJob;
    SameStaysSane(init, s, s);
    match a {
      case Load(t) => if Leads(s, t) && s.threads[t].stage.Starting? { LoadStaysSane(init, s, t); }
      case Mark(t) => if Leads(s, t) && s.threads[t].stage.Marking? { MarkStaysSane(init, s, t); }
      case Save(t, next) => if Leads(s, t) && s.threads[t].stage.Saving? { SaveStaysSane(init, s, t, next); }
      case AddJob(t, next, fires) => if t in s.threads && s.threads[t].Adding? { AddStaysSane(init, s, t, next, fires); }
      case Publish(t) =>
        PublishKeepsBusy(s, t);
        SameStaysSane(init, s, Next(s, a));
      case Clear(_) => SameStaysSane(init, s, Next(s, a));
      case _ =>
        hide Next;
        QuietActionIsQuiet(s, a);
        SameStaysSane(init, s, Next(s, a));
    }
  }

  lemma PublishKeepsBusy(s: System, t: Thread)
    ensures var n := Next(s, Publish(t)); n.store == s.store && forall u :: BusyCopy(n, u) == BusyCopy(s, u)
  {
    hide CacheKey;
  }

  lemma InitialIsSane(init: map<Id, Schedule>, clock: int)
    ensures Sane(init, Initial(init, clock))
  {
  }

  /** Copies and stored schedules stay sane in every history, and runs stay single-flight. */
  lemma {:induction false} RunsAreSane(init: map<Id, Schedule>, clock: int, actions: seq<Action>)
    ensures SingleFlight(Execute(init, clock, actions)) && Sane(init, Execute(init, clock, actions))
    decreases |actions|
  {
    hide Sane, SingleFlight, Next, Initial;
    RunsKeepFlight(init, clock, actions);
    if actions == [] {
      InitialIsSane(init, clock);
    } else {
      var before := actions[..|actions| - 1];
      RunsAreSane(init, clock, before);
      NextKeepsSane(init, Execute(init, clock, before), actions[|actions| - 1]);
    }
  }

  // ----- A run step by step -----

  /** Thread 0 leads the first call of a history, for `id`, while `others` go about their own. */
  function During(store: map<Id, Schedule>, clock: int, id: Id, stage: Stage, others: map<Thread, Role>, cache: map<string, CacheEntry>,
                  scheduled: set<Id>, log: seq<Event>): System
  {
    System(clock, store, map[id := 0], [Call(id, None, 0)], others[0 := Leader(id, 0, stage, NoGet)], cache, scheduled, log)
  }

  lemma DuringLoads(store: map<Id, Schedule>, clock: int, id: Id, others: map<Thread, Role>, cache: map<string, CacheEntry>,
                    scheduled: set<Id>, log: seq<Event>)
    requires id in store && !Completed(store[id])
    ensures Next(During(store, clock, id, Starting, others, cache, scheduled, log), Load(0)) ==
            During(store, clock, id, Marking(store[id]), others, cache, scheduled, log + [Started(id)])
  {
    hide Completed;
  }

  lemma DuringMarks(store: map<Id, Schedule>, clock: int, id: Id, others: map<Thread, Role>, cache: map<string, CacheEntry>,
                    scheduled: set<Id>, log: seq<Event>)
    requires id in store
    ensures Next(During(store, clock, id, Marking(store[id]), others, cache, scheduled, log), Mark(0)) ==
            During(store, clock, id, Executing(store[id]), others, cache, scheduled, log)
  {
    assert store[id := store[id]] == store;
  }

  lemma DuringReturns(store: map<Id, Schedule>, clock: int, id: Id, copy: Schedule, outcome: Outcome, others: map<Thread, Role>,
                      cache: map<string, CacheEntry>, scheduled: set<Id>, log: seq<Event>)
    ensures Next(During(store, clock, id, Executing(copy), others, cache, scheduled, log), TargetReturns(0, outcome)) ==
            During(store, clock, id, Publishing(copy, outcome), others, cache, scheduled, log)
  {
  }

  /** From its beginning to the return of its target, at the steps `k`, `k + 1` and `k + 2` of a history. */
  lemma RunUntilReturn(init: map<Id, Schedule>, clock: int, run: seq<Action>, k: nat, id: Id, outcome: Outcome, others: map<Thread, Role>,
                       cache: map<string, CacheEntry>, scheduled: set<Id>, log: seq<Event>)
    requires k + 3 <= |run| && run[k..k + 3] == [Load(0), Mark(0), TargetReturns(0, outcome)]
    requires id in init && !Completed(init[id])
    requires Execute(init, clock, run[..k]) == During(init, clock, id, Starting, others, cache, scheduled, log)
    ensures Execute(init, clock, run[..k + 3]) == During(init, clock, id, Publishing(init[id], outcome), others, cache, scheduled, log + [Started(id)])
  {
    hide Execute, During, Next, Completed;
    assert run[k] == run[k..k + 3][0] && run[k + 1] == run[k..k + 3][1] && run[k + 2] == run[k..k + 3][2];
    ExecuteStep(init, clock, run, k);
    ExecuteStep(init, clock, run, k + 1);
    ExecuteStep(init, clock, run, k + 2);
    DuringLoads(init, clock, id, others, cache, scheduled, log);
    DuringMarks(init, clock, id, others, cache, scheduled, log + [Started(id)]);
    DuringReturns(init, clock, id, init[id], outcome, others, cache, scheduled, log + [Started(id)]);
  }
}

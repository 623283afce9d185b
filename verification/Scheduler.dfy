/**
 * The scheduler as atomic steps of many threads: every step is one critical
 * section (the scheduler's mutex, the result cache's mutex, or one storage call),
 * and threads interleave in any order. Cron jobs, intervals and manual triggers
 * are all threads that call Run.
 */
module Scheduler {
  import opened Basics

  type Id = string
  type Thread = nat
  type Value = string

  datatype Kind = Cron | Interval

  datatype Schedule = Schedule(kind: Kind, realm: string, maxRuns: int, runCount: int, active: bool, nextRunAt: int)

  /** What the target of a run returned. */
  datatype Outcome = Outcome(value: Option<Value>, failed: bool)

  datatype RunResult = NotFound | AlreadyCompleted(count: int) | Ran(outcome: Outcome, count: int)

  /** A shared call; `result` is None until its done channel is closed. */
  datatype Call = Call(id: Id, result: Option<RunResult>, closedAt: nat)

  /** How far the leader of a run has come; `s` is its private copy of the schedule. */
  datatype Stage =
    | Starting
    | Marking(s: Schedule)
    | Executing(s: Schedule)
    | Publishing(s: Schedule, outcome: Outcome)
    | Saving(s: Schedule, outcome: Outcome)
    | Unscheduling(result: RunResult)
    | Ending(result: RunResult)

  /** A Get that missed: it began at one log position, and found `stale` in the cache at a later one. */
  datatype Getter = NoGet | Get(began: nat, heldAt: nat, staleIfError: bool, stale: Option<CacheEntry>)

  /** A Schedule call has looked at a schedule at log position `at`; it works on that copy until it adds the job. */
  datatype Role =
    | Leader(id: Id, call: nat, stage: Stage, get: Getter)
    | Follower(id: Id, call: nat, get: Getter)
    | Missed(id: Id, staleIfError: bool, began: nat)
    | Refreshing(id: Id, get: Getter)
    | Looked(id: Id, copy: Schedule, at: nat)
    | Adding(id: Id, copy: Schedule, at: nat)

  datatype CacheEntry = CacheEntry(value: Value, storedAt: int)

  /** Why Get returned a value; `cause` is the result of the failed refresh, None if it was refused or cancelled. */
  datatype Reason =
    | Fresh(storedAt: int, now: int, maxAgeSeconds: int)
    | FromRun(began: nat)
    | Stale(began: nat, heldAt: nat, staleIfError: bool, cause: Option<RunResult>)

  datatype Event =
    | Started(id: Id)
    | Saved(id: Id)
    | Published(id: Id, entry: CacheEntry)
    | Cleared(id: Id)
    | Closed(id: Id, call: nat, result: RunResult)
    | Answered(call: nat, result: RunResult)
    | Got(id: Id, value: Value, reason: Reason)

  datatype System = System(
    clock: int,
    store: map<Id, Schedule>,
    running: map<Id, nat>,
    calls: seq<Call>,
    threads: map<Thread, Role>,
    cache: map<string, CacheEntry>,
    scheduled: set<Id>,
    log: seq<Event>)

  datatype Action =
    | Tick(ms: nat)
    | Begin(t: Thread, id: Id)
    | Cancel(t: Thread)
    | Load(t: Thread)
    | Mark(t: Thread)
    | TargetReturns(t: Thread, outcome: Outcome)
    | Publish(t: Thread)
    | Save(t: Thread, nextRunAt: int)
    | Unschedule(t: Thread)
    | End(t: Thread)
    | Wake(t: Thread)
    | Clear(id: Id)
    | Read(t: Thread, id: Id, maxAgeSeconds: int, staleIfError: bool)
    | ReadStale(t: Thread)
    | Refuse(t: Thread)
    | Look(t: Thread, id: Id)
    | Prepare(t: Thread)
    | AddJob(t: Thread, next: int, fires: bool)

  predicate Completed(s: Schedule) {
    s.maxRuns > 0 && s.runCount >= s.maxRuns
  }

  function CacheKey(realm: string, id: Id): string {
    realm + "\0" + id
  }

  function Initial(store: map<Id, Schedule>, clock: int): System {
    System(clock, store, map[], [], map[], map[], {}, [])
  }

  predicate Leads(s: System, t: Thread) {
    t in s.threads && s.threads[t].Leader?
  }

  function SetStage(s: System, t: Thread, stage: Stage): System
    requires Leads(s, t)
  {
    s.(threads := s.threads[t := s.threads[t].(stage := stage)])
  }

  /** beginRun: join the running call of the id, or become its leader. */
  function BeginRun(s: System, t: Thread, id: Id, get: Getter): System {
    if id in s.running then s.(threads := s.threads[t := Follower(id, s.running[id], get)])
    else
      var c := |s.calls|;
      s.(running := s.running[id := c], calls := s.calls + [Call(id, None, 0)],
         threads := s.threads[t := Leader(id, c, Starting, get)])
  }

  /** runOnce loads its copy: missing and completed schedules end the run without executing. */
  function LoadSchedule(s: System, t: Thread): System
    requires Leads(s, t)
  {
    var id := s.threads[t].id;
    if id !in s.store then SetStage(s, t, Ending(NotFound))
    else if Completed(s.store[id]) then SetStage(s, t, Ending(AlreadyCompleted(s.store[id].runCount)))
    else SetStage(s, t, Marking(s.store[id])).(log := s.log + [Started(id)])
  }

  /** The run is stored as running: its copy is written back before the target is called. */
  function MarkRunning(s: System, t: Thread): System
    requires Leads(s, t) && s.threads[t].stage.Marking?
  {
    var Leader(id, _, Marking(copy), _) := s.threads[t];
    SetStage(s, t, Executing(copy)).(store := s.store[id := copy])
  }

  /** The error-free value of the target goes to the result cache. */
  function PublishResult(s: System, t: Thread): System
    requires Leads(s, t) && s.threads[t].stage.Publishing?
  {
    var Leader(id, _, Publishing(copy, outcome), _) := s.threads[t];
    var n := SetStage(s, t, Saving(copy, outcome));
    if outcome.failed || outcome.value.None? then n
    else
      var entry := CacheEntry(outcome.value.value, s.clock);
      n.(cache := s.cache[CacheKey(copy.realm, id) := entry], log := s.log + [Published(id, entry)])
  }

  /** The copy after a run: one more run, and inactive once the budget is spent. */
  function AfterRun(copy: Schedule, nextRunAt: int): Schedule {
    var counted := copy.(runCount := copy.runCount + 1, nextRunAt := nextRunAt);
    if Completed(counted) then counted.(active := false, nextRunAt := 0) else counted
  }

  function SaveSchedule(s: System, t: Thread, nextRunAt: int): System
    requires Leads(s, t) && s.threads[t].stage.Saving?
  {
    var Leader(id, _, Saving(copy, outcome), _) := s.threads[t];
    var saved := AfterRun(copy, nextRunAt);
    var result := Ran(outcome, saved.runCount);
    SetStage(s, t, if saved.active then Ending(result) else Unscheduling(result))
      .(store := s.store[id := saved], log := s.log + [Saved(id)])
  }

  /** The state right after endRun, before a Get takes its answer. */
  function Ended(s: System, t: Thread): System
    requires Leads(s, t) && s.threads[t].stage.Ending? && s.threads[t].call < |s.calls|
  {
    var Leader(id, c, Ending(result), get) := s.threads[t];
    s.(calls := s.calls[c := Call(id, Some(result), |s.log|)],
       running := if id in s.running && s.running[id] == c then s.running - {id} else s.running,
       threads := s.threads - {t},
       log := s.log + [Closed(id, c, result), Answered(c, result)])
  }

  /** endRun: record the result, free the id and close the call; a Get turns it into its answer. */
  function EndRun(s: System, t: Thread): System
    requires Leads(s, t) && s.threads[t].stage.Ending? && s.threads[t].call < |s.calls|
  {
    var Leader(id, _, Ending(result), get) := s.threads[t];
    Deliver(Ended(s, t), id, get, Some(result))
  }

  function WakeFollower(s: System, t: Thread): System
    requires t in s.threads && s.threads[t].Follower? && s.threads[t].call < |s.calls| && s.calls[s.threads[t].call].result.Some?
  {
    var Follower(id, c, get) := s.threads[t];
    var result := s.calls[c].result.value;
    Deliver(s.(threads := s.threads - {t}, log := s.log + [Answered(c, result)]), id, get, Some(result))
  }

  /** The value a run gives to a waiting Get, if any. */
  function ValueOf(result: Option<RunResult>): Option<Value> {
    match result
    case Some(Ran(Outcome(v, false), _)) => v
    case _ => None
  }

  /** The end of Get: the run's value, or the stale one when the refresh failed and that is allowed. */
  function Deliver(s: System, id: Id, get: Getter, result: Option<RunResult>): System {
    match (get, ValueOf(result))
    case (NoGet, _) => s
    case (Get(began, _, _, _), Some(v)) => s.(log := s.log + [Got(id, v, FromRun(began))])
    case (Get(began, heldAt, allowed, stale), None) =>
      if allowed && stale.Some? then s.(log := s.log + [Got(id, stale.value.value, Stale(began, heldAt, allowed, result))]) else s
  }

  function Lookup(s: System, id: Id): Option<CacheEntry> {
    if id !in s.store then None
    else
      var key := CacheKey(s.store[id].realm, id);
      if key in s.cache then Some(s.cache[key]) else None
  }

  /** An entry is fresh without a limit, or within it. */
  predicate IsFresh(e: CacheEntry, now: int, maxAgeSeconds: int) {
    maxAgeSeconds <= 0 || now - e.storedAt <= maxAgeSeconds * 1000
  }

  /** The first half of Schedule: the old job goes; only an active schedule with runs left gets a new one. */
  function PrepareJob(s: System, t: Thread): System
    requires t in s.threads && s.threads[t].Looked?
  {
    var Looked(id, copy, at) := s.threads[t];
    s.(scheduled := s.scheduled - {id},
       threads := if copy.active && !Completed(copy) then s.threads[t := Adding(id, copy, at)] else s.threads - {t})
  }

  /** Schedule writes a next run time into its copy: for a cron expression that fires again, and for an interval that has none. */
  predicate Rewrites(copy: Schedule, fires: bool) {
    if copy.kind == Cron then fires else copy.nextRunAt == 0
  }

  /** The second half: the job is there, and the copy, if it was changed, is stored as a whole. */
  function AddScheduled(s: System, t: Thread, next: int, fires: bool): System
    requires t in s.threads && s.threads[t].Adding?
  {
    var Adding(id, copy, _) := s.threads[t];
    s.(threads := s.threads - {t}, scheduled := s.scheduled + {id},
       store := if Rewrites(copy, fires) then s.store[id := copy.(nextRunAt := next)] else s.store)
  }

  function Next(s: System, a: Action): System {
    match a
    case Tick(ms) => s.(clock := s.clock + ms)
    case Begin(t, id) =>
      if t !in s.threads then BeginRun(s, t, id, NoGet)
      else if s.threads[t].Refreshing? then BeginRun(s, t, s.threads[t].id, s.threads[t].get)
      else s
    case Cancel(t) =>
      if t in s.threads && s.threads[t].Follower? then
        Deliver(s.(threads := s.threads - {t}), s.threads[t].id, s.threads[t].get, None)
      else s
    case Load(t) => if Leads(s, t) && s.threads[t].stage.Starting? then LoadSchedule(s, t) else s
    case Mark(t) => if Leads(s, t) && s.threads[t].stage.Marking? then MarkRunning(s, t) else s
    case TargetReturns(t, outcome) =>
      if Leads(s, t) && s.threads[t].stage.Executing? then SetStage(s, t, Publishing(s.threads[t].stage.s, outcome)) else s
    case Publish(t) => if Leads(s, t) && s.threads[t].stage.Publishing? then PublishResult(s, t) else s
    case Save(t, nextRunAt) => if Leads(s, t) && s.threads[t].stage.Saving? then SaveSchedule(s, t, nextRunAt) else s
    case Unschedule(t) =>
      if Leads(s, t) && s.threads[t].stage.Unscheduling? then
        SetStage(s, t, Ending(s.threads[t].stage.result)).(scheduled := s.scheduled - {s.threads[t].id})
      else s
    case End(t) =>
      if Leads(s, t) && s.threads[t].stage.Ending? && s.threads[t].call < |s.calls| then EndRun(s, t) else s
    case Wake(t) =>
      if t in s.threads && s.threads[t].Follower? && s.threads[t].call < |s.calls| && s.calls[s.threads[t].call].result.Some?
      then WakeFollower(s, t) else s
    case Clear(id) =>
      if id !in s.store then s
      else s.(cache := s.cache - {CacheKey(s.store[id].realm, id)}, log := s.log + [Cleared(id)])
    case Read(t, id, maxAge, staleIfError) =>
      if t in s.threads || id !in s.store then s
      else
        var e := Lookup(s, id);
        if e.Some? && IsFresh(e.value, s.clock, maxAge)
        then s.(log := s.log + [Got(id, e.value.value, Fresh(e.value.storedAt, s.clock, maxAge))])
        else s.(threads := s.threads[t := Missed(id, staleIfError, |s.log|)])
    case ReadStale(t) =>
      if t !in s.threads || !s.threads[t].Missed? then s
      else
        var Missed(id, staleIfError, began) := s.threads[t];
        s.(threads := s.threads[t := Refreshing(id, Get(began, |s.log|, staleIfError, Lookup(s, id)))])
    case Refuse(t) =>
      if t !in s.threads || !s.threads[t].Refreshing? then s
      else Deliver(s.(threads := s.threads - {t}), s.threads[t].id, s.threads[t].get, None)
    case Look(t, id) =>
      if t in s.threads || id !in s.store then s else s.(threads := s.threads[t := Looked(id, s.store[id], |s.log|)])
    case Prepare(t) => if t in s.threads && s.threads[t].Looked? then PrepareJob(s, t) else s
    case AddJob(t, next, fires) => if t in s.threads && s.threads[t].Adding? then AddScheduled(s, t, next, fires) else s
  }

  function Execute(store: map<Id, Schedule>, clock: int, actions: seq<Action>): System {
    if actions == [] then Initial(store, clock)
    else Next(Execute(store, clock, actions[..|actions| - 1]), actions[|actions| - 1])
  }

  // ----- Single flight -----

  /** The running call of an id is open, and a leader of that id owns it. */
  ghost predicate RunningLinked(s: System) {
    forall id :: id in s.running ==>
      && s.running[id] < |s.calls| && s.calls[s.running[id]].id == id && s.calls[s.running[id]].result.None?
      && exists t :: Leads(s, t) && s.threads[t].id == id
  }

  /** Every leader owns the running call of its id; no id has two leaders. */
  ghost predicate LeadersLinked(s: System) {
    && (forall t :: Leads(s, t) ==> s.threads[t].id in s.running && s.running[s.threads[t].id] == s.threads[t].call)
    && (forall t, u :: Leads(s, t) && Leads(s, u) && s.threads[t].id == s.threads[u].id ==> t == u)
  }

  ghost predicate FollowersLinked(s: System) {
    forall t :: t in s.threads && s.threads[t].Follower? ==>
      s.threads[t].call < |s.calls| && s.calls[s.threads[t].call].id == s.threads[t].id
  }

  ghost predicate SingleFlight(s: System) {
    RunningLinked(s) && LeadersLinked(s) && FollowersLinked(s)
  }

  function RoleOf(s: System, t: Thread): Option<Role> {
    if t in s.threads then Some(s.threads[t]) else None
  }

  /** A thread keeps leading the same call, or keeps not leading; it follows only what it followed. */
  predicate SameRole(s: System, n: System, t: Thread) {
    match (RoleOf(s, t), RoleOf(n, t))
    case (Some(Leader(i, c, _, _)), Some(Leader(j, d, _, _))) => i == j && c == d
    case (Some(Leader(_, _, _, _)), _) => false
    case (_, Some(Leader(_, _, _, _))) => false
    case (r, Some(Follower(j, d, g))) => r == Some(Follower(j, d, g))
    case _ => true
  }

  /** The two systems have the same calls and leaders, and no new followers. */
  ghost predicate SameFlight(s: System, n: System) {
    n.running == s.running && n.calls == s.calls && forall t :: SameRole(s, n, t)
  }

  lemma SameFlightKeeps(s: System, n: System)
    requires SingleFlight(s) && SameFlight(s, n)
    ensures SingleFlight(n)
  {
    forall id | id in n.running ensures exists t :: Leads(n, t) && n.threads[t].id == id {
      var t :| Leads(s, t) && s.threads[t].id == id;
      assert SameRole(s, n, t);
      assert Leads(n, t);
    }
    forall t ensures Leads(n, t) ==> Leads(s, t) && n.threads[t].id == s.threads[t].id && n.threads[t].call == s.threads[t].call {
      assert SameRole(s, n, t);
    }
    forall t | t in n.threads && n.threads[t].Follower? ensures t in s.threads && s.threads[t] == n.threads[t] {
      assert SameRole(s, n, t);
    }
  }

  /** Only thread `t` may have changed its role. */
  ghost predicate OnlyThread(s: System, n: System, t: Thread) {
    n.running == s.running && n.calls == s.calls && forall u :: u != t ==> RoleOf(n, u) == RoleOf(s, u)
  }

  lemma OneThreadSameFlight(s: System, n: System, t: Thread)
    requires OnlyThread(s, n, t) && SameRole(s, n, t)
    ensures SameFlight(s, n)
  {
    forall u ensures SameRole(s, n, u) {
      if u != t { assert RoleOf(n, u) == RoleOf(s, u); }
    }
  }

  predicate ChangesCalls(a: Action) {
    a.Begin? || a.End?
  }

  /** Steps of a leader other than its last. */
  predicate LeaderStep(a: Action) {
    a.Load? || a.Mark? || a.TargetReturns? || a.Publish? || a.Save? || a.Unschedule?
  }

  /** Steps of a Schedule call. */
  predicate JobStep(a: Action) {
    a.Look? || a.Prepare? || a.AddJob?
  }

  /** A leader's step changes nobody's role but its own stage. */
  lemma LeaderKeepsFlight(s: System, a: Action)
    requires LeaderStep(a)
    ensures SameFlight(s, Next(s, a))
  {
    hide Next, SameFlight;
    if a.Load? || a.Mark? || a.Save? { StoringKeepsFlight(s, a); } else { WorkingKeepsFlight(s, a); }
  }

  lemma StoringKeepsFlight(s: System, a: Action)
    requires a.Load? || a.Mark? || a.Save?
    ensures SameFlight(s, Next(s, a))
  {
    hide Completed, CacheKey, AfterRun, SameFlight;
    OneThreadSameFlight(s, Next(s, a), a.t);
  }

  lemma WorkingKeepsFlight(s: System, a: Action)
    requires a.TargetReturns? || a.Publish? || a.Unschedule?
    ensures SameFlight(s, Next(s, a))
  {
    hide Completed, CacheKey, AfterRun, SameFlight;
    OneThreadSameFlight(s, Next(s, a), a.t);
  }

  lemma ReaderKeepsFlight(s: System, a: Action)
    requires a.Read? || a.ReadStale? || a.Refuse? || a.Tick? || a.Clear?
    ensures SameFlight(s, Next(s, a))
  {
    hide CacheKey, IsFresh, Lookup, SameFlight;
    OneThreadSameFlight(s, Next(s, a), if a.Tick? || a.Clear? then 0 else a.t);
  }

  lemma WaiterKeepsFlight(s: System, a: Action)
    requires a.Cancel? || a.Wake?
    ensures SameFlight(s, Next(s, a))
  {
    hide SameFlight;
    OneThreadSameFlight(s, Next(s, a), a.t);
  }

  lemma JobKeepsFlight(s: System, a: Action)
    requires JobStep(a)
    ensures SameFlight(s, Next(s, a))
  {
    hide Completed, Rewrites, SameFlight;
    OneThreadSameFlight(s, Next(s, a), a.t);
  }

  lemma OthersKeepFlight(s: System, a: Action)
    requires !ChangesCalls(a)
    ensures SameFlight(s, Next(s, a))
  {
    hide Next, SameFlight;
    if LeaderStep(a) {
      LeaderKeepsFlight(s, a);
    } else if JobStep(a) {
      JobKeepsFlight(s, a);
    } else if a.Cancel? || a.Wake? {
      WaiterKeepsFlight(s, a);
    } else {
      ReaderKeepsFlight(s, a);
    }
  }

  lemma NewFollowerKeepsRunning(s: System, t: Thread, id: Id, get: Getter)
    requires RunningLinked(s) && (t in s.threads ==> s.threads[t].Refreshing?) && id in s.running
    ensures RunningLinked(BeginRun(s, t, id, get))
  {
    var n := BeginRun(s, t, id, get);
    forall x | x in n.running ensures exists u :: Leads(n, u) && n.threads[u].id == x {
      var u :| Leads(s, u) && s.threads[u].id == x;
      assert Leads(n, u) && n.threads[u] == s.threads[u];
    }
  }

  lemma NewFollowerKeepsOthers(s: System, t: Thread, id: Id, get: Getter)
    requires LeadersLinked(s) && FollowersLinked(s) && (t in s.threads ==> s.threads[t].Refreshing?)
    requires id in s.running && s.running[id] < |s.calls| && s.calls[s.running[id]].id == id
    ensures LeadersLinked(BeginRun(s, t, id, get)) && FollowersLinked(BeginRun(s, t, id, get))
  {
    var n := BeginRun(s, t, id, get);
    forall u ensures Leads(n, u) <==> Leads(s, u) { }
  }

  lemma NewLeaderKeepsOthers(s: System, t: Thread, id: Id, get: Getter)
    requires LeadersLinked(s) && FollowersLinked(s) && (t in s.threads ==> s.threads[t].Refreshing?) && id !in s.running
    ensures LeadersLinked(BeginRun(s, t, id, get)) && FollowersLinked(BeginRun(s, t, id, get))
  {
    var n := BeginRun(s, t, id, get);
    forall u ensures Leads(n, u) <==> u == t || Leads(s, u) { }
  }

  lemma BeginKeepsFlight(s: System, t: Thread, id: Id, get: Getter)
    requires SingleFlight(s) && (t in s.threads ==> s.threads[t].Refreshing?)
    ensures SingleFlight(BeginRun(s, t, id, get))
  {
    hide LeadersLinked, FollowersLinked, BeginRun;
    if id in s.running {
      NewFollowerKeepsRunning(s, t, id, get);
      NewFollowerKeepsOthers(s, t, id, get);
    } else {
      NewLeaderKeepsRunning(s, t, id, get);
      NewLeaderKeepsOthers(s, t, id, get);
    }
  }

  lemma NewLeaderKeepsRunning(s: System, t: Thread, id: Id, get: Getter)
    requires RunningLinked(s) && (t in s.threads ==> s.threads[t].Refreshing?) && id !in s.running
    ensures RunningLinked(BeginRun(s, t, id, get))
  {
    var n := BeginRun(s, t, id, get);
    assert Leads(n, t) && n.threads[t].id == id;
    forall x | x in s.running ensures exists u :: Leads(n, u) && n.threads[u].id == x {
      var u :| Leads(s, u) && s.threads[u].id == x;
      assert Leads(n, u) && n.threads[u] == s.threads[u];
    }
  }

  lemma DeliverKeepsFlight(s: System, id: Id, get: Getter, result: Option<RunResult>)
    ensures SameFlight(s, Deliver(s, id, get, result))
  {
    OneThreadSameFlight(s, Deliver(s, id, get, result), 0);
  }

  lemma EndKeepsFlight(s: System, t: Thread)
    requires SingleFlight(s) && Leads(s, t) && s.threads[t].stage.Ending? && s.threads[t].call < |s.calls|
    ensures SingleFlight(Ended(s, t))
    ensures s.threads[t].id !in Ended(s, t).running
  {
    var n := Ended(s, t);
    forall x | x in n.running
      ensures exists u :: Leads(n, u) && n.threads[u].id == x
      ensures n.running[x] < |n.calls| && n.calls[n.running[x]].id == x && n.calls[n.running[x]].result.None?
    {
      var u :| Leads(s, u) && s.threads[u].id == x;
      assert u != t;
      assert Leads(n, u) && n.threads[u] == s.threads[u];
      assert s.calls[s.running[x]].id == x;
    }
  }

  /**
   * Runs are single-flight: at every moment an id has at most one leader, `running`
   * holds the id exactly while it has one, and followers wait on a call of their id.
   */
  lemma NextKeepsFlight(s: System, a: Action)
    requires SingleFlight(s)
    ensures SingleFlight(Next(s, a))
  {
    hide SingleFlight, SameFlight, BeginRun, Deliver;
    if !ChangesCalls(a) {
      OthersKeepFlight(s, a);
      SameFlightKeeps(s, Next(s, a));
    } else {
      match a {
        case Begin(t, id) =>
          if t !in s.threads {
            BeginKeepsFlight(s, t, id, NoGet);
          } else if s.threads[t].Refreshing? {
            BeginKeepsFlight(s, t, s.threads[t].id, s.threads[t].get);
          }
        case End(t) =>
          if Leads(s, t) && s.threads[t].stage.Ending? && s.threads[t].call < |s.calls| {
            EndKeepsFlight(s, t);
            var Leader(id, _, Ending(result), get) := s.threads[t];
            DeliverKeepsFlight(Ended(s, t), id, get, Some(result));
            SameFlightKeeps(Ended(s, t), Next(s, a));
          }
      }
    }
  }

  // ----- The run budget -----

  function Starts(log: seq<Event>, id: Id): nat {
    if log == [] then 0 else Starts(log[..|log| - 1], id) + (if log[|log| - 1] == Started(id) then 1 else 0)
  }

  function Saves(log: seq<Event>, id: Id): nat {
    if log == [] then 0 else Saves(log[..|log| - 1], id) + (if log[|log| - 1] == Saved(id) then 1 else 0)
  }

  /** The value of the latest error-free execution that published one since the last clear, and when it did. */
  function Latest(log: seq<Event>, id: Id): Option<CacheEntry> {
    if log == [] then None
    else
      match log[|log| - 1]
      case Published(i, e) => if i == id then Some(e) else Latest(log[..|log| - 1], id)
      case Cleared(i) => if i == id then None else Latest(log[..|log| - 1], id)
      case _ => Latest(log[..|log| - 1], id)
  }

  /** Events that neither count runs nor touch the cache. */
  predicate QuietEvent(e: Event) {
    e.Closed? || e.Answered? || e.Got?
  }

  lemma AppendOne(log: seq<Event>, e: Event, id: Id)
    ensures Starts(log + [e], id) == Starts(log, id) + (if e == Started(id) then 1 else 0)
    ensures Saves(log + [e], id) == Saves(log, id) + (if e == Saved(id) then 1 else 0)
    ensures Latest(log + [e], id) == if e.Published? && e.id == id then Some(e.entry) else if e == Cleared(id) then None else Latest(log, id)
  {
    assert (log + [e])[..|log|] == log;
  }

  lemma {:induction false} AppendQuiet(log: seq<Event>, more: seq<Event>, id: Id)
    requires forall e :: e in more ==> QuietEvent(e)
    ensures Starts(log + more, id) == Starts(log, id) && Saves(log + more, id) == Saves(log, id)
    ensures Latest(log + more, id) == Latest(log, id)
    decreases |more|
  {
    if more == [] {
      assert log + more == log;
    } else {
      var n := |more| - 1;
      AppendQuiet(log, more[..n], id);
      AppendOne(log + more[..n], more[n], id);
      assert log + more[..n] + [more[n]] == log + more;
      assert more[n] in more;
    }
  }

  /** The schedule a leader is executing, from the start of its target to the save. */
  function BusyCopy(s: System, t: Thread): Option<(Id, Schedule)> {
    if !Leads(s, t) then None
    else
      match s.threads[t].stage
      case Marking(c) => Some((s.threads[t].id, c))
      case Executing(c) => Some((s.threads[t].id, c))
      case Publishing(c, _) => Some((s.threads[t].id, c))
      case Saving(c, _) => Some((s.threads[t].id, c))
      case _ => None
  }

  /** Actions that touch neither the stored schedules, the cache, nor any running target. */
  predicate QuietAction(a: Action) {
    !a.Load? && !a.Mark? && !a.Publish? && !a.Save? && !a.Clear? && !a.AddJob?
  }

  ghost predicate QuietStep(s: System, n: System) {
    && n.store == s.store && n.cache == s.cache
    && (forall t :: BusyCopy(n, t) == BusyCopy(s, t))
    && |s.log| <= |n.log| && n.log[..|s.log|] == s.log
    && (forall e :: e in n.log[|s.log|..] ==> QuietEvent(e))
  }
}

/** What callers of the scheduler are told: results of shared runs and values from Get, over all interleavings. */
module SchedulerGet {
  import opened Basics
  import opened Scheduler
  import opened SchedulerRuns
  import opened SchedulerCache

  // ----- Calls and answers -----

  ghost predicate ClosedOk(s: System, k: nat) {
    k < |s.log| && s.log[k].Closed? ==>
      var Closed(id, c, r) := s.log[k];
      c < |s.calls| && s.calls[c] == Call(id, Some(r), k)
  }

  ghost predicate AnswerOk(s: System, k: nat) {
    k < |s.log| && s.log[k].Answered? ==>
      var Answered(c, r) := s.log[k];
      c < |s.calls| && s.calls[c].result == Some(r) && s.calls[c].closedAt < k
  }

  ghost predicate CallOk(s: System, c: nat) {
    c < |s.calls| && s.calls[c].result.Some? ==>
      var Call(id, result, at) := s.calls[c];
      at < |s.log| && s.log[at] == Closed(id, c, result.value)
  }

  /** Closed calls and Closed events are the same thing, and every answer repeats an earlier one. */
  ghost predicate CallsLogged(s: System) {
    (forall k :: ClosedOk(s, k)) && (forall k :: AnswerOk(s, k)) && (forall c :: CallOk(s, c))
  }

  /** An event that may be appended while calls stay as they are. */
  predicate TrueEvent(s: System, e: Event) {
    match e
    case Closed(_, _, _) => false
    case Answered(c, r) => c < |s.calls| && s.calls[c].result == Some(r)
    case _ => true
  }

  lemma AppendKeepsLogged(s: System, n: System, more: seq<Event>)
    requires CallsLogged(s) && n.log == s.log + more && (forall e :: e in more ==> TrueEvent(s, e))
    requires n.calls == s.calls || (exists id :: n.calls == s.calls + [Call(id, None, 0)])
    ensures CallsLogged(n)
  {
    forall k: nat ensures ClosedOk(n, k) {
      assert ClosedOk(s, k);
      if |s.log| <= k < |n.log| { assert n.log[k] == more[k - |s.log|] && TrueEvent(s, n.log[k]); }
    }
    forall k: nat ensures AnswerOk(n, k) {
      assert AnswerOk(s, k);
      if |s.log| <= k < |n.log| {
        assert n.log[k] == more[k - |s.log|] && TrueEvent(s, n.log[k]);
        if n.log[k].Answered? { assert CallOk(s, n.log[k].call); }
      }
    }
    forall c: nat ensures CallOk(n, c) { assert CallOk(s, c); }
  }

  lemma EndedKeepsLogged(s: System, t: Thread)
    requires CallsLogged(s) && Leads(s, t) && s.threads[t].stage.Ending? && s.threads[t].call < |s.calls|
    requires s.calls[s.threads[t].call].result.None?
    ensures CallsLogged(Ended(s, t))
  {
    var n := Ended(s, t);
    forall k: nat ensures ClosedOk(n, k) && AnswerOk(n, k) {
      assert ClosedOk(s, k) && AnswerOk(s, k);
    }
    forall c: nat ensures CallOk(n, c) { assert CallOk(s, c); }
  }

  /** Steps other than the end of a run append true events and leave the calls alone. */
  lemma StepAppends(s: System, a: Action) returns (more: seq<Event>)
    requires !ChangesCalls(a)
    ensures Next(s, a).log == s.log + more && Next(s, a).calls == s.calls
    ensures forall e :: e in more ==> TrueEvent(s, e)
  {
    hide Deliver, AfterRun, Completed, IsFresh, Lookup, CacheKey;
    OthersKeepFlight(s, a);
    var n := Next(s, a);
    assert s.log + [] == s.log;
    if n.log == s.log {
      more := [];
    } else if a.Wake? {
      var Follower(id, c, get) := s.threads[a.t];
      var result := s.calls[c].result.value;
      DeliverAppends(s.(threads := s.threads - {a.t}, log := s.log + [Answered(c, result)]), id, get, Some(result));
      more := [Answered(c, result)] + Delivered(id, get, Some(result));
    } else if a.Cancel? || a.Refuse? {
      var role := s.threads[a.t];
      DeliverAppends(s.(threads := s.threads - {a.t}), role.id, role.get, None);
      more := Delivered(role.id, role.get, None);
    } else {
      more := [n.log[|s.log|]];
    }
  }

  /** A leader's call is still open. */
  lemma LeaderIsOpen(s: System, t: Thread)
    requires SingleFlight(s) && Leads(s, t)
    ensures s.threads[t].call < |s.calls| && s.calls[s.threads[t].call] == Call(s.threads[t].id, None, s.calls[s.threads[t].call].closedAt)
  {
    hide FollowersLinked;
  }

  lemma NextKeepsLogged(s: System, a: Action)
    requires SingleFlight(s) && CallsLogged(s)
    ensures CallsLogged(Next(s, a))
  {
    hide SingleFlight, CallsLogged, Deliver, Ended;
    assert s.log + [] == s.log;
    match a {
      case Begin(t, id) => AppendKeepsLogged(s, Next(s, a), []);
      case End(t) =>
        if Leads(s, t) && s.threads[t].stage.Ending? && s.threads[t].call < |s.calls| {
          var Leader(id, c, Ending(result), get) := s.threads[t];
          LeaderIsOpen(s, t);
          EndedKeepsLogged(s, t);
          DeliverAppends(Ended(s, t), id, get, Some(result));
          AppendKeepsLogged(Ended(s, t), Next(s, a), Delivered(id, get, Some(result)));
        }
      case _ =>
        hide Next;
        var more := StepAppends(s, a);
        AppendKeepsLogged(s, Next(s, a), more);
    }
  }

  lemma {:induction false} RunsAreLogged(init: map<Id, Schedule>, clock: int, actions: seq<Action>)
    ensures CallsLogged(Execute(init, clock, actions))
    decreases |actions|
  {
    hide Next, SingleFlight, Sane;
    if actions != [] {
      hide CallsLogged;
      var before := actions[..|actions| - 1];
      RunsAreSane(init, clock, before);
      RunsAreLogged(init, clock, before);
      NextKeepsLogged(Execute(init, clock, before), actions[|actions| - 1]);
    }
  }

  /** No call is closed twice. */
  lemma CallsCloseOnce(init: map<Id, Schedule>, clock: int, actions: seq<Action>, j: nat, k: nat)
    requires var log := Execute(init, clock, actions).log;
             j < |log| && k < |log| && log[j].Closed? && log[k].Closed? && log[j].call == log[k].call
    ensures j == k
  {
    hide Execute;
    RunsAreLogged(init, clock, actions);
    var s := Execute(init, clock, actions);
    assert ClosedOk(s, j) && ClosedOk(s, k);
  }

  /** Whoever is answered about a call, leader or follower, gets the result with which it was closed before. */
  lemma AnswersAreTheCallsResult(init: map<Id, Schedule>, clock: int, actions: seq<Action>, k: nat) returns (j: nat)
    requires var log := Execute(init, clock, actions).log; k < |log| && log[k].Answered?
    ensures var log := Execute(init, clock, actions).log;
            j < k && log[j].Closed? && log[j].call == log[k].call && log[j].result == log[k].result
  {
    hide Execute;
    RunsAreLogged(init, clock, actions);
    var s := Execute(init, clock, actions);
    assert AnswerOk(s, k);
    j := s.calls[s.log[k].call].closedAt;
    assert CallOk(s, s.log[k].call);
  }

  // ----- Values given by Get -----

  /** A run of `id` that closed with result `r` at or after position `from`. */
  ghost predicate ClosedSince(log: seq<Event>, from: nat, id: Id, r: RunResult) {
    exists j :: from <= j < |log| && log[j].Closed? && log[j].id == id && log[j].result == r
  }

  ghost predicate RanSince(log: seq<Event>, from: nat, id: Id, v: Value) {
    exists r: RunResult :: ClosedSince(log, from, id, r) && ValueOf(Some(r)) == Some(v)
  }

  /** Where the value of a Get comes from, in terms of the log before it. */
  ghost predicate GotFrom(log: seq<Event>, e: Event) {
    match e
    case Got(id, v, Fresh(at, now, maxAge)) => Latest(log, id) == Some(CacheEntry(v, at)) && IsFresh(CacheEntry(v, at), now, maxAge)
    case Got(id, v, FromRun(began)) => RanSince(log, began, id, v)
    case Got(id, v, Stale(began, heldAt, allowed, cause)) =>
      && allowed && began <= heldAt <= |log|
      && Latest(log[..heldAt], id).Some? && Latest(log[..heldAt], id).value.value == v
      && ValueOf(cause) == None && (cause.Some? ==> ClosedSince(log, heldAt, id, cause.value))
    case _ => true
  }

  ghost predicate GotsOk(log: seq<Event>) {
    forall k :: 0 <= k < |log| ==> GotFrom(log[..k], log[k])
  }

  lemma AppendGot(log: seq<Event>, e: Event)
    requires GotsOk(log) && GotFrom(log, e)
    ensures GotsOk(log + [e])
  {
    hide GotFrom;
    var after := log + [e];
    forall k | 0 <= k < |after| ensures GotFrom(after[..k], after[k]) {
      if k < |log| {
        assert after[..k] == log[..k] && after[k] == log[k];
      } else {
        assert after[..k] == log;
      }
    }
  }

  ghost predicate GetterOk(s: System, id: Id, get: Getter) {
    get.Get? ==> get.began <= get.heldAt <= |s.log| && get.stale == Latest(s.log[..get.heldAt], id)
  }

  /** What each waiting thread remembers is true of the log. */
  ghost predicate ThreadOk(s: System, t: Thread) {
    match RoleOf(s, t)
    case Some(Missed(_, _, began)) => began <= |s.log|
    case Some(Refreshing(id, get)) => GetterOk(s, id, get)
    case Some(Leader(id, _, _, get)) => GetterOk(s, id, get)
    case Some(Follower(id, c, get)) =>
      GetterOk(s, id, get) && (get.Get? && c < |s.calls| && s.calls[c].result.Some? ==> get.heldAt <= s.calls[c].closedAt)
    case _ => true
  }

  ghost predicate GetsOk(s: System) {
    GotsOk(s.log) && forall t :: ThreadOk(s, t)
  }

  /** Calls are only added, or closed after everything logged so far. */
  ghost predicate Grown(s: System, n: System) {
    && |s.calls| <= |n.calls| && |s.log| <= |n.log| && n.log[..|s.log|] == s.log
    && forall c :: 0 <= c < |s.calls| ==> n.calls[c] == s.calls[c] || n.calls[c].closedAt >= |s.log|
  }

  lemma GetterGrows(s: System, n: System, id: Id, get: Getter)
    requires GetterOk(s, id, get) && |s.log| <= |n.log| && n.log[..|s.log|] == s.log
    ensures GetterOk(n, id, get)
  {
    hide Latest;
    if get.Get? { assert n.log[..get.heldAt] == s.log[..get.heldAt]; }
  }

  lemma ThreadGrows(s: System, n: System, t: Thread)
    requires ThreadOk(s, t) && Grown(s, n) && RoleOf(n, t) == RoleOf(s, t)
    requires t in s.threads && s.threads[t].Follower? ==> s.threads[t].call < |s.calls|
    ensures ThreadOk(n, t)
  {
    hide GetterOk;
    match RoleOf(s, t)
    case Some(Refreshing(id, get)) => GetterGrows(s, n, id, get);
    case Some(Leader(id, _, _, get)) => GetterGrows(s, n, id, get);
    case Some(Follower(id, _, get)) =>
      GetterGrows(s, n, id, get);
      GetterBound(s, id, get);
    case _ =>
  }

  lemma GetterBound(s: System, id: Id, get: Getter)
    requires GetterOk(s, id, get)
    ensures get.Get? ==> get.began <= get.heldAt <= |s.log|
  {
  }

  /** Only thread `t` has changed, and what it now remembers is true. */
  lemma ThreadsGrow(s: System, n: System, t: Thread)
    requires SingleFlight(s) && (forall u :: ThreadOk(s, u)) && Grown(s, n)
    requires (forall u :: u != t ==> RoleOf(n, u) == RoleOf(s, u)) && ThreadOk(n, t)
    ensures forall u :: ThreadOk(n, u)
  {
    hide ThreadOk, Grown, RunningLinked, LeadersLinked;
    forall u ensures ThreadOk(n, u) {
      if u != t {
        assert RoleOf(n, u) == RoleOf(s, u);
        ThreadGrows(s, n, u);
      }
    }
  }

  lemma StepGrows(s: System, a: Action)
    requires SingleFlight(s)
    ensures Grown(s, Next(s, a))
  {
    NextExtendsLog(s, a);
    if ChangesCalls(a) {
      hide Deliver, LeadersLinked, FollowersLinked;
      match a {
        case Begin(_, _) =>
        case End(t) =>
          if Leads(s, t) && s.threads[t].stage.Ending? && s.threads[t].call < |s.calls| {
            var Leader(id, _, Ending(result), get) := s.threads[t];
            DeliverAppends(Ended(s, t), id, get, Some(result));
          }
      }
    } else {
      hide Next;
      OthersKeepFlight(s, a);
    }
  }

  /** The thread an action belongs to; a clear and the passing of time belong to none. */
  function Actor(a: Action): Thread {
    if a.Tick? || a.Clear? then 0 else a.t
  }

  lemma OnlyLeaderChanges(s: System, a: Action, u: Thread)
    requires LeaderStep(a) && u != a.t
    ensures RoleOf(Next(s, a), u) == RoleOf(s, u)
  {
    hide AfterRun, Completed, CacheKey;
  }

  lemma OnlyDeliveredChanges(s: System, a: Action, u: Thread)
    requires Delivers(a) && u != a.t
    ensures RoleOf(Next(s, a), u) == RoleOf(s, u)
  {
    hide ValueOf;
  }

  lemma OnlyOtherChanges(s: System, a: Action, u: Thread)
    requires !LeaderStep(a) && !Delivers(a) && u != Actor(a)
    ensures RoleOf(Next(s, a), u) == RoleOf(s, u)
  {
    hide Completed, IsFresh, Lookup, CacheKey;
  }

  lemma OnlyActorChanges(s: System, a: Action)
    ensures forall u :: u != Actor(a) ==> RoleOf(Next(s, a), u) == RoleOf(s, u)
  {
    hide Next;
    forall u | u != Actor(a) ensures RoleOf(Next(s, a), u) == RoleOf(s, u) {
      if LeaderStep(a) {
        OnlyLeaderChanges(s, a, u);
      } else if Delivers(a) {
        OnlyDeliveredChanges(s, a, u);
      } else {
        OnlyOtherChanges(s, a, u);
      }
    }
  }

  /** A Get that remembers the truth gives a true value. */
  lemma DeliveryIsTrue(s: System, log: seq<Event>, id: Id, get: Getter, result: Option<RunResult>)
    requires GetterOk(s, id, get) && |s.log| <= |log| && log[..|s.log|] == s.log && GotsOk(log)
    requires get.Get? && result.Some? ==> ClosedSince(log, get.heldAt, id, result.value)
    ensures GotsOk(log + Delivered(id, get, result))
  {
    hide GotsOk, Latest, IsFresh;
    assert log + [] == log;
    if get.Get? {
      assert log[..get.heldAt] == s.log[..get.heldAt];
      if Delivered(id, get, result) != [] {
        AppendGot(log, Delivered(id, get, result)[0]);
      }
    }
  }

  // ----- Every step keeps the gets true -----

  lemma UnchangedThread(s: System, n: System, t: Thread)
    requires SingleFlight(s) && ThreadOk(s, t) && Grown(s, n) && RoleOf(n, t) == RoleOf(s, t)
    ensures ThreadOk(n, t)
  {
    hide ThreadOk, Grown, RunningLinked, LeadersLinked;
    ThreadGrows(s, n, t);
  }

  lemma LeaderActorOk(s: System, a: Action)
    requires LeaderStep(a) && SingleFlight(s) && ThreadOk(s, a.t)
    ensures ThreadOk(Next(s, a), a.t)
  {
    hide GetterOk, SingleFlight, AfterRun, Completed, CacheKey;
    StepGrows(s, a);
    if Leads(s, a.t) {
      GetterGrows(s, Next(s, a), s.threads[a.t].id, s.threads[a.t].get);
    } else {
      UnchangedThread(s, Next(s, a), a.t);
    }
  }

  lemma BeginActorOk(s: System, a: Action)
    requires a.Begin? && SingleFlight(s) && ThreadOk(s, a.t)
    ensures ThreadOk(Next(s, a), a.t)
  {
    hide Latest, LeadersLinked, FollowersLinked;
  }

  lemma ReadStaleActorOk(init: map<Id, Schedule>, s: System, a: Action)
    requires a.ReadStale? && CacheHolds(init, s) && ThreadOk(s, a.t)
    ensures ThreadOk(Next(s, a), a.t)
  {
    hide Latest, Lookup, Completed;
    if a.t in s.threads && s.threads[a.t].Missed? {
      assert HoldsLatest(init, s, s.threads[a.t].id);
      assert s.log[..|s.log|] == s.log;
    }
  }

  /** These threads leave, or wait for nothing that the log must support. */
  predicate Leaving(a: Action) {
    a.End? || a.Wake? || a.Cancel? || a.Refuse? || a.Read? || JobStep(a)
  }

  lemma LeavingActor(s: System, a: Action)
    requires Leaving(a)
    ensures RoleOf(Next(s, a), a.t) == RoleOf(s, a.t) || ThreadOk(Next(s, a), a.t)
  {
    hide Completed, IsFresh, Lookup, ValueOf, GetterOk;
  }

  lemma ActorOk(init: map<Id, Schedule>, s: System, a: Action)
    requires SingleFlight(s) && CacheHolds(init, s) && ThreadOk(s, Actor(a))
    ensures ThreadOk(Next(s, a), Actor(a))
  {
    hide SingleFlight, CacheHolds, ThreadOk, Grown, Next;
    StepGrows(s, a);
    if LeaderStep(a) {
      LeaderActorOk(s, a);
    } else if a.Begin? {
      BeginActorOk(s, a);
    } else if a.ReadStale? {
      ReadStaleActorOk(init, s, a);
    } else if Leaving(a) {
      LeavingActor(s, a);
      if RoleOf(Next(s, a), a.t) == RoleOf(s, a.t) { UnchangedThread(s, Next(s, a), a.t); }
    } else {
      TimelessActor(s, a);
      UnchangedThread(s, Next(s, a), 0);
    }
  }

  lemma TimelessActor(s: System, a: Action)
    requires a.Tick? || a.Clear?
    ensures RoleOf(Next(s, a), 0) == RoleOf(s, 0)
  {
  }

  lemma PlainEvents(s: System, a: Action)
    requires !a.End? && !a.Wake? && !a.Cancel? && !a.Refuse? && !a.Read?
    ensures var n := Next(s, a); n.log == s.log || (exists e: Event :: n.log == s.log + [e] && !e.Got?)
  {
    hide AfterRun, Completed, Lookup, CacheKey;
    var n := Next(s, a);
    if n.log != s.log {
      assert n.log == s.log + [n.log[|s.log|]] && !n.log[|s.log|].Got?;
    }
  }

  lemma EndGetsOk(s: System, t: Thread)
    requires Leads(s, t) && s.threads[t].stage.Ending? && s.threads[t].call < |s.calls|
    requires GotsOk(s.log) && ThreadOk(s, t)
    ensures GotsOk(EndRun(s, t).log)
  {
    hide GotsOk, Deliver, Latest;
    var Leader(id, c, Ending(result), get) := s.threads[t];
    var first, second := Closed(id, c, result), Answered(c, result);
    AppendGot(s.log, first);
    AppendGot(s.log + [first], second);
    var log := s.log + [first] + [second];
    assert log == Ended(s, t).log;
    DeliverAppends(Ended(s, t), id, get, Some(result));
    if get.Get? {
      assert get.heldAt <= |s.log| && log[|s.log|] == first;
      assert ClosedSince(log, get.heldAt, id, result);
    }
    DeliveryIsTrue(s, log, id, get, Some(result));
  }

  lemma WakeGetsOk(s: System, t: Thread)
    requires t in s.threads && s.threads[t].Follower? && s.threads[t].call < |s.calls| && s.calls[s.threads[t].call].result.Some?
    requires SingleFlight(s) && CallsLogged(s) && GotsOk(s.log) && ThreadOk(s, t)
    ensures GotsOk(WakeFollower(s, t).log)
  {
    hide GotsOk, Deliver, Latest, RunningLinked, LeadersLinked, ClosedOk, AnswerOk;
    var Follower(id, c, get) := s.threads[t];
    var result := s.calls[c].result.value;
    AppendGot(s.log, Answered(c, result));
    var log := s.log + [Answered(c, result)];
    DeliverAppends(s.(threads := s.threads - {t}, log := log), id, get, Some(result));
    assert CallOk(s, c);
    if get.Get? {
      assert log[s.calls[c].closedAt] == Closed(id, c, result);
      assert ClosedSince(log, get.heldAt, id, result);
    }
    DeliveryIsTrue(s, log, id, get, Some(result));
  }

  lemma LeaveGetsOk(s: System, a: Action)
    requires a.Cancel? || a.Refuse?
    requires GotsOk(s.log) && ThreadOk(s, a.t)
    ensures GotsOk(Next(s, a).log)
  {
    hide GotsOk, Deliver, Latest, GetterOk;
    if Next(s, a) != s {
      var role := s.threads[a.t];
      DeliverAppends(s.(threads := s.threads - {a.t}), role.id, role.get, None);
      DeliveryIsTrue(s, s.log, role.id, role.get, None);
    }
  }

  lemma ReadGetsOk(init: map<Id, Schedule>, s: System, a: Action)
    requires a.Read? && CacheHolds(init, s) && GotsOk(s.log)
    ensures GotsOk(Next(s, a).log)
  {
    hide GotsOk, Latest, Lookup, IsFresh;
    var n := Next(s, a);
    if n.log != s.log {
      assert HoldsLatest(init, s, a.id);
      AppendGot(s.log, n.log[|s.log|]);
    }
  }

  lemma NextKeepsGots(init: map<Id, Schedule>, s: System, a: Action)
    requires SingleFlight(s) && CacheHolds(init, s) && CallsLogged(s) && GotsOk(s.log) && ThreadOk(s, Actor(a))
    ensures GotsOk(Next(s, a).log)
  {
    hide SingleFlight, CacheHolds, CallsLogged, GotsOk, ThreadOk, EndRun, WakeFollower, Deliver;
    match a {
      case End(t) =>
        if Leads(s, t) && s.threads[t].stage.Ending? && s.threads[t].call < |s.calls| { EndGetsOk(s, t); }
      case Wake(t) =>
        if t in s.threads && s.threads[t].Follower? && s.threads[t].call < |s.calls| && s.calls[s.threads[t].call].result.Some? {
          WakeGetsOk(s, t);
        }
      case Cancel(_) => LeaveGetsOk(s, a);
      case Refuse(_) => LeaveGetsOk(s, a);
      case Read(_, _, _, _) => ReadGetsOk(init, s, a);
      case _ =>
        hide Next;
        PlainGetsOk(s, a);
    }
  }

  lemma PlainGetsOk(s: System, a: Action)
    requires !a.End? && !a.Wake? && !a.Cancel? && !a.Refuse? && !a.Read? && GotsOk(s.log)
    ensures GotsOk(Next(s, a).log)
  {
    hide Next, GotsOk;
    PlainEvents(s, a);
    var n := Next(s, a);
    if n.log != s.log {
      var e :| n.log == s.log + [e] && !e.Got?;
      AppendGot(s.log, e);
    }
  }

  lemma NextKeepsGets(init: map<Id, Schedule>, s: System, a: Action)
    requires SingleFlight(s) && CacheHolds(init, s) && CallsLogged(s) && GetsOk(s)
    ensures GetsOk(Next(s, a))
  {
    hide SingleFlight, CacheHolds, CallsLogged, GotsOk, ThreadOk, Next, Grown;
    assert ThreadOk(s, Actor(a));
    NextKeepsGots(init, s, a);
    ActorOk(init, s, a);
    StepGrows(s, a);
    OnlyActorChanges(s, a);
    ThreadsGrow(s, Next(s, a), Actor(a));
  }

  /**
   * Every value ever returned by Get, in every history: a cached one within the age
   * limit, the value of a run that finished during the call, or, when a stale value
   * is allowed and the refresh gave none, the value held at the second look.
   */
  lemma {:induction false} GetsAreTrue(init: map<Id, Schedule>, clock: int, actions: seq<Action>)
    requires OwnKeys(init)
    ensures GetsOk(Execute(init, clock, actions))
    decreases |actions|
  {
    hide Next, SingleFlight, Sane, CallsLogged, CacheHolds, OwnKeys, GotFrom;
    if actions != [] {
      hide GetsOk;
      var before := actions[..|actions| - 1];
      RunsAreSane(init, clock, before);
      RunsAreLogged(init, clock, before);
      CacheIsLatest(init, clock, before);
      GetsAreTrue(init, clock, before);
      NextKeepsGets(init, Execute(init, clock, before), actions[|actions| - 1]);
    }
  }

  // ----- Stale values -----

  predicate Touches(e: Event, id: Id) {
    e == Cleared(id) || (e.Published? && e.id == id)
  }

  /** The last publication or clear of `id` between two positions. */
  function LastTouch(log: seq<Event>, id: Id, first: nat, last: nat): (k: Option<nat>)
    requires first <= last <= |log|
    ensures k.Some? ==> first <= k.value < last && Touches(log[k.value], id)
    ensures forall i :: first <= i < last && Touches(log[i], id) ==> k.Some? && i <= k.value
    decreases last
  {
    if first == last then None
    else if Touches(log[last - 1], id) then Some(last - 1)
    else LastTouch(log, id, first, last - 1)
  }

  /** The second look holds what was last published or cleared since the first, and otherwise what the first held. */
  lemma {:induction false} SecondLookHolds(log: seq<Event>, id: Id, began: nat, heldAt: nat)
    requires began <= heldAt <= |log|
    ensures Latest(log[..heldAt], id) ==
            match LastTouch(log, id, began, heldAt)
            case None => Latest(log[..began], id)
            case Some(k) => if log[k].Published? then Some(log[k].entry) else None
    decreases heldAt
  {
    if began < heldAt {
      assert log[..heldAt] == log[..heldAt - 1] + [log[heldAt - 1]];
      AppendOne(log[..heldAt - 1], log[heldAt - 1], id);
      SecondLookHolds(log, id, began, heldAt - 1);
    }
  }

  ghost predicate HeldWhenBegan(log: seq<Event>, id: Id, v: Value, began: nat)
    requires began <= |log|
  {
    Latest(log[..began], id).Some? && Latest(log[..began], id).value.value == v
  }

  /**
   * Every stale answer of every history: it is the value held when Get began if
   * nothing was published or cleared between the looks; otherwise the last thing
   * that happened was a publication, and the answer is its value.
   */
  lemma StaleAnswerIs(init: map<Id, Schedule>, clock: int, actions: seq<Action>, k: nat)
    requires OwnKeys(init)
    requires var log := Execute(init, clock, actions).log; k < |log| && log[k].Got? && log[k].reason.Stale?
    ensures var log := Execute(init, clock, actions).log;
            var Got(id, v, Stale(began, heldAt, _, _)) := log[k];
            && began <= heldAt <= k
            && match LastTouch(log, id, began, heldAt)
               case None => HeldWhenBegan(log, id, v, began)
               case Some(j) => log[j].Published? && log[j].entry.value == v
  {
    hide Execute, Latest;
    GetsAreTrue(init, clock, actions);
    var log := Execute(init, clock, actions).log;
    var Got(id, v, Stale(began, heldAt, _, _)) := log[k];
    assert GotFrom(log[..k], log[k]);
    assert log[..k][..heldAt] == log[..heldAt];
    SecondLookHolds(log, id, began, heldAt);
  }

  /** A Get that finds nothing, a run that publishes, and the second look of that Get. */
  function LateStale(id: Id): seq<Action> {
    [Read(1, id, 0, true)] + CollidingRun(id) + [ReadStale(1), Refuse(1)]
  }

  lemma LateUntilBegun(init: map<Id, Schedule>, clock: int, id: Id)
    requires id in init
    ensures Execute(init, clock, LateStale(id)[..2]) == During(init, clock, id, Starting, map[1 := Missed(id, true, 0)], map[], {}, [])
  {
    hide Completed, CacheKey, IsFresh;
    var run := LateStale(id);
    assert run[..0] == [];
    ExecuteStep(init, clock, run, 0);
    ExecuteStep(init, clock, run, 1);
    assert Execute(init, clock, run[..1]) == Initial(init, clock).(threads := map[1 := Missed(id, true, 0)]);
  }

  /** Up to the publication, the Get has found nothing. */
  lemma LateUntilPublished(init: map<Id, Schedule>, clock: int, id: Id)
    requires id in init && !Completed(init[id])
    ensures var s := Execute(init, clock, LateStale(id)[..6]);
            && s.store == init && s.cache == map[KeyOf(init, id) := CacheEntry("v", clock)]
            && s.log == [Started(id), Published(id, CacheEntry("v", clock))]
            && 1 in s.threads && s.threads[1] == Missed(id, true, 0)
  {
    hide Completed, CacheKey, Execute;
    var run := LateStale(id);
    LateUntilBegun(init, clock, id);
    RunUntilReturn(init, clock, run, 2, id, Outcome(Some("v"), false), map[1 := Missed(id, true, 0)], map[], {}, []);
    ExecuteStep(init, clock, run, 5);
  }

  /** A publication between the two looks is returned as stale, though nothing was held when Get began. */
  lemma LateValueIsReturnedAsStale(init: map<Id, Schedule>, clock: int, id: Id)
    requires id in init && !Completed(init[id])
    ensures var s := Execute(init, clock, LateStale(id));
            |s.log| == 3 && s.log[2] == Got(id, "v", Stale(0, 2, true, None)) && Latest(s.log[..0], id) == None
  {
    hide Completed, CacheKey, Execute;
    var run := LateStale(id);
    LateUntilPublished(init, clock, id);
    ExecuteStep(init, clock, run, 6);
    ExecuteStep(init, clock, run, 7);
    assert run[..8] == run;
    var s7 := Execute(init, clock, run[..7]);
    assert s7.threads[1] == Refreshing(id, Get(0, 2, true, Some(CacheEntry("v", clock))));
  }
}

/** What the shared result cache holds, over all interleavings. */
module SchedulerCache {
  import opened Basics
  import opened Scheduler
  import opened SchedulerRuns

  function KeyOf(init: map<Id, Schedule>, id: Id): string
    requires id in init
  {
    CacheKey(init[id].realm, id)
  }

  /** No schedule shares its cache key with one that can still run. */
  ghost predicate OwnKeys(init: map<Id, Schedule>) {
    forall i, j :: i in init && j in init && !Completed(init[i]) && KeyOf(init, i) == KeyOf(init, j) ==> i == j
  }

  /** The separator of a key is its first NUL. */
  lemma FirstNul(realm: string, id: Id)
    requires '\0' !in realm
    ensures CacheKey(realm, id)[|realm|] == '\0'
    ensures forall k :: 0 <= k < |realm| ==> CacheKey(realm, id)[k] != '\0'
  {
    forall k | 0 <= k < |realm| ensures CacheKey(realm, id)[k] != '\0' { assert CacheKey(realm, id)[k] == realm[k]; }
  }

  lemma KeyIsInjective(r1: string, i: Id, r2: string, j: Id)
    requires '\0' !in r1 && '\0' !in r2 && CacheKey(r1, i) == CacheKey(r2, j)
    ensures r1 == r2 && i == j
  {
    var k := CacheKey(r1, i);
    FirstNul(r1, i);
    FirstNul(r2, j);
    assert |r1| == |r2|;
    assert r1 == k[..|r1|] && r2 == k[..|r2|];
    assert i == k[|r1| + 1..] && j == k[|r2| + 1..];
  }

  /** Realms without a NUL keep all keys apart. */
  lemma NulFreeRealmsOwnKeys(init: map<Id, Schedule>)
    requires forall id :: id in init ==> '\0' !in init[id].realm
    ensures OwnKeys(init)
  {
    forall i, j | i in init && j in init && KeyOf(init, i) == KeyOf(init, j) ensures i == j {
      KeyIsInjective(init[i].realm, i, init[j].realm, j);
    }
  }

  /** The cache answers for `id` with the latest published value, which only a schedule with runs left can have. */
  ghost predicate HoldsLatest(init: map<Id, Schedule>, s: System, id: Id) {
    Lookup(s, id) == Latest(s.log, id) && (Latest(s.log, id).Some? ==> id in init && !Completed(init[id]))
  }

  ghost predicate CacheHolds(init: map<Id, Schedule>, s: System) {
    forall id :: HoldsLatest(init, s, id)
  }

  /** The key under which `id` is stored never changes. */
  lemma StoredKey(init: map<Id, Schedule>, s: System, id: Id)
    requires Sane(init, s)
    ensures id in s.store <==> id in init
    ensures id in s.store ==> CacheKey(s.store[id].realm, id) == KeyOf(init, id)
    ensures id in s.store && !Completed(s.store[id]) ==> !Completed(init[id])
  {
    assert SaneStore(init, s, id);
    hide CacheKey;
  }

  lemma CopyKey(init: map<Id, Schedule>, id: Id, c: Schedule)
    requires SaneCopy(init, id, c)
    ensures CacheKey(c.realm, id) == KeyOf(init, id) && (!Completed(c) ==> !Completed(init[id]))
  {
  }

  lemma LookupByKey(init: map<Id, Schedule>, s: System, id: Id)
    requires Sane(init, s)
    ensures Lookup(s, id) == if id in init && KeyOf(init, id) in s.cache then Some(s.cache[KeyOf(init, id)]) else None
  {
    hide CacheKey, Sane;
    StoredKey(init, s, id);
  }

  /** A step that leaves the cache alone and appends no publication or clear. */
  lemma SameCacheHolds(init: map<Id, Schedule>, s: System, n: System)
    requires Sane(init, s) && Sane(init, n) && CacheHolds(init, s) && n.cache == s.cache
    requires forall id :: Latest(n.log, id) == Latest(s.log, id)
    ensures CacheHolds(init, n)
  {
    hide Sane, Lookup, Latest, CacheKey, Completed;
    forall id ensures HoldsLatest(init, n, id) {
      assert HoldsLatest(init, s, id);
      LookupByKey(init, s, id);
      LookupByKey(init, n, id);
    }
  }

  lemma PublishHolds(init: map<Id, Schedule>, s: System, n: System, id: Id, entry: CacheEntry)
    requires OwnKeys(init) && Sane(init, s) && Sane(init, n) && CacheHolds(init, s)
    requires id in init && !Completed(init[id])
    requires n.cache == s.cache[KeyOf(init, id) := entry] && n.log == s.log + [Published(id, entry)]
    ensures CacheHolds(init, n)
  {
    hide Sane, Lookup, Latest, KeyOf, Completed;
    forall i ensures HoldsLatest(init, n, i) {
      assert HoldsLatest(init, s, i);
      AppendOne(s.log, Published(id, entry), i);
      LookupByKey(init, s, i);
      LookupByKey(init, n, i);
    }
  }

  lemma ClearHolds(init: map<Id, Schedule>, s: System, n: System, id: Id)
    requires OwnKeys(init) && Sane(init, s) && Sane(init, n) && CacheHolds(init, s) && id in init
    requires n.cache == s.cache - {KeyOf(init, id)} && n.log == s.log + [Cleared(id)]
    ensures CacheHolds(init, n)
  {
    hide Sane, Lookup, Latest, KeyOf, Completed;
    forall i ensures HoldsLatest(init, n, i) {
      assert HoldsLatest(init, s, i);
      AppendOne(s.log, Cleared(id), i);
      LookupByKey(init, s, i);
      LookupByKey(init, n, i);
    }
  }

  /** Every step but a publication or a clear leaves cache and publications alone. */
  lemma OtherStepsKeepLatest(s: System, a: Action)
    requires !a.Publish? && !a.Clear?
    ensures Next(s, a).cache == s.cache
    ensures forall id :: Latest(Next(s, a).log, id) == Latest(s.log, id)
  {
    var n := Next(s, a);
    if QuietAction(a) {
      hide Next, Starts, Saves, Latest;
      QuietActionIsQuiet(s, a);
      assert n.log == s.log + n.log[|s.log|..];
      forall id ensures Latest(n.log, id) == Latest(s.log, id) { AppendQuiet(s.log, n.log[|s.log|..], id); }
    } else {
      hide Starts, Saves, Latest, AfterRun, Completed;
      forall id ensures Latest(n.log, id) == Latest(s.log, id) {
        if n.log != s.log { AppendOne(s.log, n.log[|s.log|], id); }
      }
    }
  }

  lemma PublishStepHolds(init: map<Id, Schedule>, s: System, t: Thread)
    requires OwnKeys(init) && Sane(init, s) && CacheHolds(init, s) && Leads(s, t) && s.threads[t].stage.Publishing?
    requires Sane(init, PublishResult(s, t))
    ensures CacheHolds(init, PublishResult(s, t))
  {
    hide OwnKeys, CacheHolds, SaneStore, CacheKey, Completed;
    var n := PublishResult(s, t);
    var Leader(id, _, Publishing(copy, outcome), _) := s.threads[t];
    assert SaneBusy(init, s, t);
    hide Sane;
    CopyKey(init, id, copy);
    if outcome.failed || outcome.value.None? {
      SameCacheHolds(init, s, n);
    } else {
      PublishHolds(init, s, n, id, CacheEntry(outcome.value.value, s.clock));
    }
  }

  lemma NextKeepsCache(init: map<Id, Schedule>, s: System, a: Action)
    requires OwnKeys(init) && SingleFlight(s) && Sane(init, s) && CacheHolds(init, s)
    ensures CacheHolds(init, Next(s, a))
  {
    hide OwnKeys, Sane, SingleFlight, CacheHolds, PublishResult, CacheKey, KeyOf;
    NextKeepsSane(init, s, a);
    match a {
      case Publish(t) => if Leads(s, t) && s.threads[t].stage.Publishing? { PublishStepHolds(init, s, t); }
      case Clear(id) =>
        StoredKey(init, s, id);
        if id in s.store { ClearHolds(init, s, Next(s, a), id); }
      case _ =>
        hide Next, Latest;
        OtherStepsKeepLatest(s, a);
        SameCacheHolds(init, s, Next(s, a));
    }
  }

  lemma {:induction false} CacheIsLatest(init: map<Id, Schedule>, clock: int, actions: seq<Action>)
    requires OwnKeys(init)
    ensures CacheHolds(init, Execute(init, clock, actions))
    decreases |actions|
  {
    hide OwnKeys, Next, Sane, SingleFlight, Completed;
    if actions != [] {
      var before := actions[..|actions| - 1];
      RunsAreSane(init, clock, before);
      hide CacheHolds;
      CacheIsLatest(init, clock, before);
      NextKeepsCache(init, Execute(init, clock, before), actions[|actions| - 1]);
    }
  }

  /** At every moment of every history, the cache holds what was last published and not cleared. */
  ghost predicate AlwaysLatest(init: map<Id, Schedule>, clock: int) {
    forall actions: seq<Action>, id: Id :: var s := Execute(init, clock, actions); Lookup(s, id) == Latest(s.log, id)
  }

  /** The run of `i` that lets its value be read as that of `j`. */
  function CollidingRun(i: Id): seq<Action> {
    [Begin(0, i), Load(0), Mark(0), TargetReturns(0, Outcome(Some("v"), false)), Publish(0)]
  }

  lemma CollidingRunPublishes(init: map<Id, Schedule>, clock: int, i: Id)
    requires i in init && !Completed(init[i])
    ensures var s := Execute(init, clock, CollidingRun(i));
            && s.store == init && s.cache == map[KeyOf(init, i) := CacheEntry("v", clock)]
            && s.log == [Started(i), Published(i, CacheEntry("v", clock))]
  {
    hide Execute, Completed, CacheKey;
    var run := CollidingRun(i);
    CollidingRunBegins(init, clock, i);
    RunUntilReturn(init, clock, run, 1, i, Outcome(Some("v"), false), map[], map[], {}, []);
    ExecuteStep(init, clock, run, 4);
    assert run[..5] == run;
  }

  lemma CollidingRunBegins(init: map<Id, Schedule>, clock: int, i: Id)
    ensures Execute(init, clock, CollidingRun(i)[..1]) == During(init, clock, i, Starting, map[], map[], {}, [])
  {
    var run := CollidingRun(i);
    assert run[..0] == [];
    ExecuteStep(init, clock, run, 0);
  }

  /** The cache is exact in every history if and only if schedules that can still run own their keys. */
  lemma AlwaysLatestIffOwnKeys(init: map<Id, Schedule>, clock: int)
    ensures AlwaysLatest(init, clock) <==> OwnKeys(init)
  {
    hide Execute, Lookup, Latest, Completed, CacheKey;
    if OwnKeys(init) {
      forall actions: seq<Action>, id: Id
        ensures Lookup(Execute(init, clock, actions), id) == Latest(Execute(init, clock, actions).log, id)
      {
        CacheIsLatest(init, clock, actions);
        assert HoldsLatest(init, Execute(init, clock, actions), id);
      }
    } else {
      var i, j :| i in init && j in init && !Completed(init[i]) && KeyOf(init, i) == KeyOf(init, j) && i != j;
      CollisionIsSeen(init, clock, i, j);
    }
  }

  lemma CollisionIsSeen(init: map<Id, Schedule>, clock: int, i: Id, j: Id)
    requires i in init && j in init && !Completed(init[i]) && KeyOf(init, i) == KeyOf(init, j) && i != j
    ensures var s := Execute(init, clock, CollidingRun(i)); Lookup(s, j) != Latest(s.log, j)
  {
    hide Execute, Completed, CollidingRun;
    CollidingRunPublishes(init, clock, i);
    var s := Execute(init, clock, CollidingRun(i));
    assert s.log == [] + [Started(i)] + [Published(i, CacheEntry("v", clock))];
    AppendOne([], Started(i), j);
    AppendOne([] + [Started(i)], Published(i, CacheEntry("v", clock)), j);
  }

  /** Two realms whose keys collide. */
  lemma NulRealmsCollide()
    ensures CacheKey("a\0b", "c") == CacheKey("a", "b\0c")
  {
    assert CacheKey("a\0b", "c") == "a\0b\0c";
    assert CacheKey("a", "b\0c") == "a\0b\0c";
  }
}

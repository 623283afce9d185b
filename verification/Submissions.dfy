/**
 * Concurrent submissions against the store of paused states. Each action is one
 * critical section of the store or one invocation's private step; actions of
 * different invocations interleave in any order.
 */
module Submissions {
  import opened Basics

  type Id = string
  type Thread = nat

  /** An invocation that has taken state `id` and not yet validated its inputs, or one that runs under a new id. */
  datatype Phase = Holding(id: Id) | Executing(id: Id)

  /** What the store has seen, in order. */
  datatype Event = Take(id: Id) | Put(id: Id) | Accept(id: Id)

  /** `issued` holds every id ever generated. */
  datatype System = System(store: set<Id>, issued: set<Id>, inFlight: map<Thread, Phase>, log: seq<Event>)

  datatype Action =
    | Start(t: Thread, newId: Id)
    | TakeState(t: Thread, id: Id)
    | Lose(t: Thread)
    | Reject(t: Thread)
    | Approve(t: Thread, newId: Id)
    | Pause(t: Thread)
    | Suspend(t: Thread, newId: Id)
    | Finish(t: Thread)
    | Evict(id: Id)

  function Initial(): System {
    System({}, {}, map[], [])
  }

  predicate Held(s: System, t: Thread) {
    t in s.inFlight && s.inFlight[t].Holding?
  }

  predicate Runs(s: System, t: Thread) {
    t in s.inFlight && s.inFlight[t].Executing?
  }

  /** Actions whose guard fails leave the system as it is; a take of an absent state is such a miss. */
  function Next(s: System, a: Action): System {
    match a
    case Start(t, newId) =>
      if t in s.inFlight || newId in s.issued then s
      else s.(issued := s.issued + {newId}, inFlight := s.inFlight[t := Executing(newId)])
    case TakeState(t, id) =>
      if t in s.inFlight || id !in s.store then s
      else s.(store := s.store - {id}, inFlight := s.inFlight[t := Holding(id)], log := s.log + [Take(id)])
    case Lose(t) => if Held(s, t) then s.(inFlight := s.inFlight - {t}) else s
    case Reject(t) =>
      if !Held(s, t) then s
      else
        var id := s.inFlight[t].id;
        s.(store := s.store + {id}, inFlight := s.inFlight - {t}, log := s.log + [Put(id)])
    case Approve(t, newId) =>
      if !Held(s, t) || newId in s.issued then s
      else s.(issued := s.issued + {newId}, inFlight := s.inFlight[t := Executing(newId)],
              log := s.log + [Accept(s.inFlight[t].id)])
    case Pause(t) =>
      if !Runs(s, t) then s
      else
        var id := s.inFlight[t].id;
        s.(store := s.store + {id}, inFlight := s.inFlight - {t}, log := s.log + [Put(id)])
    case Suspend(t, newId) =>
      if !Runs(s, t) || newId in s.issued then s
      else s.(issued := s.issued + {newId}, store := s.store + {newId}, inFlight := s.inFlight - {t}, log := s.log + [Put(newId)])
    case Finish(t) => if Runs(s, t) then s.(inFlight := s.inFlight - {t}) else s
    case Evict(id) => s.(store := s.store - {id})
  }

  function Execute(actions: seq<Action>): System {
    if actions == [] then Initial()
    else Next(Execute(actions[..|actions| - 1]), actions[|actions| - 1])
  }

  /** No two owners of one id: the store and all invocations hold disjoint ids, all of them issued. */
  ghost predicate Owned(s: System) {
    && s.store <= s.issued
    && (forall t :: t in s.inFlight ==> s.inFlight[t].id in s.issued && s.inFlight[t].id !in s.store)
    && (forall t, u :: t in s.inFlight && u in s.inFlight && t != u ==> s.inFlight[t].id != s.inFlight[u].id)
  }

  /** An id that can still be taken has been put after its last take, and was never accepted. */
  ghost predicate Takeable(log: seq<Event>, id: Id) {
    && Accept(id) !in log
    && exists k :: 0 <= k < |log| && log[k] == Put(id) && forall i :: k <= i < |log| ==> log[i] != Take(id)
  }

  ghost predicate LogMatches(s: System) {
    && (forall e :: e in s.log ==> e.id in s.issued)
    && (forall id :: id in s.store ==> Takeable(s.log, id))
    && (forall t :: t in s.inFlight ==> Accept(s.inFlight[t].id) !in s.log)
    && (forall t :: Runs(s, t) ==> Take(s.inFlight[t].id) !in s.log)
  }

  /** Two takes of one state are separated by a put of it. */
  ghost predicate Separated(log: seq<Event>) {
    forall i, j, id :: 0 <= i < j < |log| && log[i] == Take(id) && log[j] == Take(id) ==>
      exists k :: i < k < j && log[k] == Put(id)
  }

  /** An accepted state is never taken again. */
  ghost predicate Spent(log: seq<Event>) {
    forall i, j, id :: 0 <= i < j < |log| && log[i] == Accept(id) ==> log[j] != Take(id)
  }

  ghost predicate Sequential(log: seq<Event>) {
    Separated(log) && Spent(log)
  }

  lemma PutIsTakeable(log: seq<Event>, id: Id)
    requires Accept(id) !in log
    ensures Takeable(log + [Put(id)], id)
  {
    var all := log + [Put(id)];
    assert all[|log|] == Put(id);
  }

  lemma OthersStayTakeable(log: seq<Event>, e: Event, id: Id)
    requires Takeable(log, id) && e != Take(id) && e != Accept(id)
    ensures Takeable(log + [e], id)
  {
    var k :| 0 <= k < |log| && log[k] == Put(id) && forall i :: k <= i < |log| ==> log[i] != Take(id);
    assert (log + [e])[k] == Put(id);
  }

  lemma TakeIsSeparated(log: seq<Event>, id: Id)
    requires Separated(log) && Takeable(log, id)
    ensures Separated(log + [Take(id)])
  {
    var all := log + [Take(id)];
    var p :| 0 <= p < |log| && log[p] == Put(id) && forall i :: p <= i < |log| ==> log[i] != Take(id);
    forall i, j, x | 0 <= i < j < |all| && all[i] == Take(x) && all[j] == Take(x)
      ensures exists k :: i < k < j && all[k] == Put(x)
    {
      if j < |log| {
        var k :| i < k < j && log[k] == Put(x);
        assert all[k] == Put(x);
      } else {
        assert log[i] == Take(id);
        assert i < p < j && all[p] == Put(x);
      }
    }
  }

  lemma TakeIsSequential(log: seq<Event>, id: Id)
    requires Sequential(log) && Takeable(log, id)
    ensures Sequential(log + [Take(id)])
  {
    hide Separated;
    TakeIsSeparated(log, id);
    var all := log + [Take(id)];
    forall i, j, x | 0 <= i < j < |all| && all[i] == Accept(x) ensures all[j] != Take(x) {
      assert log[i] == Accept(x);
    }
  }

  lemma OtherEventIsSequential(log: seq<Event>, e: Event)
    requires Sequential(log) && !e.Take?
    ensures Sequential(log + [e])
  {
    var all := log + [e];
    forall i, j, x | 0 <= i < j < |all| && all[i] == Take(x) && all[j] == Take(x)
      ensures exists k :: i < k < j && all[k] == Put(x)
    {
      var k :| i < k < j && log[k] == Put(x);
      assert all[k] == Put(x);
    }
  }

  lemma NextKeepsOwned(s: System, a: Action)
    requires Owned(s)
    ensures Owned(Next(s, a))
  {
  }

  /** The log grows by at most one event, which the guard of its action justifies. */
  ghost predicate Justified(s: System, n: System, e: Event) {
    match e
    case Take(id) => id in s.store && n.store == s.store - {id}
    case Put(id) => n.store == s.store + {id} && Accept(id) !in s.log && id in n.issued
    case Accept(id) => n.store == s.store && id !in s.store && id in s.issued
  }

  lemma NextAppends(s: System, a: Action) returns (e: Option<Event>)
    requires Owned(s) && LogMatches(s)
    ensures e.None? ==> Next(s, a).log == s.log && Next(s, a).store <= s.store
    ensures e.Some? ==> Next(s, a).log == s.log + [e.value] && Justified(s, Next(s, a), e.value)
  {
    hide Takeable;
    var n := Next(s, a);
    e := if n.log == s.log then None else Some(n.log[|s.log|]);
  }

  lemma NextKeepsInFlight(s: System, a: Action)
    requires Owned(s) && LogMatches(s)
    ensures var n := Next(s, a);
            && (forall e :: e in n.log ==> e.id in n.issued)
            && (forall t :: t in n.inFlight ==> Accept(n.inFlight[t].id) !in n.log)
            && (forall t :: Runs(n, t) ==> Take(n.inFlight[t].id) !in n.log)
  {
    var n := Next(s, a);
    forall t | t in n.inFlight
      ensures Accept(n.inFlight[t].id) !in n.log
      ensures Runs(n, t) ==> Take(n.inFlight[t].id) !in n.log
    {
      var id := n.inFlight[t].id;
      assert Accept(id) in s.log ==> id in s.issued;
      assert Take(id) in s.log ==> id in s.issued;
      if a.Approve? && Held(s, a.t) && t != a.t {
        assert s.inFlight[t].id != s.inFlight[a.t].id;
      }
    }
  }

  lemma NextKeepsLog(s: System, a: Action)
    requires Owned(s) && LogMatches(s) && Sequential(s.log)
    ensures LogMatches(Next(s, a)) && Sequential(Next(s, a).log)
  {
    hide Takeable, Sequential, Next, Owned;
    var n := Next(s, a);
    var e := NextAppends(s, a);
    NextKeepsInFlight(s, a);
    if e.Some? {
      if e.value.Take? { TakeIsSequential(s.log, e.value.id); } else { OtherEventIsSequential(s.log, e.value); }
      forall id | id in n.store ensures Takeable(n.log, id) {
        if e.value == Put(id) { PutIsTakeable(s.log, id); } else { OthersStayTakeable(s.log, e.value, id); }
      }
    }
  }

  /**
   * In every interleaving of any number of submissions, pauses, rejections and
   * evictions: a stored state is taken at most once between two stores of it, and
   * once a submission has passed validation its token is never accepted again.
   */
  lemma {:induction false} EveryInterleavingIsSequential(actions: seq<Action>)
    ensures Owned(Execute(actions)) && LogMatches(Execute(actions)) && Sequential(Execute(actions).log)
    decreases |actions|
  {
    if actions != [] {
      var before := actions[..|actions| - 1];
      EveryInterleavingIsSequential(before);
      NextKeepsOwned(Execute(before), actions[|actions| - 1]);
      NextKeepsLog(Execute(before), actions[|actions| - 1]);
    }
  }

  /** After an accepted submission the id stays out of the store for ever, so every later take of it misses. */
  lemma {:induction false} AcceptedTokenIsSpent(actions: seq<Action>, later: seq<Action>, id: Id)
    requires Accept(id) in Execute(actions).log
    ensures Accept(id) in Execute(actions + later).log && id !in Execute(actions + later).store
    decreases |later|
  {
    if later == [] {
      assert actions + later == actions;
      EveryInterleavingIsSequential(actions);
    } else {
      var all := actions + later;
      assert all[..|all| - 1] == actions + later[..|later| - 1];
      AcceptedTokenIsSpent(actions, later[..|later| - 1], id);
      EveryInterleavingIsSequential(all);
    }
  }


  /** A submission that is refused gives the state back: the same token can be tried again. */
  lemma RejectionGivesBack(s: System, t: Thread, id: Id)
    requires t !in s.inFlight && id in s.store
    ensures var taken := Next(s, TakeState(t, id));
            var n := Next(taken, Reject(t));
            && id !in taken.store && taken.inFlight == s.inFlight[t := Holding(id)]
            && n.store == s.store && n.inFlight == s.inFlight && n.log == s.log + [Take(id), Put(id)]
  {
    assert s.store - {id} + {id} == s.store;
    assert s.inFlight[t := Holding(id)] - {t} == s.inFlight;
  }

  /** One that is accepted goes on under a new id, and is stored under that when it pauses, or under another when it suspends. */
  lemma AcceptanceIsStoredAnew(s: System, t: Thread, id: Id, newId: Id, resumeId: Id)
    requires t !in s.inFlight && id in s.store && newId !in s.issued && resumeId !in s.issued && newId != resumeId
    ensures var runs := Next(Next(s, TakeState(t, id)), Approve(t, newId));
            && runs.store == s.store - {id} && runs.inFlight == s.inFlight[t := Executing(newId)]
            && Next(runs, Pause(t)).store == s.store - {id} + {newId}
            && Next(runs, Suspend(t, resumeId)).store == s.store - {id} + {resumeId}
            && Next(runs, Finish(t)).store == s.store - {id}
            && Next(Next(s, TakeState(t, id)), Lose(t)).store == s.store - {id}
            && forall a :: a in [Pause(t), Suspend(t, resumeId), Finish(t)] ==> Next(runs, a).inFlight == s.inFlight
  {
    assert s.inFlight[t := Executing(newId)] - {t} == s.inFlight;
    assert s.inFlight[t := Holding(id)][t := Executing(newId)] == s.inFlight[t := Executing(newId)];
  }
}

/**
 * The static environment cache: concurrent lookups of env paths share one resolver
 * call per path, and a successful value is kept for the lifetime of the manager.
 * Each action is one critical section; the resolver runs outside the lock.
 */
module EnvMemo {
  import opened Basics

  type Raw = string
  type Thread = nat

  /** A call in progress, or its outcome once its `done` channel is closed. */
  datatype Call = Call(path: string, outcome: Option<Result<Raw>>)

  datatype Role = Leading(path: string, call: nat) | Waiting(path: string, call: nat)

  datatype Event =
    | Invoke(path: string)
    | Complete(path: string, result: Result<Raw>)
    | Answer(path: string, result: Result<Raw>)

  datatype Memo = Memo(
    values: map<string, Raw>,
    pending: map<string, nat>,
    calls: seq<Call>,
    threads: map<Thread, Role>,
    log: seq<Event>)

  /** A lookup begins, the resolver of a leader returns, a follower sees its call done. */
  datatype Action = Enter(t: Thread, path: string) | Finish(t: Thread, result: Result<Raw>) | Wake(t: Thread)

  function Initial(): Memo {
    Memo(map[], map[], [], map[], [])
  }

  function Next(s: Memo, a: Action): Memo {
    match a
    case Enter(t, path) =>
      if t in s.threads then s
      else if path in s.values then s.(log := s.log + [Answer(path, Ok(s.values[path]))])
      else if path in s.pending then s.(threads := s.threads[t := Waiting(path, s.pending[path])])
      else
        var c := |s.calls|;
        s.(pending := s.pending[path := c], calls := s.calls + [Call(path, None)],
           threads := s.threads[t := Leading(path, c)], log := s.log + [Invoke(path)])
    case Finish(t, result) =>
      if t !in s.threads || !s.threads[t].Leading? || s.threads[t].call >= |s.calls| then s
      else
        var Leading(path, c) := s.threads[t];
        s.(pending := s.pending - {path}, calls := s.calls[c := Call(path, Some(result))],
           values := if result.Ok? then s.values[path := result.value] else s.values,
           threads := s.threads - {t}, log := s.log + [Complete(path, result), Answer(path, result)])
    case Wake(t) =>
      if t !in s.threads || !s.threads[t].Waiting? || s.threads[t].call >= |s.calls| || s.calls[s.threads[t].call].outcome.None? then s
      else
        var Waiting(path, c) := s.threads[t];
        s.(threads := s.threads - {t}, log := s.log + [Answer(path, s.calls[c].outcome.value)])
  }

  function Execute(actions: seq<Action>): Memo {
    if actions == [] then Initial() else Next(Execute(actions[..|actions| - 1]), actions[|actions| - 1])
  }

  /** The resolver is in flight for a path: its last invocation has not completed. */
  predicate InFlight(log: seq<Event>, path: string) {
    log != [] &&
    match log[|log| - 1]
    case Invoke(p) => p == path || InFlight(log[..|log| - 1], path)
    case Complete(p, _) => p != path && InFlight(log[..|log| - 1], path)
    case Answer(_, _) => InFlight(log[..|log| - 1], path)
  }

  ghost predicate Succeeded(log: seq<Event>, path: string) {
    exists v :: Complete(path, Ok(v)) in log
  }

  ghost predicate PendingLinked(s: Memo) {
    forall p :: p in s.pending ==> p !in s.values && s.pending[p] < |s.calls| && s.calls[s.pending[p]] == Call(p, None)
  }

  /** Every leader owns the pending call of its path, so no path has two. */
  ghost predicate LeadersLinked(s: Memo) {
    && (forall t :: t in s.threads && s.threads[t].Leading? ==>
          s.threads[t].path in s.pending && s.pending[s.threads[t].path] == s.threads[t].call)
    && (forall t, u :: t in s.threads && u in s.threads && t != u && s.threads[t].Leading? && s.threads[u].Leading? ==>
          s.threads[t].path != s.threads[u].path)
  }

  ghost predicate CallsLinked(s: Memo) {
    && (forall t :: t in s.threads ==> s.threads[t].call < |s.calls| && s.calls[s.threads[t].call].path == s.threads[t].path)
    && (forall c :: 0 <= c < |s.calls| && s.calls[c].outcome.Some? && s.calls[c].outcome.value.Ok? ==>
          s.calls[c].path in s.values && s.values[s.calls[c].path] == s.calls[c].outcome.value.value)
  }

  /** Pending calls, their leaders and their records agree. */
  ghost predicate Linked(s: Memo) {
    PendingLinked(s) && LeadersLinked(s) && CallsLinked(s)
  }

  /** The log tells the same story as the cache. */
  ghost predicate Told(s: Memo) {
    && (forall p :: p in s.pending <==> InFlight(s.log, p))
    && (forall e :: e in s.log && !e.Invoke? && e.result.Ok? ==> e.path in s.values && s.values[e.path] == e.result.value)
  }

  /** The resolver is invoked for a path only when it is neither in flight for it nor has succeeded on it. */
  ghost predicate InvokedWell(log: seq<Event>) {
    forall j, p :: 0 <= j < |log| && log[j] == Invoke(p) ==> !InFlight(log[..j], p) && !Succeeded(log[..j], p)
  }

  /** All successful answers for one path agree. */
  ghost predicate AnswersAgree(log: seq<Event>) {
    forall p, v, w :: Answer(p, Ok(v)) in log && Answer(p, Ok(w)) in log ==> v == w
  }

  lemma NextKeepsPending(s: Memo, a: Action)
    requires Linked(s)
    ensures PendingLinked(Next(s, a))
  {
    var n := Next(s, a);
    forall p | p in n.pending ensures p !in n.values && n.pending[p] < |n.calls| && n.calls[n.pending[p]] == Call(p, None) {
      if a.Finish? && n != s { assert s.calls[s.threads[a.t].call] == Call(s.threads[a.t].path, None); }
    }
  }

  lemma NextKeepsLeaders(s: Memo, a: Action)
    requires LeadersLinked(s)
    ensures LeadersLinked(Next(s, a))
  {
  }

  lemma NextKeepsCalls(s: Memo, a: Action)
    requires Linked(s)
    ensures CallsLinked(Next(s, a))
  {
    var n := Next(s, a);
    if a.Finish? && n != s {
      FinishingPathIsNew(s, a.t);
    }
  }

  lemma FinishingPathIsNew(s: Memo, t: Thread)
    requires PendingLinked(s) && LeadersLinked(s) && t in s.threads && s.threads[t].Leading?
    ensures s.threads[t].path !in s.values
  {
  }

  lemma NextKeepsLinked(s: Memo, a: Action)
    requires Linked(s)
    ensures Linked(Next(s, a))
  {
    NextKeepsPending(s, a);
    NextKeepsLeaders(s, a);
    NextKeepsCalls(s, a);
  }

  lemma InFlightAppend(log: seq<Event>, e: Event, p: string)
    ensures InFlight(log + [e], p) <==>
            match e
            case Invoke(q) => q == p || InFlight(log, p)
            case Complete(q, _) => q != p && InFlight(log, p)
            case Answer(_, _) => InFlight(log, p)
  {
    assert (log + [e])[..|log|] == log;
  }

  /** One more event, which if it is an invocation is justified by the log before it. */
  lemma AppendInvokedWell(log: seq<Event>, e: Event)
    requires InvokedWell(log) && (e.Invoke? ==> !InFlight(log, e.path) && !Succeeded(log, e.path))
    ensures InvokedWell(log + [e])
  {
    hide InFlight, Succeeded;
    var after := log + [e];
    forall j, p | 0 <= j < |after| && after[j] == Invoke(p) ensures !InFlight(after[..j], p) && !Succeeded(after[..j], p) {
      if j < |log| { assert after[..j] == log[..j] && after[j] == log[j]; } else { assert after[..j] == log; }
    }
  }

  lemma NotSucceeded(s: Memo, path: string)
    requires Told(s) && path !in s.values
    ensures !Succeeded(s.log, path)
  {
    hide InFlight;
  }

  lemma AnswerAppended(s: Memo, n: Memo, e: Event)
    requires Told(s) && InvokedWell(s.log) && e.Answer? && n.log == s.log + [e]
    requires n.values == s.values && n.pending == s.pending
    requires e.result.Ok? ==> e.path in s.values && s.values[e.path] == e.result.value
    ensures Told(n) && InvokedWell(n.log)
  {
    hide InFlight, InvokedWell;
    forall p ensures InFlight(n.log, p) <==> InFlight(s.log, p) { InFlightAppend(s.log, e, p); }
    AppendInvokedWell(s.log, e);
  }

  lemma InvokeAppended(s: Memo, n: Memo, path: string)
    requires Told(s) && InvokedWell(s.log) && n.log == s.log + [Invoke(path)]
    requires path !in s.values && path !in s.pending
    requires n.values == s.values && n.pending.Keys == s.pending.Keys + {path}
    ensures Told(n) && InvokedWell(n.log)
  {
    hide InFlight, InvokedWell, Succeeded;
    forall p ensures InFlight(n.log, p) <==> p == path || InFlight(s.log, p) { InFlightAppend(s.log, Invoke(path), p); }
    NotSucceeded(s, path);
    AppendInvokedWell(s.log, Invoke(path));
  }

  lemma CompleteAppended(s: Memo, n: Memo, path: string, result: Result<Raw>)
    requires Told(s) && InvokedWell(s.log) && n.log == s.log + [Complete(path, result)]
    requires path !in s.values && n.pending == s.pending - {path}
    requires n.values == if result.Ok? then s.values[path := result.value] else s.values
    ensures Told(n) && InvokedWell(n.log)
  {
    hide InFlight, InvokedWell;
    forall p ensures InFlight(n.log, p) <==> p != path && InFlight(s.log, p) { InFlightAppend(s.log, Complete(path, result), p); }
    AppendInvokedWell(s.log, Complete(path, result));
  }

  lemma NextKeepsTold(s: Memo, a: Action)
    requires Linked(s) && Told(s) && InvokedWell(s.log)
    ensures Told(Next(s, a)) && InvokedWell(Next(s, a).log)
  {
    hide InFlight, InvokedWell, Told;
    var n := Next(s, a);
    if n.log == s.log {
      SameStory(s, n);
    } else {
      match a {
        case Enter(_, path) =>
          if path in s.values { AnswerAppended(s, n, Answer(path, Ok(s.values[path]))); } else { InvokeAppended(s, n, path); }
        case Finish(t, result) =>
          var path := s.threads[t].path;
          var mid := n.(log := s.log + [Complete(path, result)]);
          CompleteAppended(s, mid, path, result);
          assert n.log == mid.log + [Answer(path, result)];
          AnswerAppended(mid, n, Answer(path, result));
        case Wake(t) =>
          AnswerAppended(s, n, Answer(s.threads[t].path, s.calls[s.threads[t].call].outcome.value));
      }
    }
  }

  lemma SameStory(s: Memo, n: Memo)
    requires Told(s) && InvokedWell(s.log) && n.log == s.log && n.values == s.values && n.pending == s.pending
    ensures Told(n) && InvokedWell(n.log)
  {
  }

  /**
   * In every interleaving: the resolver is never in flight twice for one path, never
   * called again after a success, and all successful lookups of a path agree.
   */
  lemma {:induction false} EveryInterleavingIsStable(actions: seq<Action>)
    ensures Linked(Execute(actions)) && Told(Execute(actions))
    ensures InvokedWell(Execute(actions).log) && AnswersAgree(Execute(actions).log)
    decreases |actions|
  {
    if actions != [] {
      var before := actions[..|actions| - 1];
      EveryInterleavingIsStable(before);
      NextKeepsLinked(Execute(before), actions[|actions| - 1]);
      NextKeepsTold(Execute(before), actions[|actions| - 1]);
    }
  }


  /** An answer repeats a completed call of its path. */
  ghost predicate Repeats(log: seq<Event>, e: Event) {
    e.Answer? ==> Complete(e.path, e.result) in log
  }

  /** Kept values and finished calls come from completed calls. */
  ghost predicate Kept(s: Memo) {
    && (forall p :: p in s.values ==> Complete(p, Ok(s.values[p])) in s.log)
    && (forall c :: 0 <= c < |s.calls| && s.calls[c].outcome.Some? ==> Complete(s.calls[c].path, s.calls[c].outcome.value) in s.log)
  }

  ghost predicate AllRepeat(log: seq<Event>) {
    forall j :: 0 <= j < |log| ==> Repeats(log[..j], log[j])
  }

  ghost predicate FromCompletions(s: Memo) {
    Kept(s) && AllRepeat(s.log)
  }

  lemma AppendRepeats(log: seq<Event>, e: Event)
    requires AllRepeat(log) && Repeats(log, e)
    ensures AllRepeat(log + [e])
  {
    hide Repeats;
    var after := log + [e];
    forall j | 0 <= j < |after| ensures Repeats(after[..j], after[j]) {
      if j < |log| { assert after[..j] == log[..j] && after[j] == log[j]; } else { assert after[..j] == log; }
    }
  }

  lemma NextKeepsKept(s: Memo, a: Action)
    requires Linked(s) && Kept(s)
    ensures Kept(Next(s, a))
  {
    hide PendingLinked, LeadersLinked;
    var n := Next(s, a);
    assert forall e :: e in s.log ==> e in n.log;
    if a.Finish? && n.log != s.log { assert n.log[|s.log|] == Complete(s.threads[a.t].path, a.result); }
  }

  lemma NextKeepsCompletions(s: Memo, a: Action)
    requires Linked(s) && FromCompletions(s)
    ensures FromCompletions(Next(s, a))
  {
    NextKeepsKept(s, a);
    hide PendingLinked, LeadersLinked, AllRepeat;
    var n := Next(s, a);
    if n.log != s.log {
      match a {
        case Enter(_, path) => AppendRepeats(s.log, n.log[|s.log|]);
        case Finish(t, result) =>
          var done := Complete(s.threads[t].path, result);
          AppendRepeats(s.log, done);
          AppendRepeats(s.log + [done], Answer(s.threads[t].path, result));
          assert n.log == s.log + [done] + [Answer(s.threads[t].path, result)];
        case Wake(t) => AppendRepeats(s.log, n.log[|s.log|]);
      }
    }
  }

  /** In every interleaving, whoever asks is told what a call of the resolver for that path has returned before. */
  lemma {:induction false} AnswersAreCompletions(actions: seq<Action>)
    ensures FromCompletions(Execute(actions))
    decreases |actions|
  {
    hide Next;
    if actions != [] {
      hide Linked, FromCompletions;
      var before := actions[..|actions| - 1];
      EveryInterleavingIsStable(before);
      AnswersAreCompletions(before);
      NextKeepsCompletions(Execute(before), actions[|actions| - 1]);
    }
  }

  /** A lookup asks the resolver only if nothing is kept and nobody is asking; then what the resolver says is what it is told. */
  lemma LookupDecides(s: Memo, t: Thread, path: string)
    requires t !in s.threads
    ensures var n := Next(s, Enter(t, path));
            if path in s.values then n == s.(log := s.log + [Answer(path, Ok(s.values[path]))])
            else if path in s.pending then n == s.(threads := s.threads[t := Waiting(path, s.pending[path])])
            else n.log == s.log + [Invoke(path)] && path in n.pending && n.values == s.values
                 && forall result ::
                      var done := Next(n, Finish(t, result));
                      && done.log == n.log + [Complete(path, result), Answer(path, result)] && path !in done.pending
                      && done.values == if result.Ok? then n.values[path := result.value] else n.values
  {
  }
}

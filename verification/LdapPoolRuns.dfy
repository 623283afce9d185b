/**
 * The LDAP connection pool under concurrency: a thread may stop between any two
 * accesses to the shared counter and the idle channel.
 */
module LdapPoolRuns {
  import opened Basics
  import opened LdapPool

  type Thread = nat

  datatype Phase =
    | Trying
    | Locking
    | Dialing
    | Failing
    | Waiting
    | Checking(conn: Conn)
    | Holding(conn: Conn)
    | Returning(conn: Conn)
    | Closing(conn: Conn, retry: bool)

  datatype State = State(
    maxOpen: nat,
    maxIdle: nat,
    lifetime: int,
    clock: int,
    open: int,
    idle: seq<Conn>,
    threads: map<Thread, Phase>,
    dials: nat)

  datatype Step =
    | Tick(ms: nat)
    | Enter(t: Thread)
    | TakeIdle(t: Thread)
    | FindNone(t: Thread)
    | Lock(t: Thread)
    | Dialed(t: Thread, ok: bool)
    | GiveBack(t: Thread)
    | Check(t: Thread)
    | Cancel(t: Thread)
    | Release(t: Thread)
    | Return(t: Thread)
    | Close(t: Thread)

  function Start(maxOpen: nat, maxIdle: nat, lifetime: int, clock: int): State {
    State(maxOpen, maxIdle, lifetime, clock, 0, [], map[], 0)
  }

  function To(s: State, t: Thread, phase: Phase): State {
    s.(threads := s.threads[t := phase])
  }

  function Leave(s: State, t: Thread): State {
    s.(threads := s.threads - {t})
  }

  /** One access to the pool by one thread; a step that is not enabled changes nothing. */
  function Next(s: State, a: Step): State {
    match a
    case Tick(ms) => s.(clock := s.clock + ms)
    case Enter(t) => if t in s.threads then s else To(s, t, Trying)
    case _ => if a.t in s.threads then Act(s, a, s.threads[a.t]) else s
  }

  function Act(s: State, a: Step, phase: Phase): State
    requires !a.Tick? && !a.Enter?
  {
    match (a, phase)
    case (TakeIdle(t), Trying) => if s.idle == [] then s else To(s, t, Checking(s.idle[0])).(idle := s.idle[1..])
    case (TakeIdle(t), Waiting) => if s.idle == [] then s else To(s, t, Checking(s.idle[0])).(idle := s.idle[1..])
    case (FindNone(t), Trying) => if s.idle == [] then To(s, t, Locking) else s
    case (Lock(t), Locking) => if s.open < s.maxOpen then To(s, t, Dialing).(open := s.open + 1) else To(s, t, Waiting)
    case (Dialed(t, ok), Dialing) => if ok then To(s, t, Holding(Conn(s.dials, s.clock))).(dials := s.dials + 1) else To(s, t, Failing)
    case (GiveBack(t), Failing) => Leave(s, t).(open := s.open - 1)
    case (Check(t), Checking(c)) => if Expired(s.lifetime, s.clock, c) then To(s, t, Closing(c, true)) else To(s, t, Holding(c))
    case (Cancel(t), Waiting) => Leave(s, t)
    case (Release(t), Holding(c)) => if Expired(s.lifetime, s.clock, c) then To(s, t, Closing(c, false)) else To(s, t, Returning(c))
    case (Return(t), Returning(c)) => if |s.idle| < s.maxIdle then Leave(s, t).(idle := s.idle + [c]) else To(s, t, Closing(c, false))
    case (Close(t), Closing(_, retry)) =>
      (if retry then To(s, t, Trying) else Leave(s, t)).(open := if s.open > 0 then s.open - 1 else s.open)
    case _ => s
  }

  function Run(s: State, steps: seq<Step>): State {
    if steps == [] then s else Next(Run(s, steps[..|steps| - 1]), steps[|steps| - 1])
  }

  // ----- The counter -----

  /** A thread that is dialing or owns a connection. */
  predicate Uses(phase: Phase) {
    phase.Dialing? || phase.Failing? || phase.Checking? || phase.Holding? || phase.Returning? || phase.Closing?
  }

  function Users(s: State): set<Thread> {
    set t | t in s.threads && Uses(s.threads[t])
  }

  /** `open` counts the connections being dialed, in use and idle, and never exceeds the limit. */
  ghost predicate Ledger(s: State) {
    s.open == |Users(s)| + |s.idle| && s.open <= s.maxOpen && |s.idle| <= s.maxIdle
  }

  function Load(s: State, t: Thread): int {
    if t in s.threads && Uses(s.threads[t]) then 1 else 0
  }

  function PhaseOf(s: State, t: Thread): Option<Phase> {
    if t in s.threads then Some(s.threads[t]) else None
  }

  lemma UsersCount(s: State, n: State, t: Thread)
    requires forall u :: u != t ==> PhaseOf(n, u) == PhaseOf(s, u)
    ensures |Users(n)| == |Users(s)| - Load(s, t) + Load(n, t)
  {
    forall u | u != t ensures u in Users(n) <==> u in Users(s) { assert PhaseOf(n, u) == PhaseOf(s, u); }
    assert Users(n) - {t} == Users(s) - {t};
    assert |Users(n)| == |Users(n) - {t}| + Load(n, t);
    assert |Users(s)| == |Users(s) - {t}| + Load(s, t);
  }

  /** A step moves a slot between the counter, the thread and the idle channel. */
  lemma StepBalances(s: State, a: Step)
    requires !a.Tick? && (Load(s, a.t) == 1 ==> s.open > 0)
    ensures var n := Next(s, a); n.open + Load(s, a.t) + |s.idle| == s.open + Load(n, a.t) + |n.idle|
  {
    hide Expired;
  }

  lemma StepStaysWithin(s: State, a: Step)
    requires s.open <= s.maxOpen && |s.idle| <= s.maxIdle
    ensures var n := Next(s, a); n.open <= n.maxOpen && |n.idle| <= n.maxIdle
  {
    hide Expired;
  }

  lemma OnlyActorMoves(s: State, a: Step, u: Thread)
    requires a.Tick? || u != a.t
    ensures PhaseOf(Next(s, a), u) == PhaseOf(s, u)
  {
    hide Expired;
  }

  lemma NextKeepsLedger(s: State, a: Step)
    requires Ledger(s)
    ensures Ledger(Next(s, a))
  {
    hide Next, Users;
    var n := Next(s, a);
    var t := if a.Tick? then 0 else a.t;
    forall u | a.Tick? || u != t ensures PhaseOf(n, u) == PhaseOf(s, u) { OnlyActorMoves(s, a, u); }
    UsersCount(s, n, t);
    StepStaysWithin(s, a);
    if a.Tick? {
      TickOnlyMovesClock(s, a);
    } else {
      if Load(s, t) == 1 { UserHasSlot(s, t); }
      StepBalances(s, a);
    }
  }

  lemma TickOnlyMovesClock(s: State, a: Step)
    requires a.Tick?
    ensures Next(s, a) == s.(clock := s.clock + a.ms)
  {
  }

  lemma UserHasSlot(s: State, t: Thread)
    requires Load(s, t) == 1
    ensures |Users(s)| > 0
  {
    assert t in Users(s);
  }

  // ----- Connections have one owner -----

  function ConnOf(s: State, t: Thread): Option<Conn> {
    if t !in s.threads then None
    else
      match s.threads[t]
      case Checking(c) => Some(c)
      case Holding(c) => Some(c)
      case Returning(c) => Some(c)
      case Closing(c, _) => Some(c)
      case _ => None
  }

  /** No connection is in two hands, or in a hand and idle, or idle twice; new ones get new ids. */
  ghost predicate OneOwner(s: State) {
    && (forall t, u :: ConnOf(s, t).Some? && ConnOf(s, u).Some? && ConnOf(s, t).value.id == ConnOf(s, u).value.id ==> t == u)
    && (forall t, i :: ConnOf(s, t).Some? && 0 <= i < |s.idle| ==> ConnOf(s, t).value.id != s.idle[i].id)
    && (forall i, j :: 0 <= i < j < |s.idle| ==> s.idle[i].id != s.idle[j].id)
    && (forall t :: ConnOf(s, t).Some? ==> ConnOf(s, t).value.id < s.dials)
    && (forall i :: 0 <= i < |s.idle| ==> s.idle[i].id < s.dials)
  }

  /** Threads keep or drop what they had. */
  lemma DropKeepsOwners(s: State, n: State)
    requires OneOwner(s) && n.idle == s.idle && n.dials == s.dials
    requires forall u :: ConnOf(n, u) == ConnOf(s, u) || ConnOf(n, u).None?
    ensures OneOwner(n)
  {
    hide ConnOf;
  }

  lemma TakeKeepsOwners(s: State, n: State, t: Thread)
    requires OneOwner(s) && s.idle != [] && n.idle == s.idle[1..] && n.dials == s.dials
    requires ConnOf(s, t).None? && ConnOf(n, t) == Some(s.idle[0]) && forall u :: u != t ==> ConnOf(n, u) == ConnOf(s, u)
    ensures OneOwner(n)
  {
    hide ConnOf;
    forall i, j | 0 <= i < j < |n.idle| ensures n.idle[i].id != n.idle[j].id { assert n.idle[i] == s.idle[i + 1] && n.idle[j] == s.idle[j + 1]; }
    forall u, i | ConnOf(n, u).Some? && 0 <= i < |n.idle| ensures ConnOf(n, u).value.id != n.idle[i].id { assert n.idle[i] == s.idle[i + 1]; }
    forall i | 0 <= i < |n.idle| ensures n.idle[i].id < n.dials { assert n.idle[i] == s.idle[i + 1]; }
  }

  lemma ReturnKeepsOwners(s: State, n: State, t: Thread)
    requires OneOwner(s) && ConnOf(s, t).Some? && n.idle == s.idle + [ConnOf(s, t).value] && n.dials == s.dials
    requires ConnOf(n, t).None? && forall u :: u != t ==> ConnOf(n, u) == ConnOf(s, u)
    ensures OneOwner(n)
  {
    hide ConnOf;
  }

  lemma DialKeepsOwners(s: State, n: State, t: Thread)
    requires OneOwner(s) && n.idle == s.idle && n.dials == s.dials + 1
    requires ConnOf(n, t).Some? && ConnOf(n, t).value.id == s.dials && forall u :: u != t ==> ConnOf(n, u) == ConnOf(s, u)
    ensures OneOwner(n)
  {
    hide ConnOf;
  }

  lemma NextKeepsOwners(s: State, a: Step)
    requires OneOwner(s)
    ensures OneOwner(Next(s, a))
  {
    hide OneOwner, Expired;
    var n := Next(s, a);
    if n.idle != s.idle || n.dials != s.dials {
      if a.TakeIdle? {
        TakeKeepsOwners(s, n, a.t);
      } else if a.Return? {
        ReturnKeepsOwners(s, n, a.t);
      } else {
        DialKeepsOwners(s, n, a.t);
      }
    } else {
      DropKeepsOwners(s, n);
    }
  }

  /** In every interleaving the counter is exact, the limits hold and connections are not shared. */
  lemma {:induction false} RunsAreExact(maxOpen: nat, maxIdle: nat, lifetime: int, clock: int, steps: seq<Step>)
    ensures var s := Run(Start(maxOpen, maxIdle, lifetime, clock), steps); Ledger(s) && OneOwner(s)
    decreases |steps|
  {
    hide Next;
    if steps != [] {
      hide Ledger, OneOwner;
      var before := steps[..|steps| - 1];
      RunsAreExact(maxOpen, maxIdle, lifetime, clock, before);
      var s := Run(Start(maxOpen, maxIdle, lifetime, clock), before);
      NextKeepsLedger(s, steps[|steps| - 1]);
      NextKeepsOwners(s, steps[|steps| - 1]);
    }
  }

  // ----- Waiting threads -----

  /** Nobody will serve this waiting thread although a connection may be opened. */
  predicate Stranded(s: State, t: Thread) {
    t in s.threads && s.threads[t] == Waiting && s.idle == [] && s.open < s.maxOpen && Users(s) == {}
  }

  ghost predicate SomeoneWaits(s: State) {
    exists t :: PhaseOf(s, t) == Some(Waiting)
  }

  /** While somebody waits, every connection that may exist does exist. */
  ghost predicate FullWhileWaiting(s: State) {
    SomeoneWaits(s) ==> s.open == s.maxOpen
  }

  /** A full pool strands nobody: some connection is idle, in use or being dialed. */
  lemma FullPoolServes(s: State, t: Thread)
    requires Ledger(s) && FullWhileWaiting(s)
    ensures !Stranded(s, t)
  {
    assert t in s.threads && s.threads[t] == Waiting ==> PhaseOf(s, t) == Some(Waiting);
  }

  /** The steps that give a slot back: after a failed dial, and after a connection was closed. */
  predicate FreesSlot(s: State, a: Step) {
    (a.GiveBack? && PhaseOf(s, a.t) == Some(Failing)) || (a.Close? && a.t in s.threads && s.threads[a.t].Closing?)
  }

  /** Freed slots wake nobody: a step keeps the pool full for its waiting threads unless it frees a slot while one waits. */
  lemma WaitersStayServedIff(s: State, a: Step)
    requires Ledger(s) && FullWhileWaiting(s)
    ensures FullWhileWaiting(Next(s, a)) <==> !(FreesSlot(s, a) && SomeoneWaits(s))
  {
    hide Next, Users;
    var n := Next(s, a);
    NextKeepsLedger(s, a);
    OpenMoves(s, a);
    if FreesSlot(s, a) {
      assert Load(s, a.t) == 1;
      UserHasSlot(s, a.t);
      SameWaiters(s, n, a);
    } else if SomeoneWaits(n) {
      var t :| PhaseOf(n, t) == Some(Waiting);
      if PhaseOf(s, t) != Some(Waiting) { NewWaiter(s, a, t); }
    }
  }

  /** Only the two freeing steps lower the counter. */
  lemma OpenMoves(s: State, a: Step)
    ensures var n := Next(s, a);
            && n.maxOpen == s.maxOpen
            && (if FreesSlot(s, a) then n.open == if s.open > 0 || a.GiveBack? then s.open - 1 else s.open else n.open >= s.open)
  {
    hide Expired;
  }

  /**
   * A thread gets stranded by exactly those steps that give back the last slot of the
   * pool while the thread waits.
   */
  lemma StepStrandsIff(s: State, a: Step, t: Thread)
    requires Ledger(s) && !Stranded(s, t)
    ensures Stranded(Next(s, a), t) <==> PhaseOf(s, t) == Some(Waiting) && FreesSlot(s, a) && s.open == 1
  {
    hide Next, Users;
    var n := Next(s, a);
    NextKeepsLedger(s, a);
    OpenMoves(s, a);
    if FreesSlot(s, a) {
      assert Load(s, a.t) == 1;
      UserHasSlot(s, a.t);
      SameWaiter(s, n, a, t);
    } else if PhaseOf(n, t) == Some(Waiting) && PhaseOf(s, t) != Some(Waiting) {
      NewWaiter(s, a, t);
    } else {
      EmptyPool(s);
      EmptyPool(n);
    }
  }

  lemma EmptyPool(s: State)
    requires Ledger(s)
    ensures s.open == 0 <==> s.idle == [] && Users(s) == {}
  {
    hide Users;
  }

  lemma SameWaiter(s: State, n: State, a: Step, t: Thread)
    requires n == Next(s, a) && FreesSlot(s, a)
    ensures PhaseOf(n, t) == Some(Waiting) <==> PhaseOf(s, t) == Some(Waiting)
  {
  }

  lemma SameWaiters(s: State, n: State, a: Step)
    requires n == Next(s, a) && FreesSlot(s, a)
    ensures SomeoneWaits(n) <==> SomeoneWaits(s)
  {
    forall u ensures PhaseOf(n, u) == Some(Waiting) <==> PhaseOf(s, u) == Some(Waiting) { }
  }

  /** A thread begins to wait only when the pool is full. */
  lemma NewWaiter(s: State, a: Step, t: Thread)
    requires PhaseOf(Next(s, a), t) == Some(Waiting) && PhaseOf(s, t) != Some(Waiting)
    ensures Next(s, a).open == s.open && s.open >= s.maxOpen
  {
    hide Expired;
  }

  lemma RunStep(s: State, steps: seq<Step>, k: nat)
    requires k < |steps|
    ensures Run(s, steps[..k + 1]) == Next(Run(s, steps[..k]), steps[k])
  {
    hide Next;
    assert steps[..k + 1][..k] == steps[..k];
  }

  function Stranding(): seq<Step> {
    [Enter(0), FindNone(0), Lock(0), Enter(1), FindNone(1), Lock(1), Dialed(0, false), GiveBack(0)]
  }

  lemma StrandingEnters(s: State)
    ensures Run(s, Stranding()[..1]) == Next(s, Enter(0))
  {
    hide Next;
    assert Stranding()[..0] == [];
    RunStep(s, Stranding(), 0);
  }

  lemma StrandingTries(s: State)
    requires s == Start(1, 1, s.lifetime, s.clock)
    ensures Run(s, Stranding()[..2]) == s.(threads := map[0 := Locking])
  {
    hide Run;
    StrandingEnters(s);
    assert Run(s, Stranding()[..1]) == s.(threads := map[0 := Trying]);
    RunStep(s, Stranding(), 1);
  }

  lemma StrandingDials(s: State)
    requires s == Start(1, 1, s.lifetime, s.clock)
    ensures Run(s, Stranding()[..3]) == s.(open := 1, threads := map[0 := Dialing])
  {
    hide Run;
    StrandingTries(s);
    RunStep(s, Stranding(), 2);
  }

  lemma StrandingWaits(s: State)
    requires s == Start(1, 1, s.lifetime, s.clock)
    ensures Run(s, Stranding()[..6]) == s.(open := 1, threads := map[0 := Dialing, 1 := Waiting])
  {
    hide Run;
    var steps := Stranding();
    StrandingDials(s);
    RunStep(s, steps, 3);
    assert Run(s, steps[..4]) == s.(open := 1, threads := map[0 := Dialing, 1 := Trying]);
    RunStep(s, steps, 4);
    assert Run(s, steps[..5]) == s.(open := 1, threads := map[0 := Dialing, 1 := Locking]);
    RunStep(s, steps, 5);
  }

  /** One failed dial, and the thread that waited for its slot waits on with the pool empty. */
  lemma FailedDialStrandsWaiter(lifetime: int, clock: int)
    ensures Stranded(Run(Start(1, 1, lifetime, clock), Stranding()), 1)
  {
    hide Run;
    var steps := Stranding();
    var s := Start(1, 1, lifetime, clock);
    StrandingWaits(s);
    RunStep(s, steps, 6);
    RunStep(s, steps, 7);
    assert steps[..8] == steps;
  }


  /** A connection taken from the idle queue is used only while it is young enough, and one given back only then kept. */
  lemma AgeDecides(s: State, t: Thread)
    requires t in s.threads && (s.threads[t].Checking? || s.threads[t].Holding?)
    ensures var c := s.threads[t].conn;
            var young := s.lifetime <= 0 || s.clock - c.createdAt < s.lifetime;
            && (s.threads[t].Checking? ==> Next(s, Check(t)).threads[t] == if young then Holding(c) else Closing(c, true))
            && (s.threads[t].Holding? ==> Next(s, Release(t)).threads[t] == if young then Returning(c) else Closing(c, false))
  {
  }


  /** Idle connections are taken in the order in which they were given back, by whoever comes first. */
  lemma IdleIsAQueue(s: State, t: Thread, u: Thread)
    requires t in s.threads && u in s.threads
    ensures s.threads[t].Returning? && |s.idle| < s.maxIdle ==> Next(s, Return(t)).idle == s.idle + [s.threads[t].conn]
    ensures (s.threads[u].Trying? || s.threads[u].Waiting?) && s.idle != [] ==>
              var n := Next(s, TakeIdle(u)); n.threads[u] == Checking(s.idle[0]) && n.idle == s.idle[1..]
  {
  }

  /** Without an idle connection a slot is taken if there is one, else the thread waits; a dial that succeeds gives a new connection of now. */
  lemma DialDecides(s: State, t: Thread, ok: bool)
    requires t in s.threads
    ensures s.threads[t].Trying? && s.idle == [] ==> Next(s, FindNone(t)).threads[t] == Locking
    ensures s.threads[t].Locking? ==>
              var n := Next(s, Lock(t));
              if s.open < s.maxOpen then n.threads[t] == Dialing && n.open == s.open + 1 else n.threads[t] == Waiting && n.open == s.open
    ensures s.threads[t].Dialing? ==>
              var n := Next(s, Dialed(t, ok));
              if ok then n.threads[t].Holding? && n.threads[t].conn.id == s.dials && n.threads[t].conn.createdAt == s.clock && n.dials == s.dials + 1
              else n.threads[t] == Failing
    ensures s.threads[t].Failing? ==> Next(s, GiveBack(t)).open == s.open - 1 && Next(s, GiveBack(t)).threads == s.threads - {t}
  {
  }

  /** A closed connection frees its slot; a thread that found it too old tries again, one that gave it back is done. */
  lemma CloseDecides(s: State, t: Thread)
    requires t in s.threads && s.threads[t].Closing? && s.open > 0
    ensures var n := Next(s, Close(t));
            n.open == s.open - 1 && n.idle == s.idle && n.threads == if s.threads[t].retry then s.threads[t := Trying] else s.threads - {t}
  {
  }
}

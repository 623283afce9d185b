/**
 * The LDAP connection pool as one caller sees it when nobody interferes.
 */
module LdapPool {
  import opened Basics

  datatype Conn = Conn(id: nat, createdAt: int)

  /** Sizes as configured, with the defaults of the constructor; None for a negative idle size. */
  function PoolSizes(maxOpen: int, maxIdle: int): (r: Option<(nat, nat)>)
    ensures r.None? <==> maxIdle < 0
    ensures r.Some? ==> 1 <= r.value.1 <= r.value.0
    ensures r.Some? && maxOpen > 0 ==> r.value.0 == maxOpen && (1 <= maxIdle <= maxOpen ==> r.value.1 == maxIdle)
    ensures r.Some? && maxOpen <= 0 ==> r.value.0 == 10 && (1 <= maxIdle <= 10 ==> r.value.1 == maxIdle)
    ensures r.Some? && (maxIdle == 0 || maxIdle > r.value.0) ==> r.value.1 == r.value.0
  {
    var open := if maxOpen <= 0 then 10 else maxOpen;
    if maxIdle < 0 then None
    else Some((open, if maxIdle == 0 || maxIdle > open then open else maxIdle))
  }

  predicate Expired(lifetime: int, now: int, c: Conn) {
    lifetime > 0 && now - c.createdAt >= lifetime
  }

  /** How many connections at the head of the idle queue are expired. */
  function ExpiredPrefix(idle: seq<Conn>, lifetime: int, now: int): (k: nat)
    ensures k <= |idle|
    ensures forall i :: 0 <= i < k ==> Expired(lifetime, now, idle[i])
    ensures k < |idle| ==> !Expired(lifetime, now, idle[k])
  {
    if idle == [] || !Expired(lifetime, now, idle[0]) then 0 else 1 + ExpiredPrefix(idle[1..], lifetime, now)
  }

  // ----- One caller at a time -----

  class Pool {
    var open: int
    var idle: seq<Conn>
    const maxOpen: nat
    const maxIdle: nat
    const lifetime: int
    /** Connections handed out and not yet released. */
    ghost var held: nat

    constructor (maxOpen: nat, maxIdle: nat, lifetime: int)
      ensures open == 0 && idle == [] && held == 0 && Ledger()
      ensures this.maxOpen == maxOpen && this.maxIdle == maxIdle && this.lifetime == lifetime
    {
      this.maxOpen, this.maxIdle, this.lifetime := maxOpen, maxIdle, lifetime;
      open, idle, held := 0, [], 0;
    }

    ghost predicate Ledger()
      reads this
    {
      open == held + |idle| && open <= maxOpen && |idle| <= maxIdle
    }

    /** Takes the first idle connection that has not expired, discarding those before it; dials when there is none and room is left. */
    method Acquire(now: int, dialed: Option<nat>) returns (conn: Option<Conn>)
      requires Ledger()
      modifies this
      ensures Ledger()
      ensures var k := ExpiredPrefix(old(idle), lifetime, now);
              && idle == (if k < |old(idle)| then old(idle)[k + 1..] else [])
              && open == old(open) - k + (if k == |old(idle)| && conn.Some? then 1 else 0)
              && (k < |old(idle)| ==> conn == Some(old(idle)[k]))
              && (k == |old(idle)| ==> conn == if old(open) - k < maxOpen && dialed.Some? then Some(Conn(dialed.value, now)) else None)
      ensures held == old(held) + (if conn.Some? then 1 else 0)
      ensures conn.Some? && lifetime > 0 ==> now - conn.value.createdAt < lifetime
    {
      ghost var k := 0;
      while idle != []
        invariant 0 <= k <= |old(idle)| && idle == old(idle)[k..] && open == old(open) - k && held == old(held)
        invariant forall i :: 0 <= i < k ==> Expired(lifetime, now, old(idle)[i])
        invariant Ledger()
        decreases |idle|
      {
        var c := idle[0];
        idle := idle[1..];
        held := held + 1;
        if !Expired(lifetime, now, c) {
          assert ExpiredPrefix(old(idle), lifetime, now) == k;
          return Some(c);
        }
        Discard();
        k := k + 1;
      }
      assert ExpiredPrefix(old(idle), lifetime, now) == k;
      if open < maxOpen {
        open := open + 1;
        if dialed.None? {
          open := open - 1;
          return None;
        }
        held := held + 1;
        return Some(Conn(dialed.value, now));
      }
      return None;
    }

    method Release(conn: Conn, now: int)
      requires Ledger() && held > 0
      modifies this
      ensures Ledger() && held == old(held) - 1
      ensures var kept := !Expired(lifetime, now, conn) && |old(idle)| < maxIdle;
              && idle == (if kept then old(idle) + [conn] else old(idle))
              && open == (if kept then old(open) else old(open) - 1)
      ensures (lifetime <= 0 || now - conn.createdAt < lifetime) && |old(idle)| < maxIdle <==> idle == old(idle) + [conn]
    {
      if Expired(lifetime, now, conn) {
        Discard();
      } else if |idle| < maxIdle {
        idle := idle + [conn];
        held := held - 1;
      } else {
        Discard();
      }
    }

    /** Closes a connection its caller holds; the guard on `open` never fires. */
    method Discard()
      requires held > 0 && open >= held
      modifies this`open, this`held
      ensures open == old(open) - 1 && held == old(held) - 1
    {
      if open > 0 { open := open - 1; }
      held := held - 1;
    }
  }
}

/**
 * The connection-pool layer: the dial-and-authenticate step, the idle
 * connection probe, single-host pools, and the multi-host pool that lazily
 * keeps one sub-pool per host and closes them all on shutdown.
 *
 * The redigo pool itself (its idle list, eviction and borrowing) is not
 * modelled: a RedisPool records its configuration and whether it was closed,
 * and the outcome of closing it is an input. The random host choice and the
 * clock are inputs too, and Get and Close run as atomic steps.
 */
module Pool {
  import opened Wire

  /** The process-wide connection ceiling, used as every pool's MaxIdle. */
  const MaxConns: nat := 500

  /** time.Millisecond, in the nanoseconds time.Duration counts. */
  const StaleAfter: int := 1_000_000

  /** Something done on the network: opening a TCP link, or sending a command on it. */
  datatype Action = Connect(network: string, host: string) | Send(cmd: Command)

  function AuthCommand(pass: string): Command
  {
    Command("AUTH", [Text(pass)])
  }

  const PingCommand: Command := Command("PING", [])

  /**
   * The function dialFuncWrapper(host, authPass) returns, run once: dial the
   * host and, only when that worked and a password is set, send AUTH with it.
   * dialError is what redis.Dial reported and authError what the AUTH
   * exchange reported; actions is what went out on the network.
   */
  method Dial(host: string, authPass: Option<string>, dialError: Option<Error>, authError: Option<Error>)
    returns (err: Option<Error>, actions: seq<Action>)
    ensures |actions| >= 1 && actions[0] == Connect("tcp", host)
    ensures dialError.Some? ==> err == dialError && actions == [Connect("tcp", host)]
    ensures authPass.Some? && dialError.None? ==> actions == [Connect("tcp", host), Send(AuthCommand(authPass.value))]
    ensures authPass.None? || dialError.Some? ==> actions == [Connect("tcp", host)]
    ensures dialError.None? ==> err == (if authPass.Some? then authError else None)
    ensures |actions| <= 2
  {
    actions := [Connect("tcp", host)];
    err := dialError;
    if err.Some? {
      return;
    }
    if authPass.Some? {
      actions := actions + [Send(AuthCommand(authPass.value))];
      err := authError;
    }
  }

  /**
   * testOnBorrow: a connection idle for more than StaleAfter is probed with
   * PING before it is handed out, and the probe's error is the verdict;
   * a fresher connection passes unprobed.
   */
  method TestOnBorrow(idle: int, pingError: Option<Error>) returns (err: Option<Error>, sent: seq<Command>)
    ensures sent == [PingCommand] <==> idle > StaleAfter
    ensures idle <= StaleAfter ==> sent == [] && err == None
    ensures idle > StaleAfter ==> err == pingError
  {
    sent := [];
    err := None;
    if idle > StaleAfter {
      sent := [PingCommand];
      err := pingError;
    }
  }

  /**
   * A redigo pool: where it dials (host and password, through Dial), its
   * MaxIdle, whether it probes borrowed connections with TestOnBorrow, and
   * whether it has been closed.
   */
  class RedisPool {
    const host: string
    const authPass: Option<string>
    const maxIdle: nat
    const probesOnBorrow: bool
    var closed: bool

    constructor (host: string, authPass: Option<string>, maxIdle: nat, probesOnBorrow: bool)
      ensures this.host == host && this.authPass == authPass
      ensures this.maxIdle == maxIdle && this.probesOnBorrow == probesOnBorrow
      ensures !closed
    {
      this.host := host;
      this.authPass := authPass;
      this.maxIdle := maxIdle;
      this.probesOnBorrow := probesOnBorrow;
      closed := false;
    }

    /** Close the pool; what it reports is the input fault. */
    method Close(fault: Option<Error>) returns (err: Option<Error>)
      modifies this
      ensures closed && err == fault
    {
      closed := true;
      err := fault;
    }
  }

  /** A connection borrowed from a pool (what redigo's Pool.Get hands out). */
  datatype Conn = Conn(source: RedisPool)

  /** The configuration every pool built by this package has for host. */
  predicate Configured(p: RedisPool, host: string, authPass: Option<string>)
  {
    p.host == host && p.authPass == authPass && p.maxIdle == MaxConns && p.probesOnBorrow
  }

  /** NewSingleHostPool: one redigo pool for host, configured as above. */
  method NewSingleHostPool(host: string, authPass: Option<string>) returns (p: RedisPool)
    ensures fresh(p) && !p.closed
    ensures Configured(p, host, authPass)
  {
    p := new RedisPool(host, authPass, MaxConns, true);
  }

  /** m1 keeps every entry of m0 unchanged and may add more. */
  ghost predicate Extends<K, V>(m0: map<K, V>, m1: map<K, V>)
  {
    forall k :: k in m0 ==> k in m1 && m1[k] == m0[k]
  }

  /** The multi-host pool: a host list and a lazily filled registry of sub-pools. */
  class MultiHostPool {
    var pools: map<string, RedisPool>
    const hosts: seq<string>
    const authPass: Option<string>

    /**
     * Registry keys come from the host list, each sub-pool is configured for
     * its own host, and no two hosts share a sub-pool.
     */
    ghost predicate Valid()
      reads this
    {
      (forall h :: h in pools ==> h in hosts) &&
      (forall h :: h in pools ==> Configured(pools[h], h, authPass)) &&
      (forall h, k :: h in pools && k in pools && h != k ==> pools[h] != pools[k])
    }

    /** NewMultiHostPool: the host list exactly as given, and an empty registry. */
    constructor (hosts: seq<string>, authPass: Option<string>)
      ensures Valid()
      ensures this.hosts == hosts && this.authPass == authPass
      ensures pools == map[]
    {
      this.hosts := hosts;
      this.authPass := authPass;
      pools := map[];
    }

    /**
     * Get with hosts[choice] as the random pick: reuse that host's sub-pool,
     * or create and register one if it has none, and borrow from it.
     */
    method Get(choice: nat) returns (conn: Conn)
      requires Valid()
      requires choice < |hosts|
      modifies this
      ensures Valid()
      ensures hosts[choice] in pools && conn.source == pools[hosts[choice]]
      ensures Extends(old(pools), pools)
      ensures hosts[choice] in old(pools) ==> pools == old(pools)
      ensures hosts[choice] !in old(pools) ==>
                fresh(pools[hosts[choice]]) && !pools[hosts[choice]].closed &&
                pools == old(pools)[hosts[choice] := pools[hosts[choice]]]
    {
      var host := hosts[choice];
      var pool: RedisPool;
      if host in pools {
        pool := pools[host];
      } else {
        pool := new RedisPool(host, authPass, MaxConns, true);
        pools := pools[host := pool];
      }
      conn := Conn(pool);
    }

    /**
     * Close every registered sub-pool, in the order the map walk picks,
     * carrying on past failures. fault(h) is what closing h's sub-pool
     * reports; order is the visiting order. The registry is kept.
     */
    method Close(fault: Error -> Option<Error>) returns (err: Option<Error>, order: seq<string>)
      modifies pools.Values
      ensures pools == old(pools)
      ensures old(Valid()) ==> Valid()
      ensures forall h :: h in order <==> h in pools
      ensures forall i, j :: 0 <= i < j < |order| ==> order[i] != order[j]
      ensures forall h :: h in pools ==> pools[h].closed
      ensures err == CloseError(order, fault)
      ensures err.None? <==> forall h :: h in pools ==> fault(h).None?
    {
      var remaining := pools.Keys;
      err := None;
      order := [];
      while remaining != {}
        invariant remaining <= pools.Keys
        invariant forall h :: h in order <==> h in pools && h !in remaining
        invariant forall i, j :: 0 <= i < j < |order| ==> order[i] != order[j]
        invariant forall h :: h in pools && h !in remaining ==> pools[h].closed
        invariant err == CloseError(order, fault)
        decreases remaining
      {
        var host :| host in remaining;
        var poolErr := pools[host].Close(fault(host));
        if poolErr.Some? {
          if err.None? {
            err := Some(CloseFailure(host, poolErr.value));
          } else {
            err := Some(err.value + " " + CloseFailure(host, poolErr.value));
          }
        }
        order := order + [host];
        remaining := remaining - {host};
      }
      CloseErrorNone(order, fault);
    }
  }

  /** The text Close gives one failing sub-pool. */
  function CloseFailure(host: string, cause: Error): Error
  {
    "Error closing pool for host " + host + ". Got " + cause + "."
  }

  /** The combined error of closing the sub-pools of order, one after another. */
  function CloseError(order: seq<string>, fault: Error -> Option<Error>): Option<Error>
  {
    if order == [] then None
    else
      var prior := CloseError(order[..|order| - 1], fault);
      var host := order[|order| - 1];
      match fault(host)
      case None => prior
      case Some(cause) =>
        if prior.None? then Some(CloseFailure(host, cause))
        else Some(prior.value + " " + CloseFailure(host, cause))
  }

  /** Close reports no error exactly when every visited sub-pool closed cleanly. */
  lemma {:induction false} CloseErrorNone(order: seq<string>, fault: Error -> Option<Error>)
    ensures CloseError(order, fault).None? <==> forall h :: h in order ==> fault(h).None?
  {
    if order != [] {
      var init := order[..|order| - 1];
      CloseErrorNone(init, fault);
      assert order == init + [order[|order| - 1]];
    }
  }

  /** t occurs in s as a contiguous piece. */
  ghost predicate Contains(s: string, t: string)
  {
    exists i :: 0 <= i <= |s| && t <= s[i..]
  }

  lemma ContainsInPrefix(s: string, t: string, u: string)
    requires Contains(s, t)
    ensures Contains(s + u, t)
  {
    var i :| 0 <= i <= |s| && t <= s[i..];
    assert (s + u)[i..] == s[i..] + u;
  }

  lemma ContainsSuffix(s: string, t: string)
    ensures Contains(s + t, t)
  {
    assert (s + t)[|s|..] == t;
  }

  /** The combined error names every sub-pool whose close failed, with its cause. */
  lemma {:induction false} CloseErrorNamesFailures(order: seq<string>, fault: Error -> Option<Error>, k: nat)
    requires k < |order| && fault(order[k]).Some?
    ensures CloseError(order, fault).Some?
    ensures Contains(CloseError(order, fault).value, CloseFailure(order[k], fault(order[k]).value))
  {
    var init := order[..|order| - 1];
    var last := order[|order| - 1];
    var seg := CloseFailure(order[k], fault(order[k]).value);
    if k == |order| - 1 {
      var prior := CloseError(init, fault);
      if prior.None? {
        assert CloseError(order, fault).value == "" + seg;
        ContainsSuffix("", seg);
      } else {
        ContainsSuffix(prior.value + " ", seg);
      }
    } else {
      assert init[k] == order[k];
      CloseErrorNamesFailures(init, fault, k);
      var prior := CloseError(init, fault).value;
      if fault(last).Some? {
        ContainsInPrefix(prior, seg, " " + CloseFailure(last, fault(last).value));
        assert prior + " " + CloseFailure(last, fault(last).value)
            == prior + (" " + CloseFailure(last, fault(last).value));
      }
    }
  }

  /** Number of distinct hosts in a host list. */
  function DistinctCount(hosts: seq<string>): (n: nat)
  {
    |set h | h in hosts|
  }

  /** A host list holds at most as many distinct hosts as it has entries. */
  lemma {:induction false} DistinctAtMostLength(hosts: seq<string>)
    ensures DistinctCount(hosts) <= |hosts|
  {
    if hosts != [] {
      var tail := hosts[1..];
      DistinctAtMostLength(tail);
      assert (set h | h in hosts) == (set h | h in tail) + {hosts[0]};
    }
  }

  /** Registry keys drawn from the host list: at most one sub-pool per distinct host. */
  lemma RegistryBound(pool: MultiHostPool)
    requires pool.Valid()
    ensures |pool.pools| <= DistinctCount(pool.hosts) <= |pool.hosts|
  {
    var keys := pool.pools.Keys;
    var hs := set h | h in pool.hosts;
    assert keys <= hs;
    SubsetCard(keys, hs);
    DistinctAtMostLength(pool.hosts);
  }

  lemma {:induction false} SubsetCard(a: set<string>, b: set<string>)
    requires a <= b
    ensures |a| <= |b|
  {
    if a != {} {
      var x :| x in a;
      SubsetCard(a - {x}, b - {x});
    }
  }

  /**
   * With a single distinct host, any Get leaves exactly one registered
   * sub-pool, whatever index is chosen.
   */
  lemma SingleHostRegistry(pool: MultiHostPool, host: string)
    requires pool.Valid()
    requires forall i :: 0 <= i < |pool.hosts| ==> pool.hosts[i] == host
    requires host in pool.pools
    ensures pool.pools.Keys == {host} && |pool.pools| == 1
  {
    assert forall h :: h in pool.pools ==> h == host;
  }

  /** The pool abstraction the client talks to: a single redigo pool or a multi-host pool. */
  datatype ConnPool = Single(pool: RedisPool) | Multi(multi: MultiHostPool)

  /**
   * ConnPool.Get: a single-host pool lends from its one redigo pool; a
   * multi-host pool goes through MultiHostPool.Get with choice as its pick.
   */
  method ConnPoolGet(cp: ConnPool, choice: nat) returns (conn: Conn)
    requires cp.Multi? ==> cp.multi.Valid() && choice < |cp.multi.hosts|
    modifies if cp.Multi? then {cp.multi} else {}
    ensures cp.Single? ==> conn.source == cp.pool
    ensures cp.Multi? ==>
              cp.multi.Valid() && Extends(old(cp.multi.pools), cp.multi.pools) &&
              cp.multi.hosts[choice] in cp.multi.pools && conn.source == cp.multi.pools[cp.multi.hosts[choice]]
  {
    match cp {
      case Single(p) =>
        conn := Conn(p);
      case Multi(m) =>
        conn := m.Get(choice);
    }
  }

  /**
   * ConnPool.Close: a single-host pool closes its redigo pool and reports
   * its outcome; a multi-host pool closes every registered sub-pool and
   * reports the combined error. fault(h) is the outcome of closing the
   * redigo pool for host h.
   */
  method ConnPoolClose(cp: ConnPool, fault: Error -> Option<Error>) returns (err: Option<Error>)
    modifies if cp.Single? then {cp.pool} else cp.multi.pools.Values
    ensures cp.Single? ==> cp.pool.closed && err == fault(cp.pool.host)
    ensures cp.Multi? ==>
              cp.multi.pools == old(cp.multi.pools) &&
              (forall h :: h in cp.multi.pools ==> cp.multi.pools[h].closed) &&
              (err.None? <==> forall h :: h in cp.multi.pools ==> fault(h).None?)
  {
    match cp {
      case Single(p) =>
        err := p.Close(fault(p.host));
      case Multi(m) =>
        var order;
        err, order := m.Close(fault);
    }
  }
}

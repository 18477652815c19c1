/** The gateway's route store and its two host indexes, as values: what the operations do to
    them, and what any history of operations leaves in them. */
module RouteTable {
  import opened Common
  import opened Hosts
  import opened Routes

  /** `hosts` maps a served hostname to a route name, `backendHosts` a backend's port-less host
      to a route name, `routes` is the store behind both. */
  datatype Table = Table(hosts: map<string, string>, backendHosts: map<string, string>, routes: map<string, Route>)

  const EMPTY := Table(map[], map[], map[])

  datatype Op = Register(route: Route) | Update(route: Route) | Delete(name: string)

  /** The two indexes: one over the hostnames a route serves, one over its backends. */
  datatype Side = Served | Upstream

  /** The hosts a route lists on one side; backends are listed without their port. */
  function HostsOf(r: Route, side: Side): set<string> {
    match side
    case Served => set h | h in r.hostnames
    case Upstream => set b | b in r.backends :: ExtractHost(b.host)
  }

  function Index(t: Table, side: Side): map<string, string> {
    match side
    case Served => t.hosts
    case Upstream => t.backendHosts
  }

  /** An index after every host of `hs` has been pointed to `name`. */
  function Point(index: map<string, string>, hs: set<string>, name: string): (r: map<string, string>)
    ensures r.Keys == index.Keys + hs
    ensures forall h | h in r :: r[h] == if h in hs then name else index[h]
  {
    index + map h | h in hs :: name
  }

  lemma PointOne(index: map<string, string>, hs: set<string>, name: string, h: string)
    ensures Point(index, hs, name)[h := name] == Point(index, hs + {h}, name)
  {
  }

  function Put(t: Table, r: Route): Table {
    Table(
      Point(t.hosts, HostsOf(r, Served), r.name),
      Point(t.backendHosts, HostsOf(r, Upstream), r.name),
      t.routes[r.name := r])
  }

  /** Deleting a route leaves both indexes as they are. */
  function Apply(t: Table, op: Op): Table {
    match op
    case Register(r) => Put(t, r)
    case Update(r) => Put(t, r)
    case Delete(n) => t.(routes := t.routes - {n})
  }

  function Run(ops: seq<Op>): Table {
    if ops == [] then EMPTY else Apply(Run(ops[..|ops| - 1]), ops[|ops| - 1])
  }

  /** The route that serves hostname `h`: the index first, then the store. */
  function Resolve(t: Table, h: string): Option<Route> {
    if h in t.hosts then Stored(t, t.hosts[h]) else None
  }

  function Stored(t: Table, name: string): Option<Route> {
    if name in t.routes then Some(t.routes[name]) else None
  }

  // ----- the history laws -----

  predicate Lists(op: Op, side: Side, h: string) { !op.Delete? && h in HostsOf(op.route, side) }

  /** `op` stores or deletes the route called `name`. */
  predicate Touches(op: Op, name: string) { if op.Delete? then op.name == name else op.route.name == name }

  /** `j` is the last operation of the history that lists host `h`. */
  ghost predicate LastListing(ops: seq<Op>, side: Side, h: string, j: int) {
    0 <= j < |ops| && Lists(ops[j], side, h) && forall k | j < k < |ops| :: !Lists(ops[k], side, h)
  }

  ghost predicate LastTouching(ops: seq<Op>, name: string, j: int) {
    0 <= j < |ops| && Touches(ops[j], name) && forall k | j < k < |ops| :: !Touches(ops[k], name)
  }

  lemma AppliedStore(t: Table, op: Op, name: string)
    ensures Stored(Apply(t, op), name) ==
            if !Touches(op, name) then Stored(t, name) else if op.Delete? then None else Some(op.route)
  {
  }

  lemma AppliedIndex(t: Table, op: Op, side: Side, h: string)
    ensures h in Index(Apply(t, op), side) <==> h in Index(t, side) || Lists(op, side, h)
    ensures h in Index(Apply(t, op), side) ==>
              Index(Apply(t, op), side)[h] == if Lists(op, side, h) then op.route.name else Index(t, side)[h]
  {
  }

  /** The store holds, under each name, the route of the last operation on that name. */
  lemma {:induction false} StoreLaw(ops: seq<Op>, name: string, j: int)
    requires LastTouching(ops, name, j)
    ensures Stored(Run(ops), name) == if ops[j].Delete? then None else Some(ops[j].route)
  {
    var init, op := ops[..|ops| - 1], ops[|ops| - 1];
    AppliedStore(Run(init), op, name);
    if j < |init| {
      assert !Touches(op, name);
      StoreLaw(init, name, j);
    }
  }

  /** Each index points to the route named by the last register or update that listed the host,
      whatever has been deleted since. */
  lemma {:induction false} IndexLaw(ops: seq<Op>, side: Side, h: string, j: int)
    requires LastListing(ops, side, h, j)
    ensures h in Index(Run(ops), side) && Index(Run(ops), side)[h] == ops[j].route.name
  {
    var init, op := ops[..|ops| - 1], ops[|ops| - 1];
    AppliedIndex(Run(init), op, side, h);
    if j < |init| {
      assert !Lists(op, side, h);
      IndexLaw(init, side, h, j);
    }
  }

  /** An index has no entry for a host that no operation of the history listed. */
  lemma {:induction false} UnlistedHost(ops: seq<Op>, side: Side, h: string)
    requires forall k | 0 <= k < |ops| :: !Lists(ops[k], side, h)
    ensures h !in Index(Run(ops), side)
  {
    if ops != [] {
      var init := ops[..|ops| - 1];
      AppliedIndex(Run(init), ops[|ops| - 1], side, h);
      UnlistedHost(init, side, h);
    }
  }

  /** After any history, a hostname resolves to the route now stored under the name that the last
      register or update listing it carried, and to nothing when that name is no longer stored. */
  lemma ResolveLaw(ops: seq<Op>, h: string, j: int, i: int)
    requires LastListing(ops, Served, h, j)
    requires LastTouching(ops, ops[j].route.name, i)
    ensures j <= i
    ensures Resolve(Run(ops), h) == if ops[i].Delete? then None else Some(ops[i].route)
  {
    IndexLaw(ops, Served, h, j);
    StoreLaw(ops, ops[j].route.name, i);
    assert Touches(ops[j], ops[j].route.name);
  }

  /** Every stored route sits under its own name, and every backend of every stored route has an
      entry, under its port-less host, in the backend index. */
  ghost predicate Indexed(t: Table) {
    forall n | n in t.routes ::
      t.routes[n].name == n && HostsOf(t.routes[n], Upstream) <= t.backendHosts.Keys
  }

  lemma {:induction false} EveryBackendIndexed(ops: seq<Op>)
    ensures Indexed(Run(ops))
  {
    if ops != [] {
      EveryBackendIndexed(ops[..|ops| - 1]);
      IndexedKept(Run(ops[..|ops| - 1]), ops[|ops| - 1]);
    }
  }

  lemma IndexedKept(t: Table, op: Op)
    requires Indexed(t)
    ensures Indexed(Apply(t, op))
  {
  }

  // ----- whose entry a host is -----

  /** The route of operation `i` is still stored. */
  ghost predicate Current(ops: seq<Op>, i: int) {
    0 <= i < |ops| && !ops[i].Delete? && LastTouching(ops, ops[i].route.name, i)
  }

  /** Operation `j`, later than `i`, lists host `h` for another route. */
  predicate Takes(ops: seq<Op>, side: Side, h: string, i: int, j: int) {
    && 0 <= i < j < |ops| && !ops[i].Delete? && Lists(ops[j], side, h)
    && ops[j].route.name != ops[i].route.name
  }

  lemma {:induction false} StoredOrigin(ops: seq<Op>, n: string) returns (i: int)
    requires n in Run(ops).routes
    ensures Current(ops, i) && ops[i].route.name == n && Run(ops).routes[n] == ops[i].route
  {
    var init, op := ops[..|ops| - 1], ops[|ops| - 1];
    AppliedStore(Run(init), op, n);
    if Touches(op, n) {
      i := |init|;
    } else {
      i := StoredOrigin(init, n);
    }
  }

  lemma {:induction false} ListedLast(ops: seq<Op>, side: Side, h: string, i: int) returns (j: int)
    requires 0 <= i < |ops| && Lists(ops[i], side, h)
    ensures i <= j && LastListing(ops, side, h, j)
  {
    var n := |ops| - 1;
    if Lists(ops[n], side, h) {
      j := n;
    } else {
      j := ListedLast(ops[..n], side, h, i);
    }
  }

  /** Some later operation on another route lists a host of the stored route `n`. */
  ghost predicate Taken(ops: seq<Op>, side: Side, h: string, n: string) {
    exists i, j :: Current(ops, i) && ops[i].route.name == n && Takes(ops, side, h, i, j)
  }

  /** A host that a stored route lists has an entry, which is that route's own if and only if no later operation on
      another route listed the host. */
  lemma OwnEntryExact(ops: seq<Op>, side: Side, h: string, n: string)
    requires n in Run(ops).routes && h in HostsOf(Run(ops).routes[n], side)
    ensures h in Index(Run(ops), side) && (Index(Run(ops), side)[h] == n <==> !Taken(ops, side, h, n))
  {
    var i := StoredOrigin(ops, n);
    var l := ListedLast(ops, side, h, i);
    IndexLaw(ops, side, h, l);
    if i', j' :| Current(ops, i') && ops[i'].route.name == n && Takes(ops, side, h, i', j') {
      assert !Touches(ops[l], n);
    } else {
      assert ops[l].route.name != n ==> Takes(ops, side, h, i, l);
    }
  }

  /** The index sends the failover of every backend of route `n` back to that same route. */
  predicate OwnFailoverOf(t: Table, n: string)
    requires n in t.routes
  {
    forall b | b in t.routes[n].backends ::
      ExtractHost(b.host) in t.backendHosts && t.backendHosts[ExtractHost(b.host)] == n
  }

  lemma OwnFailoverOfExact(ops: seq<Op>, n: string)
    requires n in Run(ops).routes
    ensures OwnFailoverOf(Run(ops), n) <==>
            forall h | h in HostsOf(Run(ops).routes[n], Upstream) :: !Taken(ops, Upstream, h, n)
  {
    forall b | b in Run(ops).routes[n].backends {
      OwnEntryExact(ops, Upstream, ExtractHost(b.host), n);
    }
  }

  /** After any history every backend of every stored route fails over into its own route, if and only if no later
      operation on another route listed one of its port-less backend hosts. */
  lemma OwnFailoverExact(ops: seq<Op>)
    ensures (forall n | n in Run(ops).routes :: OwnFailoverOf(Run(ops), n)) <==>
            (forall n, h | n in Run(ops).routes && h in HostsOf(Run(ops).routes[n], Upstream) ::
               !Taken(ops, Upstream, h, n))
  {
    forall n | n in Run(ops).routes {
      OwnFailoverOfExact(ops, n);
    }
  }
}

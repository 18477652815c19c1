/** The proxy's handlers, which rewrite the outgoing request in place. */
module Handler {
  import opened Common
  import opened Hosts
  import opened Routes
  import opened WeightedDraw
  import opened RouteTable
  import opened Failover
  import Gateway

  class OutRequest {
    var host: string
    var urlHost: string
    var scheme: string
    var path: string

    ghost function View(): Request
      reads this
    {
      Request(host, urlHost, scheme, path)
    }
  }

  /** What the environment answers during one retry: the route store at that moment, the random
      number, the token endpoint and the contacted backend. */
  datatype Reply = Reply(store: map<string, Route>, random: nat, tokenOk: bool, answered: bool)

  datatype Status = NotFound | Answered | Unavailable | Panicked

  /** The attempt that a retry on route `name` makes under a given reply. */
  function AttemptOn(t: Trigger, name: string, reply: Reply): Attempt {
    Attempt(
      t,
      if name in reply.store then Some(reply.store[name].backends) else None,
      reply.random,
      reply.tokenOk)
  }

  function AttemptsOn(name: string, replies: seq<Reply>): (r: seq<Attempt>)
    ensures |r| == |replies|
    ensures forall i | 0 <= i < |r| :: r[i] == AttemptOn(TransportError, name, replies[i])
  {
    seq(|replies|, i requires 0 <= i < |replies| => AttemptOn(TransportError, name, replies[i]))
  }

  method HandleBackend(req: OutRequest, b: Backend, tokenOk: bool) returns (ok: bool)
    modifies req
    ensures ok <==> b.oauth ==> tokenOk
    ensures ok ==> req.urlHost == b.host && req.scheme == b.scheme && req.host == ExtractHost(b.host)
    ensures !ok ==> req.urlHost == old(req.urlHost) && req.scheme == old(req.scheme) && req.host == old(req.host)
    ensures req.View() == if ok then Rewritten(old(req.View()), b) else old(req.View())
  {
    if b.oauth && !tokenOk {
      return false;
    }
    req.scheme := b.scheme;
    req.urlHost := b.host;
    req.host := ExtractHost(b.host);
    if b.pathPrefix != "" {
      req.path := b.pathPrefix + req.path;
    }
    return true;
  }

  /** The loop over a route's backends that gathers the candidates and their total weight and, in a
      retry, strips their prefixes from the path. */
  method Gather(t: Trigger, req: OutRequest, bs: seq<Backend>) returns (cs: seq<Backend>, total: int)
    modifies req
    ensures cs == Candidates(t, bs, old(req.View()), |bs|)
    ensures total == Total(Weights(cs))
    ensures req.View() == old(req.View()).(path := StrippedPath(t, bs, old(req.View()), |bs|))
  {
    ghost var r := req.View();
    cs, total := [], 0;
    for i := 0 to |bs|
      invariant cs == Candidates(t, bs, r, i)
      invariant total == Total(Weights(cs))
      invariant req.View() == r.(path := StrippedPath(t, bs, r, i))
    {
      assert Skips(t, bs[i], req.View()) == Skips(t, bs[i], r);
      if !Skips(t, bs[i], Request(req.host, req.urlHost, req.scheme, req.path)) {
        var c := Weighted(t, bs[i]);
        TotalAppend(cs, c);
        total := total + c.weight;
        cs := cs + [c];
        if !t.First? {
          req.path := RemovePathPrefix(req.path, bs[i].pathPrefix);
        }
      }
    }
  }

  lemma {:induction false} PrefixShared(ws: seq<int>, vs: seq<int>, n: nat)
    requires n <= |ws| && n <= |vs| && ws[..n] == vs[..n]
    ensures Prefix(ws, n) == Prefix(vs, n)
  {
    if n > 0 {
      assert ws[n - 1] == ws[..n][n - 1] == vs[..n][n - 1] == vs[n - 1];
      assert ws[..n - 1] == ws[..n][..n - 1] == vs[..n][..n - 1] == vs[..n - 1];
      PrefixShared(ws, vs, n - 1);
    }
  }

  lemma TotalAppend(cs: seq<Backend>, c: Backend)
    ensures Total(Weights(cs + [c])) == Total(Weights(cs)) + c.weight
  {
    var ws, vs := Weights(cs + [c]), Weights(cs);
    assert ws[..|cs|] == vs[..|cs|];
    PrefixShared(ws, vs, |cs|);
  }

  /** One choice of a backend, up to the moment the request is sent. */
  method TryBackend(req: OutRequest, a: Attempt) returns (o: Outcome)
    modifies req
    ensures Result(req.View(), o) == Try(old(req.View()), a)
  {
    if a.backends.None? {
      return RouteMissing;
    }
    var cs, total := Gather(a.trigger, req, a.backends.value);
    if total == 0 {
      return NoBackends;
    }
    if total < 0 {
      return BadWeights;
    }
    var b, _ := WeightedRandomBackend(cs, a.random % total);
    var ok := HandleBackend(req, b, a.tokenOk);
    o := if ok then Out(Sent(b, req.path)) else TokenFailed;
  }

  /** Rewrites an inbound request for `host`; `outcome` is absent when no route serves it. */
  method Rewrite(p: Gateway.Proxy, req: OutRequest, host: string, random: nat, tokenOk: bool)
    returns (outcome: Option<Outcome>)
    modifies req
    ensures var route := Resolve(p.View(), ExtractHost(host));
            if route.None? then outcome.None? && req.View() == old(req.View())
            else
              var t := Try(old(req.View()), Attempt(First, Some(route.value.backends), random, tokenOk));
              outcome == Some(t.outcome) && req.View() == t.request
  {
    var route := p.ResolveHost(host);
    if route.None? {
      return None;
    }
    var o := TryBackend(req, Attempt(First, Some(route.value.backends), random, tokenOk));
    outcome := Some(o);
  }

  /** A response with a bad status is retried once; `outcome` is absent when the request's host is not
      in the backend index. */
  method ModifyResponse(p: Gateway.Proxy, req: OutRequest, statusCode: int, reply: Reply)
    returns (outcome: Option<Outcome>)
    modifies req
    ensures statusCode < 399 || old(req.host) !in p.backendHostToRoute ==>
              outcome.None? && req.View() == old(req.View())
    ensures statusCode >= 399 && old(req.host) in p.backendHostToRoute ==>
              var t := Try(old(req.View()), AttemptOn(BadResponse, p.backendHostToRoute[old(req.host)], reply));
              outcome == Some(t.outcome) && req.View() == t.request
  {
    if statusCode < 399 || req.host !in p.backendHostToRoute {
      return None;
    }
    var o := TryBackend(req, AttemptOn(BadResponse, p.backendHostToRoute[req.host], reply));
    outcome := Some(o);
  }

  lemma OneMore(r: Request, attempts: seq<Attempt>, i: nat)
    requires i < |attempts|
    ensures var t := Try(After(r, attempts[..i]), attempts[i]);
            && After(r, attempts[..i + 1]) == t.request
            && Outcomes(r, attempts[..i + 1]) == Outcomes(r, attempts[..i]) + [t.outcome]
  {
    assert attempts[..i + 1][..i] == attempts[..i];
  }

  /** The retry loop on route `name`: attempts are made until one ends it or the replies run out. */
  method Retry(name: string, req: OutRequest, replies: seq<Reply>)
    returns (status: Status, outcomes: seq<Outcome>)
    modifies req
    ensures !status.NotFound? && |outcomes| <= |replies|
    ensures var attempts := AttemptsOn(name, replies)[..|outcomes|];
            && req.View() == After(old(req.View()), attempts)
            && outcomes == Outcomes(old(req.View()), attempts)
    ensures forall i | 0 <= i < |outcomes| - (if status.Unavailable? then 0 else 1) ::
              !(outcomes[i].Out? && replies[i].answered) && !outcomes[i].BadWeights?
    ensures status.Answered? ==>
              var last := |outcomes| - 1; 0 <= last && outcomes[last].Out? && replies[last].answered
    ensures status.Panicked? ==> outcomes != [] && outcomes[|outcomes| - 1].BadWeights?
    ensures status.Unavailable? ==> |outcomes| == |replies|
  {
    outcomes := [];
    ghost var r, attempts := req.View(), AttemptsOn(name, replies);
    while |outcomes| < |replies|
      invariant |outcomes| <= |replies|
      invariant req.View() == After(r, attempts[..|outcomes|])
      invariant outcomes == Outcomes(r, attempts[..|outcomes|])
      invariant forall i | 0 <= i < |outcomes| ::
                  !(outcomes[i].Out? && replies[i].answered) && !outcomes[i].BadWeights?
    {
      var reply := replies[|outcomes|];
      var o := TryBackend(req, AttemptOn(TransportError, name, reply));
      OneMore(r, attempts, |outcomes|);
      outcomes := outcomes + [o];
      if o.BadWeights? {
        return Panicked, outcomes;
      }
      if o.Out? && reply.answered {
        return Answered, outcomes;
      }
    }
    return Unavailable, outcomes;
  }

  /** Up to four retries on the one route that the backend index names for the failed host. */
  method ErrorHandler(p: Gateway.Proxy, req: OutRequest, replies: seq<Reply>)
    returns (status: Status, outcomes: seq<Outcome>)
    requires |replies| == 4
    modifies req
    ensures |outcomes| <= 4
    ensures status.NotFound? <==> old(req.host) !in p.backendHostToRoute
    ensures status.NotFound? ==> outcomes == [] && req.View() == old(req.View())
    ensures !status.NotFound? ==>
              && var attempts := AttemptsOn(p.backendHostToRoute[old(req.host)], replies)[..|outcomes|];
              && req.View() == After(old(req.View()), attempts)
              && outcomes == Outcomes(old(req.View()), attempts)
    ensures forall i | 0 <= i < |outcomes| - (if status.Unavailable? then 0 else 1) ::
              !(outcomes[i].Out? && replies[i].answered) && !outcomes[i].BadWeights?
    ensures status.Answered? ==>
              var last := |outcomes| - 1; 0 <= last && outcomes[last].Out? && replies[last].answered
    ensures status.Panicked? ==> outcomes != [] && outcomes[|outcomes| - 1].BadWeights?
    ensures status.Unavailable? ==> |outcomes| == 4
  {
    if req.host !in p.backendHostToRoute {
      return NotFound, [];
    }
    status, outcomes := Retry(p.backendHostToRoute[req.host], req, replies);
  }
}

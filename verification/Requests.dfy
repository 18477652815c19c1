/** The whole way of one request through the gateway: its first backend, at most one retry after a bad response, and at
    most four after errors. Each of these moments looks the route up anew in the backend index, by the host that the
    request then carries. */
module Requests {
  import opened Common
  import opened Hosts
  import opened Routes
  import opened WeightedDraw
  import opened Failover
  import opened Handler
  import RouteTable
  import Gateway

  type Table = RouteTable.Table

  /** What one request meets: at its first backend, at a retry after a bad response if there is one, and at the retries
      of the error handler. */
  datatype Life = Life(first: Reply, bad: Option<Reply>, errors: seq<Reply>)

  /** The table does not change while the request is served. */
  predicate Over(life: Life, t: Table) {
    && life.first.store == t.routes && (life.bad.Some? ==> life.bad.value.store == t.routes)
    && |life.errors| <= 4 && forall y | y in life.errors :: y.store == t.routes
  }

  function Begun(n: string, life: Life): seq<Attempt> { [AttemptOn(First, n, life.first)] }

  /** With the retry after a bad response, on whatever route the index names by then. */
  function Answered(t: Table, n: string, r: Request, life: Life): seq<Attempt> {
    var h := After(r, Begun(n, life)).host;
    Begun(n, life) +
    if life.bad.Some? && h in t.backendHosts then [AttemptOn(BadResponse, t.backendHosts[h], life.bad.value)] else []
  }

  /** All attempts made for a request that route `n` serves. */
  function Made(t: Table, n: string, r: Request, life: Life): seq<Attempt> {
    var h := After(r, Answered(t, n, r, life)).host;
    Answered(t, n, r, life) + if h in t.backendHosts then AttemptsOn(t.backendHosts[h], life.errors) else []
  }

  /** The index does not name another route than `n` for the host. */
  predicate Leads(t: Table, h: string, n: string) { h in t.backendHosts ==> t.backendHosts[h] == n }

  /** No attempt is made on another route than `n`. */
  predicate Stays(t: Table, n: string, r: Request, life: Life) {
    && (life.bad.Some? ==> Leads(t, After(r, Begun(n, life)).host, n))
    && (life.errors != [] ==> Leads(t, After(r, Answered(t, n, r, life)).host, n))
  }

  lemma StaysOn(t: Table, n: string, r: Request, life: Life)
    requires Over(life, t) && Stays(t, n, r, life) && n in t.routes
    ensures On(Made(t, n, r, life), t.routes[n].backends)
  {
    var h := After(r, Answered(t, n, r, life)).host;
    if h in t.backendHosts {
      var errors := AttemptsOn(t.backendHosts[h], life.errors);
      forall i | 0 <= i < |errors| ensures errors[i].backends == Some(t.routes[n].backends) {
        assert life.errors[i] in life.errors;
      }
    }
  }

  lemma MadeFromTable(t: Table, n: string, r: Request, life: Life, i: nat)
    requires Over(life, t) && i < |Made(t, n, r, life)|
    ensures var a := Made(t, n, r, life)[i];
            a.backends.Some? ==> exists name | name in t.routes :: a.backends.value == t.routes[name].backends
  {
    var begun := Answered(t, n, r, life);
    if i >= |begun| {
      assert life.errors[i - |begun|] in life.errors;
    }
  }

  /** Whatever is sent in a request's life is addressed to the whole host, port included, and the scheme of a backend
      of a stored route, which is the request's own route if it stays on it. */
  lemma MadeAddresses(t: Table, n: string, r: Request, life: Life, i: nat)
    requires Over(life, t) && i < |Made(t, n, r, life)| && Outcomes(r, Made(t, n, r, life))[i].Out?
    ensures var r' := After(r, Made(t, n, r, life)[..i + 1]);
            && (exists name, b | name in t.routes && b in t.routes[name].backends ::
                  r'.urlHost == b.host && r'.scheme == b.scheme)
            && (Stays(t, n, r, life) && n in t.routes ==>
                  exists b | b in t.routes[n].backends :: r'.urlHost == b.host && r'.scheme == b.scheme)
  {
    var made := Made(t, n, r, life);
    SentAddresses(r, made, i);
    MadeFromTable(t, n, r, life, i);
    if Stays(t, n, r, life) && n in t.routes {
      StaysOn(t, n, r, life);
      assert made[i] in made;
    }
  }

  // ----- the hosts that a request can carry -----

  /** The first attempt may send nothing for want of a token. */
  predicate Refusable(bs: seq<Backend>) { exists b :: b in bs && b.weight > 0 && b.oauth }

  /** The index names route `n` for all its backends, and no other route for the request's own host if that may still
      be there when an error is handled. */
  ghost predicate OwnHosts(t: Table, n: string, r: Request)
    requires n in t.routes
  {
    RouteTable.OwnFailoverOf(t, n) && (Refusable(t.routes[n].backends) ==> Leads(t, r.host, n))
  }

  /** A local and a remote backend as the offloader writes them. */
  predicate Pairs(bs: seq<Backend>) {
    |bs| == 2 && Drawable(bs[0], bs[1]) && ':' in bs[0].host
  }

  lemma DrawnHasWeight(bs: seq<Backend>, random: nat)
    requires NonNegative(Weights(bs)) && Total(Weights(bs)) > 0
    ensures Drawn(bs, random).weight > 0
  {
    var ws := Weights(bs);
    var draw := random % Total(ws);
    PickInterval(ws, draw, Pick(ws, draw));
  }

  lemma PairTotal(bs: seq<Backend>)
    requires Pairs(bs)
    ensures NonNegative(Weights(bs)) && Total(Weights(bs)) > 0
  {
    assert Prefix(Weights(bs), 1) == bs[0].weight;
  }

  lemma FirstLeads(t: Table, n: string, r: Request, y: Reply)
    requires n in t.routes && Pairs(t.routes[n].backends) && OwnHosts(t, n, r) && y.store == t.routes
    ensures Leads(t, Try(r, AttemptOn(First, n, y)).request.host, n)
  {
    var bs, a := t.routes[n].backends, AttemptOn(First, n, y);
    PairTotal(bs);
    FirstCandidates(bs, r, 2);
    assert bs[..2] == bs;
    DrawnHasWeight(bs, y.random);
    assert Drawn(bs, y.random) in bs;
  }

  lemma RetryLeads(t: Table, n: string, r: Request, a: Attempt)
    requires n in t.routes && RouteTable.OwnFailoverOf(t, n) && Leads(t, r.host, n)
    requires a.backends == Some(t.routes[n].backends)
    ensures Leads(t, Try(r, a).request.host, n)
  {
    var bs, o := t.routes[n].backends, Try(r, a).outcome;
    TryMovesHost(r, a);
    if o.Out? {
      TryDraws(r, a);
      CandidateOrigin(a.trigger, bs, r, |bs|, o.sent.backend);
      var i :| 0 <= i < |bs| && o.sent.backend == Weighted(a.trigger, bs[i]);
      assert bs[i] in bs;
    }
  }

  lemma AfterOne(r: Request, a: Attempt)
    ensures After(r, [a]) == Try(r, a).request
  {
    assert [a][..0] == [];
  }

  lemma AfterTwo(r: Request, a: Attempt, b: Attempt)
    ensures After(r, [a] + [b]) == Try(Try(r, a).request, b).request
  {
    AfterOne(r, a);
    AttemptAdded(r, [a], b);
  }

  /** A request whose hosts all lead to its route stays on it. */
  lemma OwnStays(t: Table, n: string, r: Request, life: Life)
    requires n in t.routes && Pairs(t.routes[n].backends) && OwnHosts(t, n, r) && Over(life, t)
    ensures Stays(t, n, r, life)
  {
    var a := AttemptOn(First, n, life.first);
    AfterOne(r, a);
    FirstLeads(t, n, r, life.first);
    var r1 := After(r, [a]);
    if life.bad.Some? && r1.host in t.backendHosts {
      var b := AttemptOn(BadResponse, n, life.bad.value);
      AfterTwo(r, a, b);
      RetryLeads(t, n, r1, b);
    }
  }

  // ----- requests that leave their route -----

  const NO_REPLY := Reply(map[], 0, true, false)

  function ReplyFor(t: Table, a: Attempt): Reply { Reply(t.routes, a.random, a.tokenOk, false) }

  /** A first attempt after which the request's host leads to another route. */
  lemma LeavesAtOnce(t: Table, n: string, r: Request, a: Attempt) returns (life: Life)
    requires n in t.routes && a.trigger.First? && a.backends == Some(t.routes[n].backends)
    requires !Leads(t, Try(r, a).request.host, n)
    ensures Over(life, t) && !Stays(t, n, r, life)
  {
    life := Life(ReplyFor(t, a), None, [NO_REPLY.(store := t.routes)]);
    assert AttemptOn(First, n, life.first) == a;
    AfterOne(r, a);
    assert Answered(t, n, r, life) == [a];
  }

  /** A first attempt and a retry after a bad response, after which the host leads to another route. */
  lemma LeavesNext(t: Table, n: string, r: Request, a: Attempt, b: Attempt) returns (life: Life)
    requires n in t.routes && a.trigger.First? && b.trigger.BadResponse?
    requires a.backends == b.backends == Some(t.routes[n].backends)
    requires Try(r, a).request.host in t.backendHosts
    requires !Leads(t, Try(Try(r, a).request, b).request.host, n)
    ensures Over(life, t) && !Stays(t, n, r, life)
  {
    if !Leads(t, Try(r, a).request.host, n) {
      life := LeavesAtOnce(t, n, r, a);
    } else {
      life := Life(ReplyFor(t, a), Some(ReplyFor(t, b)), [NO_REPLY.(store := t.routes)]);
      assert AttemptOn(First, n, life.first) == a && AttemptOn(BadResponse, n, life.bad.value) == b;
      AfterOne(r, a);
      AfterTwo(r, a, b);
      assert Answered(t, n, r, life) == [a] + [b];
    }
  }

  /** If a backend's host leads elsewhere, so does some request: that backend is the first, or the second. */
  lemma BackendLeaves(t: Table, n: string, r: Request, i: nat) returns (life: Life)
    requires n in t.routes && Pairs(t.routes[n].backends) && RouteTable.Indexed(t)
    requires i < 2 && !Leads(t, ExtractHost(t.routes[n].backends[i].host), n)
    ensures Over(life, t) && !Stays(t, n, r, life)
  {
    var bs := t.routes[n].backends;
    if bs[i].weight > 0 {
      var a := FirstDraws(r, bs, i);
      assert [a][0] in [a];
      life := LeavesAtOnce(t, n, r, a);
    } else {
      var a := FirstDraws(r, bs, 1 - i);
      assert [a][0] in [a];
      var r1 := Try(r, a).request;
      assert bs[1 - i] in bs;
      var b := RetryDraws(BadResponse, r1, bs, i);
      life := LeavesNext(t, n, r, a, b);
    }
  }

  /** Otherwise every request stays on its route: the condition is exact. */
  lemma StaysExact(t: Table, n: string, r: Request)
    requires n in t.routes && Pairs(t.routes[n].backends) && RouteTable.Indexed(t)
    ensures (forall life | Over(life, t) :: Stays(t, n, r, life)) <==> OwnHosts(t, n, r)
  {
    var bs := t.routes[n].backends;
    if OwnHosts(t, n, r) {
      forall life | Over(life, t) ensures Stays(t, n, r, life) {
        OwnStays(t, n, r, life);
      }
    } else if i: nat :| i < 2 && !Leads(t, ExtractHost(bs[i].host), n) {
      var life := BackendLeaves(t, n, r, i);
    } else {
      forall b | b in bs ensures ExtractHost(b.host) in t.backendHosts {
      }
      assert RouteTable.OwnFailoverOf(t, n);
      var b :| b in bs && b.weight > 0 && b.oauth;
      var i: nat :| i < 2 && bs[i] == b;
      var a := FirstDraws(r, bs, i);
      assert [a][0] in [a];
      var life := LeavesAtOnce(t, n, r, a.(tokenOk := false));
    }
  }

  // ----- paths, exactly -----

  function RepliesFor(t: Table, attempts: seq<Attempt>): (ys: seq<Reply>)
    ensures |ys| == |attempts| && forall i | 0 <= i < |ys| :: ys[i] == ReplyFor(t, attempts[i])
  {
    seq(|attempts|, i requires 0 <= i < |attempts| => ReplyFor(t, attempts[i]))
  }

  /** Where the backends of route `n` lead to it, a granted first attempt and up to four error retries on it are the
      life of a request. */
  lemma AsLife(t: Table, n: string, r: Request, attempts: seq<Attempt>) returns (life: Life)
    requires n in t.routes && Pairs(t.routes[n].backends) && RouteTable.OwnFailoverOf(t, n)
    requires On(attempts, t.routes[n].backends) && Errors(attempts, 5)
    ensures Over(life, t) && Made(t, n, r, life) == attempts
  {
    var rest := attempts[1..];
    life := Life(ReplyFor(t, attempts[0]), None, RepliesFor(t, rest));
    assert forall i | 0 <= i < |attempts| :: attempts[i] in attempts;
    assert Answered(t, n, r, life) == [attempts[0]];
    AfterOne(r, attempts[0]);
    GrantedLeads(t, n, r, attempts[0]);
    assert AttemptsOn(n, life.errors) == rest;
    assert [attempts[0]] + rest == attempts;
  }

  /** After a granted first attempt the request carries the host of a backend. */
  lemma GrantedLeads(t: Table, n: string, r: Request, a: Attempt)
    requires n in t.routes && Pairs(t.routes[n].backends) && RouteTable.OwnFailoverOf(t, n)
    requires a.trigger.First? && a.tokenOk && a.backends == Some(t.routes[n].backends)
    ensures var h := Try(r, a).request.host; h in t.backendHosts && t.backendHosts[h] == n
  {
    var bs := t.routes[n].backends;
    PairTotal(bs);
    FirstCandidates(bs, r, 2);
    assert bs[..2] == bs;
    assert Drawn(bs, a.random) in bs;
  }

  /** Every attempt is made on the request's own route, and the remote backend is sent one copy of its prefix. */
  predicate StaysWithOneCopy(t: Table, n: string, r: Request, life: Life, p: string) {
    Stays(t, n, r, life) && OneCopy(r, Made(t, n, r, life), p)
  }

  /** Every attempt is made on the request's own route, and every backend is sent the path meant for it. */
  predicate StaysOnRightPaths(t: Table, n: string, r: Request, life: Life) {
    Stays(t, n, r, life) && RightPaths(r, Made(t, n, r, life))
  }

  /** Whatever a request meets, it stays on its route and the remote backend is sent exactly one copy of its prefix, if
      and only if the index leads its hosts to that route and stripping the prefix leaves its path alone. */
  lemma OneCopyExact(t: Table, n: string, r: Request)
    requires n in t.routes && Pairs(t.routes[n].backends) && RouteTable.Indexed(t)
    ensures var p := t.routes[n].backends[1].pathPrefix;
            (forall life | Over(life, t) :: StaysWithOneCopy(t, n, r, life, p)) <==>
              OwnHosts(t, n, r) && Inert(r.path, p)
  {
    var bs := t.routes[n].backends;
    var p := bs[1].pathPrefix;
    StaysExact(t, n, r);
    if OwnHosts(t, n, r) && Inert(r.path, p) {
      forall life | Over(life, t) ensures StaysWithOneCopy(t, n, r, life, p) {
        StaysOn(t, n, r, life);
        OnePrefixCopy(r, Made(t, n, r, life), p);
      }
    } else if OwnHosts(t, n, r) {
      assert bs == [bs[0], bs[1]];
      var attempts, wrong := PrefixConditionNeeded(r, bs[0], bs[1]);
      var life := AsLife(t, n, r, attempts);
      assert !StaysWithOneCopy(t, n, r, life, p);
    }
  }

  /** Whatever a request meets, it stays on its route and both backends are sent the path meant for them, if and only
      if, besides, the remote host has a port or there is no prefix. */
  lemma RightPathsExactly(t: Table, n: string, r: Request)
    requires n in t.routes && Pairs(t.routes[n].backends) && RouteTable.Indexed(t)
    ensures var remote := t.routes[n].backends[1];
            (forall life | Over(life, t) :: StaysOnRightPaths(t, n, r, life)) <==>
            && OwnHosts(t, n, r) && Inert(r.path, remote.pathPrefix)
            && (remote.pathPrefix == "" || ':' in remote.host)
  {
    var bs := t.routes[n].backends;
    var local, remote := bs[0], bs[1];
    assert bs == [local, remote];
    StaysExact(t, n, r);
    if OwnHosts(t, n, r) {
      if !Inert(r.path, remote.pathPrefix) {
        var attempts, wrong := PrefixConditionNeeded(r, local, remote);
        var life := AsLife(t, n, r, attempts);
        assert !StaysOnRightPaths(t, n, r, life);
      } else if remote.pathPrefix != "" && ':' !in remote.host {
        var attempts, wrong := PortlessRemoteBreaks(r, local, remote);
        var life := AsLife(t, n, r, attempts);
        assert !StaysOnRightPaths(t, n, r, life);
      } else {
        forall life | Over(life, t) ensures StaysOnRightPaths(t, n, r, life) {
          StaysOn(t, n, r, life);
          EveryPathKept(r, Made(t, n, r, life), remote.pathPrefix);
        }
      }
    }
  }

  // ----- requests that cross over -----

  /** Two routes share a remote host with a port, and the index names `b` for it. When the remote backend of `a` fails,
      a retry draws that of `b` and puts its prefix before whatever it cannot strip of the first one: neither path,
      though both may be left alone by both prefixes. */
  lemma CrossedPrefixes(t: Table, a: string, b: string, r: Request) returns (life: Life, wrong: Sent)
    requires a in t.routes && b in t.routes && Pairs(t.routes[a].backends) && Pairs(t.routes[b].backends)
    requires var ra, rb := t.routes[a].backends[1], t.routes[b].backends[1];
             && ra.host == rb.host && ':' in ra.host && ra.weight > 0
             && ExtractHost(ra.host) in t.backendHosts && t.backendHosts[ExtractHost(ra.host)] == b
    ensures Over(life, t) && Out(wrong) in Outcomes(r, Made(t, a, r, life))
    ensures var ra, rb := t.routes[a].backends[1], t.routes[b].backends[1];
            && wrong.backend == Weighted(TransportError, rb)
            && wrong.path == Prefixed(rb.pathPrefix, RemovePathPrefix(Prefixed(ra.pathPrefix, r.path), rb.pathPrefix))
  {
    var bs, cs := t.routes[a].backends, t.routes[b].backends;
    var x := FirstDraws(r, bs, 1);
    assert [x][0] in [x];
    assert cs == [cs[0], cs[1]];
    var y := CrossingRetry(r, bs[1], cs[0], cs[1]);
    life := Life(ReplyFor(t, x), None, [ReplyFor(t, y)]);
    MadeOfTwo(t, a, b, r, life);
    wrong := Try(Try(r, x).request, y).outcome.sent;
  }

  /** After remote backend `ra` failed, a retry on the other route draws its remote backend on the same host. */
  lemma CrossingRetry(r: Request, ra: Backend, lb: Backend, rb: Backend) returns (y: Attempt)
    requires Pairs([lb, rb]) && ra.host == rb.host && ':' in ra.host
    ensures y.trigger.TransportError? && y.backends == Some([lb, rb])
    ensures Try(Rewritten(r, ra), y).outcome ==
            Out(Sent(
                  Weighted(TransportError, rb),
                  Prefixed(rb.pathPrefix, RemovePathPrefix(Prefixed(ra.pathPrefix, r.path), rb.pathPrefix))))
  {
    y := RetryDraws(TransportError, Rewritten(r, ra), [lb, rb], 1);
    Pair(TransportError, lb, rb, Rewritten(r, ra));
  }

  /** A first attempt on route `a`, and one error retry on the route `b` that its host leads to. */
  lemma MadeOfTwo(t: Table, a: string, b: string, r: Request, life: Life)
    requires life.bad.None? && |life.errors| == 1
    requires var h := Try(r, AttemptOn(First, a, life.first)).request.host;
             h in t.backendHosts && t.backendHosts[h] == b
    ensures var x, y := AttemptOn(First, a, life.first), AttemptOn(TransportError, b, life.errors[0]);
            Try(Try(r, x).request, y).outcome in Outcomes(r, Made(t, a, r, life))
  {
    var x, y := AttemptOn(First, a, life.first), AttemptOn(TransportError, b, life.errors[0]);
    AfterOne(r, x);
    assert Answered(t, a, r, life) == [x];
    assert AttemptsOn(b, life.errors) == [y];
    AttemptAdded(r, [x], y);
  }

  /** For one, with prefixes `/a` and `/b` a request for `/x` can be sent as `/b/a/x`, which is right for neither. */
  lemma CrossedExample(t: Table, a: string, b: string, r: Request) returns (life: Life, wrong: Sent)
    requires a in t.routes && b in t.routes && Pairs(t.routes[a].backends) && Pairs(t.routes[b].backends)
    requires var ra, rb := t.routes[a].backends[1], t.routes[b].backends[1];
             && ra.host == rb.host && ':' in ra.host && ra.weight > 0
             && ExtractHost(ra.host) in t.backendHosts && t.backendHosts[ExtractHost(ra.host)] == b
             && ra.pathPrefix == "/a" && rb.pathPrefix == "/b" && r.path == "/x"
    ensures Over(life, t) && Out(wrong) in Outcomes(r, Made(t, a, r, life)) && wrong.path == "/b/a/x"
    ensures Inert(r.path, "/a") && Inert(r.path, "/b") && !RightPaths(r, Made(t, a, r, life))
  {
    life, wrong := CrossedPrefixes(t, a, b, r);
    ExamplePaths();
  }

  lemma ExamplePaths()
    ensures Prefixed("/b", RemovePathPrefix(Prefixed("/a", "/x"), "/b")) == "/b/a/x" != Prefixed("/b", "/x")
    ensures Inert("/x", "/a") && Inert("/x", "/b")
  {
    assert Prefixed("/a", "/x") == "/a/x";
    assert "/b" == ['/', 'b'] && "/a/x"[1] == 'a' && "/x"[1] == 'x';
    assert !HasPrefix("/a/x", "/b") && !HasPrefix("/x", "/b") && !HasPrefix("/x", "/a");
    assert |"/b/a/x"| == 6 && |Prefixed("/b", "/x")| == 4;
  }

  // ----- the reverse proxy -----

  /** What the transport reports: an error, or the status of a response. */
  datatype Answer = NoAnswer | Status(code: int)

  lemma {:induction false} AfterJoined(r: Request, a: seq<Attempt>, b: seq<Attempt>)
    ensures After(r, a + b) == After(After(r, a), b)
  {
    if b == [] {
      assert a + b == a;
    } else {
      assert (a + b)[..|a + b| - 1] == a + b[..|b| - 1];
      AfterJoined(r, a, b[..|b| - 1]);
    }
  }

  lemma AfterBegun(t: Table, n: string, r: Request, life: Life)
    ensures After(r, Begun(n, life)) == Try(r, AttemptOn(First, n, life.first)).request
    ensures life.bad.None? ==> Answered(t, n, r, life) == Begun(n, life)
  {
    AfterOne(r, AttemptOn(First, n, life.first));
  }

  lemma AfterAnswered(t: Table, n: string, r: Request, life: Life)
    requires life.bad.Some?
    ensures var r1 := After(r, Begun(n, life));
            After(r, Answered(t, n, r, life)) ==
            if r1.host in t.backendHosts
            then Try(r1, AttemptOn(BadResponse, t.backendHosts[r1.host], life.bad.value)).request else r1
  {
    var r1 := After(r, Begun(n, life));
    if r1.host in t.backendHosts {
      AttemptAdded(r, Begun(n, life), AttemptOn(BadResponse, t.backendHosts[r1.host], life.bad.value));
    } else {
      assert Answered(t, n, r, life) == Begun(n, life);
    }
  }

  lemma FirstAttemptsOn(name: string, replies: seq<Reply>, k: nat)
    requires k <= |replies|
    ensures AttemptsOn(name, replies[..k]) == AttemptsOn(name, replies)[..k]
  {
  }

  lemma AfterMade(t: Table, n: string, r: Request, life: Life, errors: seq<Reply>, k: nat)
    requires k <= |errors| && life.errors == errors[..k]
    ensures var r2 := After(r, Answered(t, n, r, life));
            After(r, Made(t, n, r, life)) ==
            if r2.host in t.backendHosts then After(r2, AttemptsOn(t.backendHosts[r2.host], errors)[..k]) else r2
  {
    var r2 := After(r, Answered(t, n, r, life));
    if r2.host in t.backendHosts {
      var name := t.backendHosts[r2.host];
      FirstAttemptsOn(name, errors, k);
      AfterJoined(r, Answered(t, n, r, life), AttemptsOn(name, life.errors));
    } else {
      assert Made(t, n, r, life) == Answered(t, n, r, life);
    }
  }

  /** The retries made are the first of those that could be, up to and with the one that was answered or panicked, or
      all of them if there was none. */
  predicate Exhausts(r: Request, name: string, errors: seq<Reply>, made: seq<Reply>) {
    && made <= errors
    && var os := Outcomes(r, AttemptsOn(name, made));
    && (forall i | 0 <= i < |made| - 1 :: !(os[i].Out? && made[i].answered) && !os[i].BadWeights?)
    && (made == errors
        || (made != [] &&
            var last := |made| - 1; (os[last].Out? && made[last].answered) || os[last].BadWeights?))
  }

  /** What becomes of a request on route `n` that meets these answers. After a first backend was drawn, a response with
      a bad status is retried once if the index knows the host, and the error handler is called when there was no
      response or that retry failed. */
  predicate Course(
    t: Table, n: string, r: Request, life: Life, first: Reply, answer: Answer, again: Reply, errors: seq<Reply>)
  {
    var one := Try(r, AttemptOn(First, n, first));
    var drawn, h := !one.outcome.BadWeights?, one.request.host;
    var retried := drawn && answer.Status? && answer.code >= 399 && h in t.backendHosts;
    var two := if retried then Try(one.request, AttemptOn(BadResponse, t.backendHosts[h], again)) else one;
    var refused := retried && (two.outcome.TokenFailed? || (two.outcome.Out? && !again.answered));
    var handled := drawn && (answer.NoAnswer? || refused);
    && life.first == first && life.bad == (if retried then Some(again) else None)
    && (if handled && two.request.host in t.backendHosts
        then Exhausts(two.request, t.backendHosts[two.request.host], errors, life.errors)
        else life.errors == [])
  }

  /** The end of a request's life: the error handler, if it is called. */
  method Recover(
    p: Gateway.Proxy, req: OutRequest, failed: bool, errors: seq<Reply>, ghost n: string, ghost r: Request,
    ghost begun: Life)
    returns (ghost life: Life)
    requires |errors| == 4 && forall y | y in errors :: y.store == p.View().routes
    requires Over(begun, p.View()) && begun.errors == []
    requires req.View() == After(r, Answered(p.View(), n, r, begun))
    modifies req
    ensures life == begun.(errors := life.errors)
    ensures var now := old(req.View());
            if failed && now.host in p.View().backendHosts
            then Exhausts(now, p.View().backendHosts[now.host], errors, life.errors)
            else life.errors == []
    ensures Over(life, p.View()) && req.View() == After(r, Made(p.View(), n, r, life))
  {
    life := begun;
    if failed {
      var _, outcomes := ErrorHandler(p, req, errors);
      life := life.(errors := errors[..|outcomes|]);
      if old(req.host) in p.backendHostToRoute {
        var name := p.backendHostToRoute[old(req.host)];
        FirstAttemptsOn(name, errors, |outcomes|);
      }
      AfterMade(p.View(), n, r, life, errors, |outcomes|);
    } else {
      AfterMade(p.View(), n, r, life, errors, 0);
    }
  }

  /** The life of a request, as the reverse proxy drives it: the rewriting, then the error handler after an error, or
      the response handler, and the error handler after all if that one fails. */
  method Serve(
    p: Gateway.Proxy, req: OutRequest, first: Reply, answer: Answer, again: Reply, errors: seq<Reply>)
    returns (served: bool, ghost life: Life)
    requires |errors| == 4 && first.store == again.store == p.View().routes
    requires forall y | y in errors :: y.store == p.View().routes
    modifies req
    ensures var t, h := p.View(), ExtractHost(old(req.host));
            && (served <==> h in t.hosts && t.hosts[h] in t.routes)
            && (!served ==> req.View() == old(req.View()))
            && (served ==>
                  && Over(life, t) && Course(t, t.hosts[h], old(req.View()), life, first, answer, again, errors)
                  && req.View() == After(old(req.View()), Made(t, t.hosts[h], old(req.View()), life)))
  {
    ghost var r, t, h := req.View(), p.View(), ExtractHost(req.host);
    life := Life(first, None, []);
    var outcome := Rewrite(p, req, req.host, first.random, first.tokenOk);
    if outcome.None? {
      return false, life;
    }
    ghost var n := t.hosts[h];
    AfterBegun(t, n, r, life);
    var failed := answer.NoAnswer?;
    if answer.Status? && !outcome.value.BadWeights? {
      var retried := ModifyResponse(p, req, answer.code, again);
      if retried.Some? {
        life := life.(bad := Some(again));
        AfterAnswered(t, n, r, life);
        failed := retried.value.TokenFailed? || (retried.value.Out? && !again.answered);
      }
    }
    life := Recover(p, req, failed && !outcome.value.BadWeights?, errors, n, r, life);
    return true, life;
  }
}

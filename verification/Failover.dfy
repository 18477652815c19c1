/** What happens to one proxied request from its first backend through every failover retry. */
module Failover {
  import opened Common
  import opened Hosts
  import opened Routes
  import opened WeightedDraw

  /** The outgoing request: its `Host`, its URL's host, scheme and path. */
  datatype Request = Request(host: string, urlHost: string, scheme: string, path: string)

  /** Why a backend is being chosen: the first rewrite, a response with a bad status, or an error. */
  datatype Trigger = First | BadResponse | TransportError

  /** One choice of a backend. `backends` is what the store answers for the route, `random` feeds the
      generator and `tokenOk` tells whether a needed OAuth token could be fetched. */
  datatype Attempt = Attempt(trigger: Trigger, backends: Option<seq<Backend>>, random: nat, tokenOk: bool)

  /** A request that left the gateway. */
  datatype Sent = Sent(backend: Backend, path: string)

  datatype Outcome =
    | RouteMissing
    | NoBackends
    | BadWeights    // the random generator panics on a negative total
    | TokenFailed
    | Out(sent: Sent)

  predicate HasPrefix(s: string, prefix: string) { prefix <= s }

  /** The prefix that is really looked for: its leading slash is forgotten on a path without one. */
  function EffectivePrefix(path: string, prefix: string): string {
    if !HasPrefix(path, "/") && HasPrefix(prefix, "/") then prefix[1..] else prefix
  }

  function RemovePathPrefix(path: string, prefix: string): (r: string)
    ensures HasPrefix(path, EffectivePrefix(path, prefix)) ==> path == EffectivePrefix(path, prefix) + r
    ensures !HasPrefix(path, EffectivePrefix(path, prefix)) ==> r == path
  {
    var p := EffectivePrefix(path, prefix);
    if HasPrefix(path, p) then path[|p|..] else path
  }

  /** A backend without a prefix leaves the path alone. */
  function Prefixed(prefix: string, path: string): string {
    if prefix == "" then path else prefix + path
  }

  /** The request as `handleBackend` rewrites it for backend `b`. */
  function Rewritten(r: Request, b: Backend): Request {
    Request(ExtractHost(b.host), b.host, b.scheme, Prefixed(b.pathPrefix, r.path))
  }

  /** A retry passes over a backend that looks like the one that failed: it compares the backend's whole
      `host` with the request's port-less one. */
  predicate Skips(t: Trigger, b: Backend, r: Request) {
    match t
    case First => false
    case BadResponse => b.host == r.host && b.scheme == r.scheme
    case TransportError => b.host == r.host
  }

  /** In a retry a parked backend counts for one. */
  function Weighted(t: Trigger, b: Backend): Backend {
    if !t.First? && b.weight == 0 then b.(weight := 1) else b
  }

  /** The weight that a non-negative weight counts for in a retry. */
  function RetryWeight(w: int): int { if w > 1 then w else 1 }

  /** The candidates among the first `n` backends. */
  function Candidates(t: Trigger, bs: seq<Backend>, r: Request, n: nat): (cs: seq<Backend>)
    requires n <= |bs|
    ensures |cs| <= n
  {
    if n == 0 then []
    else
      var cs := Candidates(t, bs, r, n - 1);
      if Skips(t, bs[n - 1], r) then cs else cs + [Weighted(t, bs[n - 1])]
  }

  /** The path after the first `n` backends: a retry strips the prefix of every candidate in turn. */
  function StrippedPath(t: Trigger, bs: seq<Backend>, r: Request, n: nat): string
    requires n <= |bs|
  {
    if n == 0 || t.First? then r.path
    else
      var p := StrippedPath(t, bs, r, n - 1);
      if Skips(t, bs[n - 1], r) then p else RemovePathPrefix(p, bs[n - 1].pathPrefix)
  }

  /** The candidate that a random number falls on. */
  function Drawn(cs: seq<Backend>, random: nat): (b: Backend)
    requires Total(Weights(cs)) > 0
    ensures b in cs
  {
    cs[Pick(Weights(cs), random % Total(Weights(cs)))]
  }

  /** A request after an attempt, and what came of the attempt. */
  datatype Result = Result(request: Request, outcome: Outcome)

  function Try(r: Request, a: Attempt): Result {
    if a.backends.None? then Result(r, RouteMissing)
    else
      var bs := a.backends.value;
      var cs := Candidates(a.trigger, bs, r, |bs|);
      var r' := r.(path := StrippedPath(a.trigger, bs, r, |bs|));
      var total := Total(Weights(cs));
      if total == 0 then Result(r', NoBackends)
      else if total < 0 then Result(r', BadWeights)
      else
        var b := Drawn(cs, a.random);
        if b.oauth && !a.tokenOk then Result(r', TokenFailed)
        else Result(Rewritten(r', b), Out(Sent(b, Prefixed(b.pathPrefix, r'.path))))
  }

  /** The request after a sequence of attempts. */
  function After(r: Request, attempts: seq<Attempt>): Request {
    if attempts == [] then r
    else Try(After(r, attempts[..|attempts| - 1]), attempts[|attempts| - 1]).request
  }

  /** What came of each attempt of a sequence. */
  function Outcomes(r: Request, attempts: seq<Attempt>): (os: seq<Outcome>)
    ensures |os| == |attempts|
  {
    if attempts == [] then []
    else
      var init := attempts[..|attempts| - 1];
      Outcomes(r, init) + [Try(After(r, init), attempts[|attempts| - 1]).outcome]
  }

  /** The requests that left the gateway, in order. */
  function Sends(os: seq<Outcome>): seq<Sent> {
    if os == [] then []
    else Sends(os[..|os| - 1]) + if os[|os| - 1].Out? then [os[|os| - 1].sent] else []
  }

  /** Only the first attempt is the initial rewrite. */
  predicate RetriesFollow(attempts: seq<Attempt>) {
    forall i | 0 < i < |attempts| :: !attempts[i].trigger.First?
  }

  // ----- the remote prefix -----

  /** The backends the offloader writes: a local one without prefix, then a remote one with prefix `p`. */
  predicate OffloaderShape(bs: seq<Backend>, p: string) {
    |bs| == 2 && bs[0].pathPrefix == "" && bs[1].pathPrefix == p
  }

  /** Stripping `p` has no effect on `path`. */
  predicate Inert(path: string, p: string) {
    var e := EffectivePrefix(path, p);
    e == "" || !HasPrefix(path, e)
  }

  lemma PrefixRoundTrip(path: string, p: string)
    ensures p != "" ==> RemovePathPrefix(Prefixed(p, path), p) == path
    ensures RemovePathPrefix(path, "") == path
    ensures RemovePathPrefix(path, p) == path <==> Inert(path, p)
  {
  }

  /** On a path with a leading slash, or with a prefix without one, exactly a whole prefix is taken off; on a path
      without one, exactly the rest of a prefix with one. */
  lemma StrippedExactly(path: string, p: string)
    ensures var r, slashes := RemovePathPrefix(path, p), path != "" && path[0] == '/';
            && (slashes || p == "" || p[0] != '/' ==> if p <= path then path == p + r else r == path)
            && (!slashes && p != "" && p[0] == '/' ==> if p[1..] <= path then path == p[1..] + r else r == path)
  {
    assert HasPrefix(path, "/") <==> path != "" && path[0] == '/';
    assert HasPrefix(p, "/") <==> p != "" && p[0] == '/';
  }

  /** A path that starts with a slash and does not begin with the prefix is never shortened by it. */
  lemma AbsolutePathInert(path: string, p: string)
    requires HasPrefix(path, "/") && !HasPrefix(path, p)
    ensures Inert(path, p)
  {
  }

  /** An attempt that sends anything sends it to one of its candidates, on the stripped path. */
  lemma TryDraws(r: Request, a: Attempt)
    requires a.backends.Some?
    ensures
      var bs := a.backends.value; var Result(r', o) := Try(r, a); var path := StrippedPath(a.trigger, bs, r, |bs|);
      if o.Out? then
        && o.sent.backend in Candidates(a.trigger, bs, r, |bs|)
        && o.sent.path == Prefixed(o.sent.backend.pathPrefix, path)
        && r' == Rewritten(r.(path := path), o.sent.backend)
      else r' == r.(path := path)
  {
  }

  /** Candidates and stripped path of a two-backend route. */
  lemma Pair(t: Trigger, b0: Backend, b1: Backend, r: Request)
    ensures Candidates(t, [b0, b1], r, 2) ==
            (if Skips(t, b0, r) then [] else [Weighted(t, b0)]) + (if Skips(t, b1, r) then [] else [Weighted(t, b1)])
    ensures b0.pathPrefix == "" ==>
              (StrippedPath(t, [b0, b1], r, 2) ==
               if t.First? || Skips(t, b1, r) then r.path else RemovePathPrefix(r.path, b1.pathPrefix))
  {
    var bs := [b0, b1];
    assert Candidates(t, bs, r, 0) == [];
    assert Candidates(t, bs, r, 1) == if Skips(t, b0, r) then [] else [Weighted(t, b0)];
    assert StrippedPath(t, bs, r, 0) == r.path;
    assert b0.pathPrefix == "" ==> StrippedPath(t, bs, r, 1) == r.path;
  }

  /** On an offloader route the stripped path is the original one whenever the remote backend is a candidate. */
  lemma StripKeepsPath(t: Trigger, b0: Backend, b1: Backend, r: Request, path: string)
    requires b0.pathPrefix == "" && Inert(path, b1.pathPrefix)
    requires r.path == path || (r.path == Prefixed(b1.pathPrefix, path) && !t.First?)
    ensures var s := StrippedPath(t, [b0, b1], r, 2);
            if Skips(t, b1, r) then s == r.path else s == path
  {
    Pair(t, b0, b1, r);
    PrefixRoundTrip(path, b1.pathPrefix);
  }

  lemma PairMember(t: Trigger, b0: Backend, b1: Backend, r: Request, c: Backend)
    requires c in Candidates(t, [b0, b1], r, 2)
    ensures c.pathPrefix == b0.pathPrefix || (c.pathPrefix == b1.pathPrefix && !Skips(t, b1, r))
  {
  }

  lemma TryKeepsPath(r: Request, a: Attempt, path: string, p: string)
    requires a.backends.Some? ==> OffloaderShape(a.backends.value, p)
    requires Inert(path, p)
    requires r.path == path || (r.path == Prefixed(p, path) && !a.trigger.First?)
    ensures Try(r, a).request.path == path || Try(r, a).request.path == Prefixed(p, path)
    ensures var o := Try(r, a).outcome;
            o.Out? && o.sent.backend.pathPrefix == p ==> o.sent.path == Prefixed(p, path)
  {
    if a.backends.Some? {
      var b0, b1 := a.backends.value[0], a.backends.value[1];
      assert a.backends.value == [b0, b1];
      StripKeepsPath(a.trigger, b0, b1, r, path);
      TryDraws(r, a);
      var o := Try(r, a).outcome;
      if o.Out? {
        PairMember(a.trigger, b0, b1, r, o.sent.backend);
      }
    }
  }

  /** Over any number of attempts, everything sent to the remote backend carries exactly one copy of the
      prefix before the original path, whatever the weights, the hosts and the failures. */
  lemma {:induction false} OnePrefixCopy(r: Request, attempts: seq<Attempt>, p: string)
    requires RetriesFollow(attempts)
    requires forall a | a in attempts && a.backends.Some? :: OffloaderShape(a.backends.value, p)
    requires Inert(r.path, p)
    ensures After(r, attempts).path == r.path || (attempts != [] && After(r, attempts).path == Prefixed(p, r.path))
    ensures forall o | o in Outcomes(r, attempts) && o.Out? ::
              o.sent.backend.pathPrefix == p ==> o.sent.path == Prefixed(p, r.path)
  {
    if attempts != [] {
      var init, a := attempts[..|attempts| - 1], attempts[|attempts| - 1];
      OnePrefixCopy(r, init, p);
      assert a in attempts;
      TryKeepsPath(After(r, init), a, r.path, p);
    }
  }

  // ----- the local path -----

  /** After the remote backend failed or answered badly, the local backend gets the original path back exactly when
      the remote's host carries a port; otherwise it is sent the prefixed one. */
  lemma LocalPathAfterRemote(t: Trigger, r: Request, local: Backend, remote: Backend, random: nat, tokenOk: bool)
    requires !t.First? && local.pathPrefix == "" && remote.pathPrefix != ""
    requires Try(Rewritten(r, remote), Attempt(t, Some([local, remote]), random, tokenOk)).outcome.Out?
    ensures
      var o := Try(Rewritten(r, remote), Attempt(t, Some([local, remote]), random, tokenOk)).outcome;
      o.sent.backend.pathPrefix == "" ==>
        && (o.sent.path == r.path <==> ':' in remote.host)
        && (o.sent.path == Prefixed(remote.pathPrefix, r.path) <==> ':' !in remote.host)
  {
    var r1 := Rewritten(r, remote);
    Pair(t, local, remote, r1);
    TryDraws(r1, Attempt(t, Some([local, remote]), random, tokenOk));
    PrefixRoundTrip(r.path, remote.pathPrefix);
    assert |Prefixed(remote.pathPrefix, r.path)| > |r.path|;
  }

  /** A retry passes over the remote backend of an offloader route only while nothing has been sent, or it does no harm
      because there is no prefix to strip. */
  predicate Strips(bs: seq<Backend>, p: string) { OffloaderShape(bs, p) && (p == "" || ':' in bs[1].host) }

  /** A request with a port in its host has not been sent anywhere yet. */
  predicate OnItsWay(r: Request, path: string, p: string) {
    (r.path == path || r.path == Prefixed(p, path)) && (':' in r.host ==> r.path == path)
  }

  lemma TryKeepsEveryPath(r: Request, a: Attempt, path: string, p: string)
    requires a.backends.Some? ==> Strips(a.backends.value, p)
    requires Inert(path, p) && OnItsWay(r, path, p) && (a.trigger.First? ==> r.path == path)
    ensures var o := Try(r, a).outcome; o.Out? ==> o.sent.path == Prefixed(o.sent.backend.pathPrefix, path)
    ensures OnItsWay(Try(r, a).request, path, p)
  {
    TryMovesHost(r, a);
    TryKeepsPath(r, a, path, p);
    if a.backends.Some? {
      var b0, b1 := a.backends.value[0], a.backends.value[1];
      assert a.backends.value == [b0, b1];
      StripKeepsPath(a.trigger, b0, b1, r, path);
      TryDraws(r, a);
    }
  }

  /** Over any number of attempts on offloader routes whose remote host has a port, everything sent, to whichever
      backend, carries that backend's prefix before the original path. */
  lemma {:induction false} EveryPathKept(r: Request, attempts: seq<Attempt>, p: string)
    requires RetriesFollow(attempts)
    requires forall a | a in attempts && a.backends.Some? :: Strips(a.backends.value, p)
    requires Inert(r.path, p)
    ensures OnItsWay(After(r, attempts), r.path, p)
    ensures forall o | o in Outcomes(r, attempts) && o.Out? ::
              o.sent.path == Prefixed(o.sent.backend.pathPrefix, r.path)
  {
    if attempts != [] {
      var init, a := attempts[..|attempts| - 1], attempts[|attempts| - 1];
      EveryPathKept(r, init, p);
      assert a in attempts;
      TryKeepsEveryPath(After(r, init), a, r.path, p);
    }
  }

  // ----- runs that send a wrong path -----

  /** The attempts are made on one route, the first rewrite first. */
  predicate On(attempts: seq<Attempt>, bs: seq<Backend>) {
    RetriesFollow(attempts) && forall a | a in attempts :: a.backends == Some(bs)
  }

  /** At most `n` attempts: a first one whose token is granted, then error retries. */
  predicate Errors(attempts: seq<Attempt>, n: nat) {
    && 0 < |attempts| <= n && attempts[0].trigger.First? && attempts[0].tokenOk
    && forall i | 0 < i < |attempts| :: attempts[i].trigger.TransportError?
  }

  lemma AttemptAdded(r: Request, attempts: seq<Attempt>, a: Attempt)
    ensures After(r, attempts + [a]) == Try(After(r, attempts), a).request
    ensures Try(After(r, attempts), a).outcome in Outcomes(r, attempts + [a])
    ensures a.backends.Some? && On(attempts, a.backends.value) && (attempts == [] || !a.trigger.First?) ==>
              On(attempts + [a], a.backends.value)
  {
  }

  lemma ErrorAdded(attempts: seq<Attempt>, a: Attempt, bs: seq<Backend>)
    requires On(attempts, bs) && Errors(attempts, |attempts|)
    requires a.trigger.TransportError? && a.backends == Some(bs)
    ensures On(attempts + [a], bs) && Errors(attempts + [a], |attempts| + 1)
  {
  }

  /** Some number makes any candidate of positive weight the drawn one. */
  lemma DrawOne(cs: seq<Backend>, i: nat) returns (random: nat)
    requires i < |cs| && cs[i].weight > 0 && NonNegative(Weights(cs))
    ensures Total(Weights(cs)) > 0 && Drawn(cs, random) == cs[i]
  {
    var ws := Weights(cs);
    PrefixMonotone(ws, 0, i);
    PrefixMonotone(ws, i + 1, |ws|);
    random := Prefix(ws, i);
    assert random % Total(ws) == random;
    PickInterval(ws, random, i);
  }

  /** Any backend of a route of two with some weight can be the first. */
  lemma FirstDraws(r: Request, bs: seq<Backend>, i: nat) returns (a: Attempt)
    requires |bs| == 2 && i < 2 && bs[0].weight >= 0 && bs[1].weight >= 0 && bs[i].weight > 0
    ensures On([a], bs) && Errors([a], 1)
    ensures Try(r, a) == Result(Rewritten(r, bs[i]), Out(Sent(bs[i], Prefixed(bs[i].pathPrefix, r.path))))
    ensures bs[i].oauth ==> Try(r, a.(tokenOk := false)) == Result(r, TokenFailed)
  {
    FirstCandidates(bs, r, 2);
    assert bs[..2] == bs;
    var random := DrawOne(bs, i);
    a := Attempt(First, Some(bs), random, true);
  }

  /** Any backend of a route of two that a retry does not skip can be drawn in it. */
  lemma RetryDraws(t: Trigger, r: Request, bs: seq<Backend>, i: nat) returns (a: Attempt)
    requires !t.First? && |bs| == 2 && i < 2 && bs[0].weight >= 0 && bs[1].weight >= 0 && !Skips(t, bs[i], r)
    ensures a.trigger == t && a.backends == Some(bs)
    ensures var path := StrippedPath(t, bs, r, 2);
            Try(r, a) == Result(
                           Rewritten(r.(path := path), bs[i]),
                           Out(Sent(Weighted(t, bs[i]), Prefixed(bs[i].pathPrefix, path))))
  {
    var cs := Candidates(t, bs, r, 2);
    CandidatesPositive(t, bs, r, 2);
    CandidatePosition(t, bs, r, i, 2);
    var random := DrawOne(cs, |Candidates(t, bs, r, i)|);
    a := Attempt(t, Some(bs), random, true);
  }

  /** A local and a remote backend that both can be drawn, the remote one after any failure of the local one. */
  predicate Drawable(local: Backend, remote: Backend) {
    && local.pathPrefix == "" && local.weight >= 0 && remote.weight >= 0 && local.weight + remote.weight > 0
    && (local.weight > 0 || ':' in local.host) && remote.host != ExtractHost(local.host)
  }

  /** The remote backend has just failed on the right path. */
  lemma RemoteDrawn(r: Request, local: Backend, remote: Backend) returns (attempts: seq<Attempt>)
    requires Drawable(local, remote) && (remote.weight > 0 || Inert(r.path, remote.pathPrefix))
    ensures On(attempts, [local, remote]) && Errors(attempts, 2)
    ensures var r' := After(r, attempts);
            r'.host == ExtractHost(remote.host) && r'.path == Prefixed(remote.pathPrefix, r.path)
  {
    var bs := [local, remote];
    if remote.weight > 0 {
      attempts := FirstMade(r, bs, 1);
    } else {
      var start := FirstMade(r, bs, 0);
      attempts := RemoteRetried(r, start, local, remote);
      PrefixRoundTrip(r.path, remote.pathPrefix);
    }
  }

  /** A first attempt that draws backend `i`. */
  lemma FirstMade(r: Request, bs: seq<Backend>, i: nat) returns (attempts: seq<Attempt>)
    requires |bs| == 2 && i < 2 && bs[0].weight >= 0 && bs[1].weight >= 0 && bs[i].weight > 0
    ensures On(attempts, bs) && Errors(attempts, 1) && After(r, attempts) == Rewritten(r, bs[i])
  {
    var a := FirstDraws(r, bs, i);
    AttemptAdded(r, [], a);
    assert [] + [a] == [a];
    attempts := [a];
  }

  /** One more retry, on the remote backend. */
  lemma RemoteRetried(r: Request, attempts: seq<Attempt>, local: Backend, remote: Backend) returns (more: seq<Attempt>)
    requires On(attempts, [local, remote]) && Errors(attempts, |attempts|)
    requires Drawable(local, remote) && remote.host != After(r, attempts).host
    ensures On(more, [local, remote]) && Errors(more, |attempts| + 1)
    ensures var path := RemovePathPrefix(After(r, attempts).path, remote.pathPrefix);
            && After(r, more).host == ExtractHost(remote.host)
            && After(r, more).path == Prefixed(remote.pathPrefix, path)
            && Out(Sent(Weighted(TransportError, remote), Prefixed(remote.pathPrefix, path))) in Outcomes(r, more)
  {
    var r1 := After(r, attempts);
    Pair(TransportError, local, remote, r1);
    var a := RetryDraws(TransportError, r1, [local, remote], 1);
    AttemptAdded(r, attempts, a);
    ErrorAdded(attempts, a, [local, remote]);
    more := attempts + [a];
  }

  /** The local backend has just failed on the right path. */
  lemma LocalDrawn(r: Request, local: Backend, remote: Backend) returns (attempts: seq<Attempt>)
    requires Drawable(local, remote) && remote.pathPrefix != ""
    ensures On(attempts, [local, remote]) && Errors(attempts, 4)
    ensures After(r, attempts).host == ExtractHost(local.host) && After(r, attempts).path == r.path
  {
    var bs := [local, remote];
    PrefixRoundTrip(r.path, remote.pathPrefix);
    if local.weight > 0 {
      attempts := FirstMade(r, bs, 0);
    } else {
      attempts := RemoteDrawn(r, local, remote);
      attempts := LocalRetried(r, attempts, local, remote);
      if ':' !in remote.host {
        attempts := LocalRetried(r, attempts, local, remote);
      }
    }
  }

  /** One more retry, on the local backend. */
  lemma LocalRetried(r: Request, attempts: seq<Attempt>, local: Backend, remote: Backend) returns (more: seq<Attempt>)
    requires On(attempts, [local, remote]) && Errors(attempts, |attempts|)
    requires Drawable(local, remote) && local.host != After(r, attempts).host
    ensures On(more, [local, remote]) && Errors(more, |attempts| + 1)
    ensures var r1 := After(r, attempts); var path := StrippedPath(TransportError, [local, remote], r1, 2);
            && After(r, more).host == ExtractHost(local.host) && After(r, more).path == path
            && Out(Sent(Weighted(TransportError, local), path)) in Outcomes(r, more)
            && path == if remote.host == r1.host then r1.path else RemovePathPrefix(r1.path, remote.pathPrefix)
  {
    var r1 := After(r, attempts);
    Pair(TransportError, local, remote, r1);
    var a := RetryDraws(TransportError, r1, [local, remote], 0);
    AttemptAdded(r, attempts, a);
    ErrorAdded(attempts, a, [local, remote]);
    more := attempts + [a];
  }

  /** The condition on the path is needed: when stripping does shorten it, a failure of the local backend
      followed by a retry that draws the remote one sends it something else. */
  lemma PrefixConditionNeeded(r: Request, local: Backend, remote: Backend)
    returns (attempts: seq<Attempt>, wrong: Sent)
    requires Drawable(local, remote) && !Inert(r.path, remote.pathPrefix)
    ensures On(attempts, [local, remote]) && Errors(attempts, 5) && Out(wrong) in Outcomes(r, attempts)
    ensures wrong.backend == Weighted(TransportError, remote) && wrong.path != Prefixed(remote.pathPrefix, r.path)
  {
    var start := LocalDrawn(r, local, remote);
    attempts := RemoteRetried(r, start, local, remote);
    StrictlyShorter(r.path, remote.pathPrefix);
    var shortened := RemovePathPrefix(r.path, remote.pathPrefix);
    wrong := Sent(Weighted(TransportError, remote), Prefixed(remote.pathPrefix, shortened));
  }

  lemma StrictlyShorter(path: string, p: string)
    requires !Inert(path, p)
    ensures Prefixed(p, RemovePathPrefix(path, p)) != Prefixed(p, path)
  {
  }

  /** Where the remote host has no port, a failure of the remote backend sends the local one the prefixed path. */
  lemma PortlessRemoteBreaks(r: Request, local: Backend, remote: Backend) returns (attempts: seq<Attempt>, wrong: Sent)
    requires Drawable(local, remote) && Inert(r.path, remote.pathPrefix)
    requires remote.pathPrefix != "" && ':' !in remote.host
    ensures On(attempts, [local, remote]) && Errors(attempts, 5) && Out(wrong) in Outcomes(r, attempts)
    ensures wrong.backend == Weighted(TransportError, local)
    ensures wrong.path == Prefixed(remote.pathPrefix, r.path) != r.path
  {
    attempts := RemoteDrawn(r, local, remote);
    attempts := LocalRetried(r, attempts, local, remote);
    wrong := Sent(Weighted(TransportError, local), Prefixed(remote.pathPrefix, r.path));
    assert |Prefixed(remote.pathPrefix, r.path)| > |r.path|;
  }

  // ----- both paths, exactly -----

  /** Everything sent to a backend with prefix `p` carries one copy of it before the original path. */
  predicate OneCopy(r: Request, attempts: seq<Attempt>, p: string) {
    forall o | o in Outcomes(r, attempts) && o.Out? ::
      o.sent.backend.pathPrefix == p ==> o.sent.path == Prefixed(p, r.path)
  }

  /** Everything sent carries the prefix of the backend it is sent to, once, before the original path. */
  predicate RightPaths(r: Request, attempts: seq<Attempt>) {
    forall o | o in Outcomes(r, attempts) && o.Out? :: o.sent.path == Prefixed(o.sent.backend.pathPrefix, r.path)
  }

  /** In all runs on an offloader route the remote backend is sent exactly one copy of its prefix, if and only if
      stripping that prefix leaves the original path alone. */
  lemma OnePrefixExact(r: Request, local: Backend, remote: Backend)
    requires Drawable(local, remote)
    ensures (forall attempts | On(attempts, [local, remote]) :: OneCopy(r, attempts, remote.pathPrefix))
            <==> Inert(r.path, remote.pathPrefix)
  {
    if Inert(r.path, remote.pathPrefix) {
      forall attempts | On(attempts, [local, remote]) ensures OneCopy(r, attempts, remote.pathPrefix) {
        OnePrefixCopy(r, attempts, remote.pathPrefix);
      }
    } else {
      var attempts, wrong := PrefixConditionNeeded(r, local, remote);
      assert On(attempts, [local, remote]) && !OneCopy(r, attempts, remote.pathPrefix);
    }
  }

  /** In all runs on an offloader route both backends are sent the path meant for them, if and only if stripping the
      remote prefix leaves the original path alone and the remote host has a port or there is no prefix. */
  lemma RightPathsExact(r: Request, local: Backend, remote: Backend)
    requires Drawable(local, remote)
    ensures (forall attempts | On(attempts, [local, remote]) :: RightPaths(r, attempts))
            <==> Inert(r.path, remote.pathPrefix) && (remote.pathPrefix == "" || ':' in remote.host)
  {
    var bs := [local, remote];
    if !Inert(r.path, remote.pathPrefix) {
      var attempts, wrong := PrefixConditionNeeded(r, local, remote);
      assert On(attempts, bs) && !RightPaths(r, attempts);
    } else if remote.pathPrefix != "" && ':' !in remote.host {
      var attempts, wrong := PortlessRemoteBreaks(r, local, remote);
      assert On(attempts, bs) && !RightPaths(r, attempts);
    } else {
      forall attempts | On(attempts, bs) ensures RightPaths(r, attempts) {
        EveryPathKept(r, attempts, remote.pathPrefix);
      }
    }
  }

  // ----- who can be drawn -----

  lemma {:induction false} CandidatePosition(t: Trigger, bs: seq<Backend>, r: Request, i: nat, n: nat)
    requires i < n <= |bs| && !Skips(t, bs[i], r)
    ensures var j := |Candidates(t, bs, r, i)|;
            j < |Candidates(t, bs, r, n)| && Candidates(t, bs, r, n)[j] == Weighted(t, bs[i])
    decreases n
  {
    if i + 1 < n {
      CandidatePosition(t, bs, r, i, n - 1);
    }
  }

  lemma {:induction false} CandidateOrigin(t: Trigger, bs: seq<Backend>, r: Request, n: nat, c: Backend)
    requires n <= |bs| && c in Candidates(t, bs, r, n)
    ensures exists i | 0 <= i < n :: c == Weighted(t, bs[i]) && !Skips(t, bs[i], r)
  {
    if !(!Skips(t, bs[n - 1], r) && c == Weighted(t, bs[n - 1])) {
      CandidateOrigin(t, bs, r, n - 1, c);
    }
  }

  lemma {:induction false} CandidatesPositive(t: Trigger, bs: seq<Backend>, r: Request, n: nat)
    requires !t.First? && NonNegative(Weights(bs)) && n <= |bs|
    ensures forall c | c in Candidates(t, bs, r, n) :: c.weight >= 1 && !Skips(t, c, r)
  {
    if n > 0 {
      CandidatesPositive(t, bs, r, n - 1);
      assert Weights(bs)[n - 1] >= 0;
    }
  }

  lemma PositiveShare(cs: seq<Backend>, j: nat)
    requires j < |cs| && forall c | c in cs :: c.weight >= 1
    ensures |DrawsFor(Weights(cs), j)| == cs[j].weight
  {
    var ws := Weights(cs);
    forall k | 0 <= k < |ws| ensures ws[k] >= 1 { assert cs[k] in cs; }
    PrefixMonotone(ws, 0, j);
    PrefixMonotone(ws, j + 1, |ws|);
    DrawShare(ws, j);
  }

  /** A draw that falls on a candidate sends the request there, unless its token is refused. */
  lemma DrawSends(r: Request, a: Attempt, j: nat)
    requires a.backends.Some?
    requires var cs := Candidates(a.trigger, a.backends.value, r, |a.backends.value|);
             j < |cs| && a.random in DrawsFor(Weights(cs), j)
    ensures var bs := a.backends.value; var c := Candidates(a.trigger, bs, r, |bs|)[j];
            Try(r, a).outcome ==
            if c.oauth && !a.tokenOk then TokenFailed
            else Out(Sent(c, Prefixed(c.pathPrefix, StrippedPath(a.trigger, bs, r, |bs|))))
  {
    var bs := a.backends.value;
    var cs := Candidates(a.trigger, bs, r, |bs|);
    SmallRemainder(a.random, Total(Weights(cs)));
    assert Drawn(cs, a.random) == cs[j];
  }

  lemma SmallRemainder(x: nat, n: nat)
    requires x < n
    ensures x % n == x
  {
  }

  /** A retry does not leave the backend out: its whole host is not the one that the request carries or, after a bad
      response, its scheme is not the request's. */
  predicate Remains(t: Trigger, b: Backend, r: Request) {
    b.host != r.host || (t.BadResponse? && b.scheme != r.scheme)
  }

  /** In a retry over non-negative weights every backend that is not left out gets exactly max(weight, 1) of the draws,
      and one that is left out gets none. */
  lemma RetryShare(t: Trigger, bs: seq<Backend>, r: Request, i: nat, random: nat, tokenOk: bool)
    requires !t.First? && NonNegative(Weights(bs)) && i < |bs| && Remains(t, bs[i], r)
    ensures var cs := Candidates(t, bs, r, |bs|); var j := |Candidates(t, bs, r, i)|;
            var b := bs[i].(weight := RetryWeight(bs[i].weight));
            && j < |cs| && cs[j] == b
            && |DrawsFor(Weights(cs), j)| == RetryWeight(bs[i].weight)
            && (random in DrawsFor(Weights(cs), j) ==>
                  var o := Try(r, Attempt(t, Some(bs), random, tokenOk)).outcome;
                  if b.oauth && !tokenOk then o.TokenFailed? else o.Out? && o.sent.backend == b)
    ensures var o := Try(r, Attempt(t, Some(bs), random, tokenOk)).outcome;
            o.Out? ==> Remains(t, o.sent.backend, r)
  {
    assert Weights(bs)[i] >= 0;
    CandidatePosition(t, bs, r, i, |bs|);
    CandidatesPositive(t, bs, r, |bs|);
    var j, a := |Candidates(t, bs, r, i)|, Attempt(t, Some(bs), random, tokenOk);
    PositiveShare(Candidates(t, bs, r, |bs|), j);
    if random in DrawsFor(Weights(Candidates(t, bs, r, |bs|)), j) {
      DrawSends(r, a, j);
    }
    TryDraws(r, a);
  }

  /** The first draw is over all backends of the route, each with its own weight. */
  lemma {:induction false} FirstCandidates(bs: seq<Backend>, r: Request, n: nat)
    requires n <= |bs|
    ensures Candidates(First, bs, r, n) == bs[..n]
  {
    if n > 0 {
      FirstCandidates(bs, r, n - 1);
    }
  }

  lemma FirstShare(bs: seq<Backend>, r: Request, i: nat, random: nat, tokenOk: bool)
    requires NonNegative(Weights(bs)) && Total(Weights(bs)) > 0 && i < |bs|
    ensures var cs := Candidates(First, bs, r, |bs|);
            cs == bs && |DrawsFor(Weights(cs), i)| == bs[i].weight
    ensures random in DrawsFor(Weights(bs), i) ==>
              Try(r, Attempt(First, Some(bs), random, tokenOk)).outcome ==
              if bs[i].oauth && !tokenOk then TokenFailed else Out(Sent(bs[i], Prefixed(bs[i].pathPrefix, r.path)))
  {
    FirstCandidates(bs, r, |bs|);
    assert bs[..|bs|] == bs;
    DrawShare(Weights(bs), i);
    if random in DrawsFor(Weights(bs), i) {
      DrawSends(r, Attempt(First, Some(bs), random, tokenOk), i);
    }
  }

  /** A backend that has just failed is left out of the retry exactly when its host has no port. */
  lemma FailedBackendSkipped(t: Trigger, r: Request, b: Backend)
    requires !t.First?
    ensures Skips(t, b, Rewritten(r, b)) <==> ':' !in b.host
  {
  }

  /** The request's host after an attempt is the port-less host of the backend it went to, if it went
      anywhere; an error retry never goes to a backend whose whole host is the request's. */
  lemma TryMovesHost(r: Request, a: Attempt)
    ensures var Result(r', o) := Try(r, a);
            if o.Out? then r'.host == ExtractHost(o.sent.backend.host) else r'.host == r.host
    ensures var o := Try(r, a).outcome;
            o.Out? && a.trigger.TransportError? ==> o.sent.backend.host != r.host
  {
    if a.backends.Some? {
      TryDraws(r, a);
      var o := Try(r, a).outcome;
      if o.Out? {
        CandidateOrigin(a.trigger, a.backends.value, r, |a.backends.value|, o.sent.backend);
      }
    }
  }

  // ----- where requests are addressed -----

  /** After an attempt that sent something the request is addressed to the whole host and the scheme of the backend that
      was drawn, names its host without port, and has the path that was sent; otherwise its address is as it was. */
  lemma TryAddresses(r: Request, a: Attempt)
    ensures var Result(r', o) := Try(r, a);
            if o.Out? then
              && r'.urlHost == o.sent.backend.host && r'.scheme == o.sent.backend.scheme
              && r'.host == ExtractHost(o.sent.backend.host) && r'.path == o.sent.path
            else r'.urlHost == r.urlHost && r'.scheme == r.scheme && r'.host == r.host
  {
    if a.backends.Some? {
      TryDraws(r, a);
    }
  }

  /** Along any run of attempts, each request is addressed so. */
  lemma {:induction false} SentAddresses(r: Request, attempts: seq<Attempt>, i: nat)
    requires i < |attempts| && Outcomes(r, attempts)[i].Out?
    ensures var r', sent := After(r, attempts[..i + 1]), Outcomes(r, attempts)[i].sent;
            && r'.urlHost == sent.backend.host && r'.scheme == sent.backend.scheme
            && r'.host == ExtractHost(sent.backend.host) && r'.path == sent.path
    ensures attempts[i].backends.Some?
    ensures var b := Outcomes(r, attempts)[i].sent.backend;
            exists c | c in attempts[i].backends.value ::
              c.host == b.host && c.scheme == b.scheme && c.pathPrefix == b.pathPrefix && c.oauth == b.oauth
  {
    var n := |attempts| - 1;
    if i < n {
      assert attempts[..n][..i + 1] == attempts[..i + 1];
      SentAddresses(r, attempts[..n], i);
    } else {
      var a, r1 := attempts[n], After(r, attempts[..n]);
      assert attempts[..i + 1] == attempts;
      TryAddresses(r1, a);
      TryDraws(r1, a);
      CandidateOrigin(a.trigger, a.backends.value, r1, |a.backends.value|, Try(r1, a).outcome.sent.backend);
    }
  }

  /** No request goes to the port-less host that the request before it went to. */
  predicate HostsAlternate(sent: seq<Sent>) {
    forall i | 0 < i < |sent| ::
      ':' !in sent[i].backend.host ==> sent[i].backend.host != ExtractHost(sent[i - 1].backend.host)
  }

  /** The host a request carries after `sent`, having started with `host`. */
  function LastHost(host: string, sent: seq<Sent>): string {
    if sent == [] then host else ExtractHost(sent[|sent| - 1].backend.host)
  }

  /** Along a first attempt and its error retries, consecutive requests never go to the same port-less
      host, even when attempts between them sent nothing. */
  lemma {:induction false} ConsecutiveHostsDiffer(r: Request, attempts: seq<Attempt>)
    requires forall i | 0 < i < |attempts| :: attempts[i].trigger.TransportError?
    ensures After(r, attempts).host == LastHost(r.host, Sends(Outcomes(r, attempts)))
    ensures HostsAlternate(Sends(Outcomes(r, attempts)))
  {
    if attempts != [] {
      var init, a := attempts[..|attempts| - 1], attempts[|attempts| - 1];
      ConsecutiveHostsDiffer(r, init);
      var o, os := Try(After(r, init), a).outcome, Outcomes(r, init);
      TryMovesHost(After(r, init), a);
      assert Outcomes(r, attempts)[..|init|] == os;
      if o.Out? && init != [] {
        AlternateMore(r.host, Sends(os), o.sent);
      }
    }
  }

  lemma AlternateMore(host: string, sent: seq<Sent>, s: Sent)
    requires HostsAlternate(sent) && s.backend.host != LastHost(host, sent)
    ensures HostsAlternate(sent + [s])
  {
  }
}

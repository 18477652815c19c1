/** What a stored route says, in terms of the model that it was written for. */
module WrittenRoutes {
  import opened Common
  import opened Deployments
  import opened LocalServices
  import opened Routes
  import opened Dataplane
  import opened Controller
  import opened Reachability

  // ----- texts -----

  predicate IsNumeral(s: string) { forall i | 0 <= i < |s| :: '0' <= s[i] <= '9' }

  /** The number that a decimal numeral stands for. */
  function Value(s: string): nat
    requires IsNumeral(s)
  {
    if s == "" then 0 else 10 * Value(s[..|s| - 1]) + (s[|s| - 1] - '0') as nat
  }

  /** A port is written as its decimal numeral, without leading zeros. */
  lemma {:induction false} DigitsExact(n: nat)
    ensures var s := Digits(n); IsNumeral(s) && Value(s) == n && (|s| > 1 ==> s[0] != '0')
    ensures n > 0 ==> Digits(n)[0] != '0'
  {
    if n >= 10 {
      DigitsExact(n / 10);
      var last := ['0' + (n % 10) as char];
      assert Digits(n) == Digits(n / 10) + last;
      assert Digits(n)[..|Digits(n)| - 1] == Digits(n / 10);
    } else {
      assert Digits(n)[..0] == "";
    }
  }

  /** The parts with `glue` between them. */
  function Joined(parts: seq<string>, glue: string): string
    requires parts != []
  {
    if |parts| == 1 then parts[0] else parts[0] + glue + Joined(parts[1..], glue)
  }

  /** In `part` followed by `what`, or by nothing if it is the last part, `what` does not occur any earlier. */
  predicate Free(part: string, what: string, last: bool) {
    var text := if last then part else part + what;
    forall i | 0 <= i < |part| :: !(what <= text[i..])
  }

  /** The text is cut at the occurrences of `what`, found from the left, and glued together with the replacement. */
  lemma {:induction false} ReplaceAllCuts(s: string, what: string, replacement: string) returns (parts: seq<string>)
    requires what != ""
    ensures parts != [] && forall i | 0 <= i < |parts| :: Free(parts[i], what, i == |parts| - 1)
    ensures s == Joined(parts, what) && ReplaceAll(s, what, replacement) == Joined(parts, replacement)
    decreases |s|
  {
    if |s| < |what| {
      parts := [s];
    } else if what <= s {
      var rest := ReplaceAllCuts(s[|what|..], what, replacement);
      parts := [""] + rest;
      GluedFirst(rest, what);
      GluedFirst(rest, replacement);
      assert s == what + s[|what|..];
    } else {
      var rest := ReplaceAllCuts(s[1..], what, replacement);
      parts := OneLonger(s, rest, what, replacement);
    }
  }

  lemma GluedFirst(rest: seq<string>, glue: string)
    requires rest != []
    ensures Joined([""] + rest, glue) == glue + Joined(rest, glue)
  {
    assert ([""] + rest)[1..] == rest;
    assert "" + glue == glue;
  }

  /** A character that begins no occurrence goes to the first part. */
  lemma OneLonger(s: string, rest: seq<string>, what: string, replacement: string) returns (parts: seq<string>)
    requires what != "" && s != "" && !(what <= s) && |s| >= |what|
    requires rest != [] && forall i | 0 <= i < |rest| :: Free(rest[i], what, i == |rest| - 1)
    requires s[1..] == Joined(rest, what) && ReplaceAll(s[1..], what, replacement) == Joined(rest, replacement)
    ensures parts != [] && forall i | 0 <= i < |parts| :: Free(parts[i], what, i == |parts| - 1)
    ensures s == Joined(parts, what) && ReplaceAll(s, what, replacement) == Joined(parts, replacement)
  {
    parts := rest[0 := [s[0]] + rest[0]];
    LongerFirst(s[0], rest, what);
    LongerFirst(s[0], rest, replacement);
    assert s == [s[0]] + s[1..];
    FreeLonger(s, rest, what);
  }

  lemma LongerFirst(c: char, rest: seq<string>, glue: string)
    requires rest != []
    ensures Joined(rest[0 := [c] + rest[0]], glue) == [c] + Joined(rest, glue)
  {
    assert rest[0 := [c] + rest[0]][1..] == rest[1..];
  }

  lemma FreeLonger(s: string, rest: seq<string>, what: string)
    requires what != "" && s != "" && rest != [] && !(what <= s) && s[1..] == Joined(rest, what)
    requires Free(rest[0], what, |rest| == 1)
    ensures Free([s[0]] + rest[0], what, |rest| == 1)
  {
    var part := [s[0]] + rest[0];
    var shorter := if |rest| == 1 then rest[0] else rest[0] + what;
    var text := if |rest| == 1 then part else part + what;
    assert text == [s[0]] + shorter;
    assert s == [s[0]] + s[1..];
    assert text <= s;
    forall i | 0 <= i < |part| ensures !(what <= text[i..]) {
      if i > 0 {
        assert text[i..] == shorter[i - 1..];
      } else {
        assert text[0..] == text;
      }
    }
  }

  lemma ReplaceStep(s: string, what: string, replacement: string)
    requires what != "" && s != "" && !(what <= s)
    ensures ReplaceAll(s, what, replacement) == [s[0]] + ReplaceAll(s[1..], what, replacement)
  {
    if |s| < |what| {
      assert [s[0]] + s[1..] == s;
    }
  }

  /** What has no dollar sign is left alone by the substitution of a variable. */
  lemma {:induction false} PlainKept(plain: string, rest: string, what: string, replacement: string)
    requires what != "" && what[0] == '$' && '$' !in plain
    ensures ReplaceAll(plain + rest, what, replacement) == plain + ReplaceAll(rest, what, replacement)
  {
    if plain == "" {
      assert plain + rest == rest;
    } else {
      var s := plain + rest;
      assert s[1..] == plain[1..] + rest && s[0] == plain[0] && s[0] in plain;
      assert !(what <= s);
      PlainKept(plain[1..], rest, what, replacement);
      ReplaceStep(s, what, replacement);
      assert [plain[0]] + plain[1..] == plain;
    }
  }

  lemma VariableReplaced(what: string, rest: string, replacement: string)
    requires what != ""
    ensures ReplaceAll(what + rest, what, replacement) == replacement + ReplaceAll(rest, what, replacement)
  {
    assert (what + rest)[|what|..] == rest;
  }

  lemma PlainText(plain: string, what: string, replacement: string)
    requires what != "" && what[0] == '$' && '$' !in plain
    ensures ReplaceAll(plain, what, replacement) == plain
  {
    PlainKept(plain, "", what, replacement);
    assert plain + "" == plain;
  }

  /** The chart's default prefix. */
  const DEFAULT_PREFIX := "/" + ("$workspace" + ("/models/" + "$model"))

  /** The default prefix names the workspace and the remote model. */
  lemma DefaultPrefix(workspace: string, remoteModel: string)
    requires '$' !in workspace
    ensures RemotePrefix(DEFAULT_PREFIX, workspace, remoteModel) == "/" + workspace + "/models/" + remoteModel
  {
    OneReplaced("/", "$workspace", "/models/", "$model", workspace);
    var m, once := "$model", "/" + workspace + "/models/";
    PlainKept(once, m, m, remoteModel);
    VariableReplaced(m, "", remoteModel);
    assert m + "" == m;
  }

  lemma OneReplaced(a: string, what: string, b: string, c: string, replacement: string)
    requires what != "" && what[0] == '$' && '$' !in a && '$' !in b && |c| < |what|
    ensures ReplaceAll(a + (what + (b + c)), what, replacement) == a + replacement + b + c
  {
    PlainKept(a, what + (b + c), what, replacement);
    VariableReplaced(what, b + c, replacement);
    PlainKept(b, c, what, replacement);
    assert a + (replacement + (b + c)) == a + replacement + b + c;
  }

  // ----- routes -----

  /** What the events of a run say about the models called by one name: which service they stand on, which remote
      backend their offloading config names, if any, and which remote model; `addresses` are the cluster addresses that
      the service lookups answer with, `workspaces` the workspaces that any event brings along. */
  datatype Sources = Sources(
    ref: ServiceRef, remote: Option<RemoteBackend>, remoteModel: string,
    addresses: set<string>, workspaces: set<string>)

  function OffloadOf(e: Event): OffloadReply { if e.Reconcile? then e.reply.offload else e.offload }

  /** An update brings the workspace along that the remote control plane has just answered with. */
  predicate Says(e: Event, name: string, x: Sources) {
    && (e.Reconcile? ==> e.reply.workspace in x.workspaces)
    && (!e.Reconcile? && e.read.Some? ==> e.read.value.workspace in x.workspaces)
    && (e.key.name == name && e.read.Some? ==>
          && (e.read.value.service.Some? ==> e.read.value.service.value == x.ref)
          && (e.read.value.config.Some? ==> e.read.value.config.value.remote == x.remote)
          && e.read.value.remoteModel == x.remoteModel && OffloadOf(e).clusterIP in x.addresses)
  }

  /** The backend is addressed as `remote` says, with the variables of its prefix replaced; `workspace` is the one in
      use, and was perhaps not known yet. */
  predicate Copies(b: Backend, remote: RemoteBackend, remoteModel: string, workspace: string) {
    && b.host == remote.host && b.scheme == remote.scheme && b.oauth == remote.oauth
    && exists w | w in {"", workspace} ::
         b.pathPrefix == ReplaceAll(ReplaceAll(remote.pathPrefix, "$workspace", w), "$model", remoteModel)
  }

  /** The route serves the service's names and sends to the service beside it, on the same port, and to the remote
      backend of the config; to the default one only if the config names none. */
  predicate Describes(route: Route, x: Sources, d: Option<RemoteBackend>, workspace: string) {
    var svc := x.ref.service;
    && |route.hostnames| == 5 && |route.backends| == 2
    && route.hostnames[0] in x.addresses
    && route.hostnames[1..] == [
         svc.name, svc.name + "." + svc.namespace, svc.name + "." + svc.namespace + ".svc",
         svc.name + "." + svc.namespace + ".svc.cluster.local"]
    && var local, remote := route.backends[0], route.backends[1];
    && local.host == svc.name + "-beamlit" + "." + svc.namespace + ".svc.cluster.local:" + Digits(x.ref.port)
    && local.scheme == "http" && local.pathPrefix == "" && !local.oauth
    && (x.remote.Some? ==> Copies(remote, x.remote.value, x.remoteModel, workspace))
    && (x.remote.None? ==> d.Some? && Copies(remote, d.value, x.remoteModel, workspace))
  }

  /** The cell's route, if any, is described; a workspace in use came with some event. */
  predicate CellDescribed(c: Cell, x: Sources, d: Option<RemoteBackend>) {
    && (c.workspace == "" || c.workspace in x.workspaces)
    && (c.route.Some? ==> Describes(c.route.value, x, d, c.workspace))
  }

  /** Every registered service has the service beside it on record. */
  predicate Beside(reg: Registry) { forall svc | svc in reg :: reg[svc] == svc.(name := svc.name + "-beamlit") }

  lemma WriteDescribed(
    c: Cell, name: string, m: Model, local: ServiceRef, remote: Option<RemoteBackend>, weight: int,
    o: OffloadReply, x: Sources, d: Option<RemoteBackend>)
    requires CellDescribed(c, x, d) && m.workspace in x.workspaces && m.remoteModel == x.remoteModel
    requires local.service == x.ref.service.(name := x.ref.service.name + "-beamlit") && local.port == x.ref.port
    requires remote == (if x.remote.Some? then x.remote else d) && o.clusterIP in x.addresses
    ensures CellDescribed(Dataplane.Configure(c, name, m, x.ref.service, local, remote, weight, o).cell, x, d)
  {
  }

  lemma RerouteDescribed(v: View, k: Key, m: Model, weight: int, o: OffloadReply, x: Sources, d: Option<RemoteBackend>)
    requires CellDescribed(v.cell, x, d) && Beside(v.registry) && v.defaultRemote == d && m.config.Some?
    requires m.workspace in x.workspaces && m.remoteModel == x.remoteModel && o.clusterIP in x.addresses
    requires m.config.value.remote == x.remote && (m.service.Some? ==> m.service.value == x.ref)
    ensures CellDescribed(Reroute(v, k, m, weight, o).view.cell, x, d)
  {
    if m.service.Some? {
      var local := LocalOf(v.registry, m.service.value);
      if local.Some? {
        WriteDescribed(v.cell, k.name, m, local.value, RemoteOf(v, m.config.value), weight, o, x, d);
      }
    }
  }

  lemma ConfigureDescribed(v: View, k: Key, m: Model, r: ReconcileReply, x: Sources, d: Option<RemoteBackend>)
    requires CellDescribed(v.cell, x, d) && v.defaultRemote == d
    requires m.workspace in x.workspaces && m.remoteModel == x.remoteModel && r.offload.clusterIP in x.addresses
    requires (m.config.Some? ==> m.config.value.remote == x.remote) && (m.service.Some? ==> m.service.value == x.ref)
    ensures CellDescribed(ConfigureOffloading(v, k, m, r).view.cell, x, d)
  {
    if m.service.Some? {
      var ref := m.service.value;
      var down := Forget(TearDown(v, ref.service, r).view);
      assert CellDescribed(down.cell, x, d) && down.defaultRemote == d;
      if m.config.Some? {
        var local := ref.(service := BeamlitService(ref.service));
        WriteDescribed(down.cell, k.name, m, local, RemoteOf(down, m.config.value), 0, r.offload, x, d);
      }
    }
  }

  lemma ReconcileDescribed(v: View, k: Key, m: Model, r: ReconcileReply, x: Sources, d: Option<RemoteBackend>)
    requires CellDescribed(v.cell, x, d) && v.defaultRemote == d
    requires r.workspace in x.workspaces && m.remoteModel == x.remoteModel && r.offload.clusterIP in x.addresses
    requires (m.config.Some? ==> m.config.value.remote == x.remote) && (m.service.Some? ==> m.service.value == x.ref)
    ensures CellDescribed(ReconcileModel(v, k, m, r).view.cell, x, d)
  {
    var v1 := v.(claims := v.claims[ClaimKey(m) := k.name]);
    ConfigureDescribed(v1, k, m.(workspace := r.workspace), r, x, d);
  }

  lemma NextDescribed(v: View, e: Event, x: Sources, d: Option<RemoteBackend>)
    requires CellDescribed(v.cell, x, d) && Beside(v.registry) && v.defaultRemote == d && Says(e, e.key.name, x)
    ensures CellDescribed(Next(v, e).view.cell, x, d)
  {
    if e.read.Some? {
      var k, m := e.key, e.read.value;
      match e
      case Reconcile(_, _, r) => ReconcileDescribed(v, k, m, r, x, d);
      case Health(_, healthy, _, o) =>
        if m.config.Some? {
          RerouteDescribed(v, k, m, if healthy then m.config.value.percentage else 100, o, x, d);
        }
      case Metric(_, reached, _, o) =>
        if m.config.Some? {
          RerouteDescribed(v, k, m, m.config.value.percentage, o, x, d);
          RerouteDescribed(v.(ongoing := None), k, m, 0, o, x, d);
        }
    }
  }

  lemma ConfigureWorkspace(v: View, k: Key, m: Model, r: ReconcileReply)
    ensures var w, w' := v.cell.workspace, ConfigureOffloading(v, k, m, r).view.cell.workspace;
            w' == w || w' == WorkspaceOf(w, m)
  {
    if m.service.Some? && m.config.Some? {
      var ref, down := m.service.value, Forget(TearDown(v, m.service.value.service, r).view);
      assert down.cell.workspace == v.cell.workspace;
      SetUpWorkspace(down, k, m, ref, m.config.value, r);
    }
  }

  lemma SetUpWorkspace(v: View, k: Key, m: Model, ref: ServiceRef, c: OffloadingConfig, r: ReconcileReply)
    ensures var w, w' := v.cell.workspace, SetUp(v, k, m, ref, c, r).view.cell.workspace;
            w' == w || w' == WorkspaceOf(w, m)
  {
  }

  lemma RerouteWorkspace(v: View, k: Key, m: Model, weight: int, o: OffloadReply)
    requires m.config.Some?
    ensures var w, w' := v.cell.workspace, Reroute(v, k, m, weight, o).view.cell.workspace;
            w' == w || w' == WorkspaceOf(w, m)
  {
  }

  lemma ReconcileWorkspace(v: View, k: Key, m: Model, r: ReconcileReply)
    ensures var w, w' := v.cell.workspace, ReconcileModel(v, k, m, r).view.cell.workspace;
            w' == w || w' == WorkspaceOf(w, m.(workspace := r.workspace))
  {
    if Updates(m) {
      ConfigureWorkspace(v.(claims := v.claims[ClaimKey(m) := k.name]), k, m.(workspace := r.workspace), r);
    }
  }

  /** The workspace in use comes with an event, and once there is one it stays. */
  lemma NextWorkspace(v: View, e: Event)
    ensures var w, w' := v.cell.workspace, Next(v, e).view.cell.workspace;
            if w != "" then w' == w
            else w' == "" || w' == (if e.Reconcile? then e.reply.workspace
                                    else if e.read.Some? then e.read.value.workspace else "")
  {
    if e.read.Some? {
      var k, m := e.key, e.read.value;
      match e
      case Reconcile(_, _, r) => ReconcileWorkspace(v, k, m, r);
      case Health(_, healthy, _, o) =>
        if m.config.Some? {
          RerouteWorkspace(v, k, m, if healthy then m.config.value.percentage else 100, o);
        }
      case Metric(_, reached, _, o) =>
        if m.config.Some? {
          RerouteWorkspace(v, k, m, m.config.value.percentage, o);
          RerouteWorkspace(v.(ongoing := None), k, m, 0, o);
        }
    }
  }

  lemma TearDownBeside(v: View, svc: Service, r: ReconcileReply)
    requires Beside(v.registry)
    ensures Beside(TearDown(v, svc, r).view.registry)
  {
  }

  lemma ConfigureBeside(v: View, k: Key, m: Model, r: ReconcileReply)
    requires Beside(v.registry)
    ensures Beside(ConfigureOffloading(v, k, m, r).view.registry)
  {
    if m.service.Some? {
      TearDownBeside(v, m.service.value.service, r);
    }
  }

  lemma ReconcileBeside(v: View, k: Key, m: Model, r: ReconcileReply)
    requires Beside(v.registry)
    ensures Beside(ReconcileModel(v, k, m, r).view.registry)
  {
    if Finalizes(m) {
      if m.service.Some? {
        TearDownBeside(Forget(v).(claims := v.claims - {ClaimKey(m)}), m.service.value.service, r);
      }
    } else {
      ConfigureBeside(v.(claims := v.claims[ClaimKey(m) := k.name]), k, m.(workspace := r.workspace), r);
    }
  }

  lemma NextBeside(v: View, e: Event)
    requires Beside(v.registry)
    ensures Beside(Next(v, e).view.registry)
  {
    if e.Reconcile? && e.read.Some? {
      ReconcileBeside(v, e.key, e.read.value, e.reply);
    }
  }

  lemma {:induction false} RunBeside(d: Option<RemoteBackend>, es: seq<Event>)
    ensures var s := Run(Init(d), es); Beside(s.registry) && s.defaultRemote == d
  {
    if es != [] {
      var init, e := es[..|es| - 1], es[|es| - 1];
      RunBeside(d, init);
      var v := Read(Run(Init(d), init), e.key);
      NextBeside(v, e);
      NextDefault(v, e);
    }
  }

  /** After any run whose events agree on a model, whatever fails, its stored route is described by what they say. */
  lemma {:induction false} RunDescribed(d: Option<RemoteBackend>, es: seq<Event>, k: Key, x: Sources)
    requires forall e | e in es :: Says(e, k.name, x)
    ensures CellDescribed(Read(Run(Init(d), es), k).cell, x, d)
  {
    if es != [] {
      var init, e := es[..|es| - 1], es[|es| - 1];
      assert e in es;
      RunDescribed(d, init, k, x);
      RunBeside(d, init);
      var s := Run(Init(d), init);
      var v := Read(s, e.key);
      if e.key.name == k.name {
        assert v.cell == Read(s, k).cell;
        NextDescribed(v, e, x, d);
        assert Read(Apply(s, e), k).cell == Next(v, e).view.cell;
      } else {
        NextWorkspace(v, e);
        ReadOther(s, e.key, Next(v, e).view, k);
        assert Read(Apply(s, e), k).cell.workspace == Next(v, e).view.cell.workspace;
      }
    }
  }
}

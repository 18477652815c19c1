/** The Kubernetes configurer, which works on the API server's endpoint slices in place. Every call of the API
    server may fail. */
module Configurers {
  import opened Common
  import opened Deployments
  import LocalServices
  import opened MirrorPorts
  import opened EndpointSlices

  datatype Item = Item(key: SliceKey, slice: Slice)

  /** The items of a list call are exactly the slices of the service, each once. */
  ghost predicate Lists(items: seq<Item>, m: Slices, svc: Service) {
    && (forall i | 0 <= i < |items| :: items[i].key in m && items[i].slice == m[items[i].key])
    && (forall i, j | 0 <= i < j < |items| :: items[i].key != items[j].key)
    && KeysOf(items) == SlicesOf(m, svc)
  }

  function KeysOf(items: seq<Item>): set<SliceKey> { set i | i in items :: i.key }

  /** The part of the API server that stores endpoint slices. */
  class ApiServer {
    var slices: Slices

    method List(svc: Service) returns (ok: bool, items: seq<Item>)
      ensures ok ==> Lists(items, slices, svc)
    {
      items := [];
      ok := *;
      if !ok {
        return;
      }
      var rest := SlicesOf(slices, svc);
      while rest != {}
        invariant rest <= SlicesOf(slices, svc)
        invariant forall i | 0 <= i < |items| :: items[i].key in slices && items[i].slice == slices[items[i].key]
        invariant forall i, j | 0 <= i < j < |items| :: items[i].key != items[j].key
        invariant KeysOf(items) == SlicesOf(slices, svc) - rest
      {
        var k :| k in rest;
        ghost var before := items;
        items := items + [Item(k, slices[k])];
        assert KeysOf(items) == KeysOf(before) + {k};
        assert forall i | 0 <= i < |before| :: before[i].key in KeysOf(before);
        rest := rest - {k};
      }
    }

    method Get(k: SliceKey) returns (s: Option<Slice>)
      ensures s.Some? ==> k in slices && s.value == slices[k]
    {
      var ok := *;
      s := if ok && k in slices then Some(slices[k]) else None;
    }

    /** Writes a slice; an update of a missing slice fails. */
    method Put(k: SliceKey, s: Slice, create: bool) returns (ok: bool)
      modifies this
      ensures slices == if ok then old(slices)[k := s] else old(slices)
      ensures ok ==> create || k in old(slices)
    {
      ok := *;
      ok := ok && (create || k in slices);
      if ok {
        slices := slices[k := s];
      }
    }

    method Delete(k: SliceKey) returns (ok: bool)
      modifies this
      ensures slices == if ok then old(slices) - {k} else old(slices)
    {
      ok := *;
      if ok {
        slices := slices - {k};
      }
    }

    /** A call that concerns no endpoint slice. */
    method Other() returns (ok: bool)
    {
      ok := *;
    }
  }

  datatype ServicePort = ServicePort(port: int, targetPort: int)

  /** The first target port behind `port`; zero when there is none. */
  function TargetOf(ports: seq<ServicePort>, port: int): (target: int)
    ensures (exists i | 0 <= i < |ports| ::
               && ports[i].port == port && target == ports[i].targetPort
               && forall j | 0 <= j < i :: ports[j].port != port)
            || (target == 0 && forall i | 0 <= i < |ports| :: ports[i].port != port)
  {
    if ports == [] then 0 else if ports[0].port == port then ports[0].targetPort else TargetOf(ports[1..], port)
  }

  method FindTarget(ports: seq<ServicePort>, port: int) returns (target: int)
    ensures target == TargetOf(ports, port)
  {
    target := 0;
    for i := 0 to |ports|
      invariant TargetOf(ports, port) == TargetOf(ports[i..], port)
    {
      assert ports[i..][1..] == ports[i + 1..];
      if ports[i].port == port {
        return ports[i].targetPort;
      }
    }
  }

  function KeySet(ks: seq<SliceKey>): set<SliceKey> { set k | k in ks }

  class Configurer {
    const api: ApiServer
    var registry: LocalServices.Registry
    var initial: map<Service, seq<SliceKey>>
    var stopChans: map<Service, nat>

    constructor (api: ApiServer)
      ensures this.api == api && registry == map[] && initial == map[] && stopChans == map[]
    {
      this.api := api;
      registry, initial, stopChans := map[], map[], map[];
    }

    /** The slices remembered for a service. */
    function Initial(svc: Service): seq<SliceKey>
      reads this
    {
      if svc in initial then initial[svc] else []
    }

    method Remember(svc: Service, k: SliceKey)
      modifies this`initial
      ensures KeySet(Initial(svc)) == KeySet(old(Initial(svc))) + {k}
      ensures forall other | other != svc :: Initial(other) == old(Initial(other))
    {
      initial := initial[svc := Initial(svc) + [k]];
    }

    method TakeOverSlices(svc: Service) returns (ok: bool)
      modifies this`initial, api
      ensures ok ==> api.slices == TakeOver(old(api.slices), svc)
      ensures PartlyConfigured(old(api.slices), api.slices, svc) && api.slices.Keys == old(api.slices).Keys
      ensures ok ==> KeySet(Initial(svc)) == KeySet(old(Initial(svc))) + ToTake(old(api.slices), svc)
    {
      ghost var m, past := api.slices, KeySet(Initial(svc));
      var items;
      ok, items := api.List(svc);
      if !ok {
        return;
      }
      if svc !in initial {
        initial := initial[svc := []];
      }
      ghost var done: set<SliceKey> := {};
      for i := 0 to |items|
        invariant done == ToTake(m, svc) * KeysOf(items[..i])
        invariant api.slices == EditAll(m, done, Seize(svc))
        invariant KeySet(Initial(svc)) == past + done
      {
        var item := items[i];
        ItemIsNew(items, i);
        assert item in items && item.key in SlicesOf(m, svc);
        if LabelOf(item.slice, MANAGED_BY) == OPERATOR {
          assert item.key !in ToTake(m, svc);
          continue;
        }
        Remember(svc, item.key);
        EditOne(m, done, Seize(svc), item.key);
        PartlyTaken(m, done, svc);
        ok := api.Put(item.key, Edited(item.slice, Seize(svc)), false);
        if !ok {
          return;
        }
        done := done + {item.key};
      }
      PartlyTaken(m, done, svc);
      assert items[..|items|] == items;
      assert done == ToTake(m, svc);
    }

    method CreateMirror(svc: Service, target: int) returns (ok: bool, source: Source)
      modifies this`stopChans, api
      ensures source.target == target
      ensures ok ==> api.slices == AddMirror(old(api.slices), svc, source)
      ensures ok ==> OnlySlice(old(api.slices), LocalServices.BeamlitService(svc), source.slice)
      ensures stopChans.Keys == old(stopChans).Keys + if ok then {svc} else {}
      ensures !ok ==> api.slices == old(api.slices)
    {
      source := Source(Slice(map[], "", [], []), target);
      var items;
      ok, items := api.List(LocalServices.BeamlitService(svc));
      if !ok {
        return;
      }
      if |items| != 1 {
        return false, source;
      }
      assert KeysOf(items) == {items[0].key} by { assert items == [items[0]]; }
      source := Source(items[0].slice, target);
      var ports := CopyPorts(source.slice.ports, target);
      assert ports == MirroredPorts(source);
      var k := MirrorKey(svc);
      var labels := (if k in api.slices then api.slices[k].labels else map[]) + MirrorLabels(svc);
      ok := api.Put(k, Slice(labels, source.slice.addressType, source.slice.endpoints, ports), true);
      if ok {
        stopChans := stopChans[svc := (if svc in stopChans then stopChans[svc] else 0) + 1];
      }
    }

    method CleanSlices(svc: Service) returns (ok: bool)
      modifies api
      ensures ok ==> api.slices == Clean(old(api.slices), svc)
      ensures forall m | PartlyConfigured(m, old(api.slices), svc) :: PartlyConfigured(m, api.slices, svc)
    {
      ghost var m := api.slices;
      var items;
      ok, items := api.List(svc);
      if !ok {
        return;
      }
      ghost var done: set<SliceKey> := {};
      ghost var seen: set<SliceKey> := {};
      for i := 0 to |items|
        invariant seen == KeysOf(items[..i])
        invariant done == seen - {MirrorKey(svc)}
        invariant api.slices == EditAll(m, done, Empty) && done <= SlicesOf(m, svc)
        invariant forall n | PartlyConfigured(n, m, svc) :: PartlyConfigured(n, api.slices, svc)
      {
        var item := items[i];
        ItemIsNew(items, i);
        seen := seen + {item.key};
        if item.key == MirrorKey(svc) {
          continue;
        }
        EditOne(m, done, Empty, item.key);
        ok := api.Put(item.key, Edited(item.slice, Empty), false);
        if !ok {
          return;
        }
        assert item in items;
        done := done + {item.key};
        forall n | PartlyConfigured(n, m, svc) ensures PartlyConfigured(n, api.slices, svc) {
          PartlyCleaned(n, m, done, svc);
        }
      }
      assert items[..|items|] == items;
    }

    /** The mirror is made, all other slices of the service are emptied, and the service is watched. */
    method ShowMirror(svc: Service, target: int) returns (ok: bool, source: Source)
      modifies this`stopChans, api
      ensures source.target == target
      ensures ok ==> api.slices == Clean(AddMirror(old(api.slices), svc, source), svc)
      ensures ok ==> OnlySlice(old(api.slices), LocalServices.BeamlitService(svc), source.slice)
      ensures forall m | PartlyConfigured(m, old(api.slices), svc) :: PartlyConfigured(m, api.slices, svc)
      ensures svc in stopChans || api.slices == old(api.slices)
      ensures if ok then stopChans.Keys == old(stopChans).Keys + {svc}
              else stopChans.Keys == old(stopChans).Keys || stopChans.Keys == old(stopChans).Keys + {svc}
    {
      ghost var taken := api.slices;
      ok, source := CreateMirror(svc, target);
      if !ok {
        return;
      }
      forall m | PartlyConfigured(m, taken, svc) ensures PartlyConfigured(m, api.slices, svc) {
        PartlyMirrored(m, taken, svc, source);
      }
      ok := CleanSlices(svc);
      if ok {
        stopChans := stopChans[svc := stopChans[svc] + 1];
      }
    }

    /** `ports` is what the API server reports for the service beside `ref`. */
    method Configure(ref: ServiceRef, ports: seq<ServicePort>) returns (ok: bool, source: Source)
      modifies this, api
      ensures LocalServices.Configured(
                old(registry), old(stopChans).Keys, ref.service, ok, registry, stopChans.Keys)
      ensures ok ==> api.slices == Configured(old(api.slices), ref.service, source)
      ensures PartlyConfigured(old(api.slices), api.slices, ref.service)
      ensures api.slices != old(api.slices) ==> ref.service in registry
      ensures ref.service in stopChans || api.slices.Keys == old(api.slices).Keys
      ensures ok ==> source.target == TargetOf(ports, ref.port) != 0
      ensures ok ==> OnlySlice(old(api.slices), LocalServices.BeamlitService(ref.service), source.slice)
      ensures ok ==>
                && MirrorKey(ref.service) in api.slices
                && Mirrors(api.slices[MirrorKey(ref.service)], ref.service, source.slice, source.target)
      ensures ok ==> KeySet(Initial(ref.service)) ==
                     KeySet(old(Initial(ref.service))) + ToTake(old(api.slices), ref.service)
    {
      var svc := ref.service;
      source := Source(Slice(map[], "", [], []), 0);
      ok := api.Other();
      if !ok {
        return;
      }
      registry := registry[svc := LocalServices.BeamlitService(svc)];
      ok := api.Other();
      if !ok {
        return;
      }
      ok := TakeOverSlices(svc);
      if !ok {
        return;
      }
      var target := FindTarget(ports, ref.port);
      if target == 0 {
        return false, source;
      }
      ok, source := ShowMirror(svc, target);
      if ok {
        BesideUntouched(old(api.slices), svc, source.slice);
        ConfiguredMirror(old(api.slices), svc, source);
      }
    }

    method HandBackSlices(svc: Service) returns (ok: bool)
      modifies api
      ensures ok ==> KeySet(Initial(svc)) <= old(api.slices).Keys
      ensures ok ==> api.slices == EditAll(old(api.slices), KeySet(Initial(svc)), Release)
      ensures PartlyUnconfigured(old(api.slices), api.slices, svc, KeySet(Initial(svc)))
    {
      ghost var m := api.slices;
      var ks := Initial(svc);
      ok := true;
      ghost var done: set<SliceKey> := {};
      for i := 0 to |ks|
        invariant ok && done == KeySet(ks[..i]) && done <= m.Keys && done <= KeySet(ks)
        invariant api.slices == EditAll(m, done, Release)
      {
        PartlyReleased(m, done, svc, KeySet(ks));
        var s := api.Get(ks[i]);
        if s.None? {
          return false;
        }
        ReleaseAgain(m, done, ks[i]);
        assert ks[i] in KeySet(ks);
        ok := api.Put(ks[i], Edited(s.value, Release), false);
        if !ok {
          return;
        }
        done := done + {ks[i]};
      }
      assert ks[..|ks|] == ks;
      PartlyReleased(m, done, svc, KeySet(ks));
    }

    method DeleteOperated(svc: Service) returns (ok: bool)
      modifies api
      ensures ok ==> api.slices == DropOperated(old(api.slices), svc)
      ensures PartlyDropped(old(api.slices), api.slices, svc)
    {
      ghost var m := api.slices;
      var items;
      ok, items := api.List(svc);
      if !ok {
        return;
      }
      for i := 0 to |items|
        invariant api.slices == Dropped(m, KeysOf(items[..i])) && KeysOf(items[..i]) <= SlicesOf(m, svc)
      {
        var item := items[i];
        ghost var gone := KeysOf(items[..i]);
        DroppedPartly(m, gone, svc);
        ItemIsNew(items, i);
        DropOne(m, gone, item.key);
        if LabelOf(item.slice, MANAGED_BY) == OPERATOR {
          ok := api.Delete(item.key);
          if !ok {
            return;
          }
        }
      }
      assert items[..|items|] == items;
      DroppedPartly(m, KeysOf(items), svc);
      DroppedAll(m, svc);
    }

    /** Waits for a handed-back slice to be filled again; the context ends after so many polls. The remembered slices
        are forgotten as soon as one of them is filled, and after five polls anyway. */
    method AwaitSlices(svc: Service, polls: nat) returns (ok: bool)
      modifies this`initial
      ensures forall other | other != svc :: Initial(other) == old(Initial(other))
      ensures var ks := old(Initial(svc));
              if ok && (polls >= 5 || (polls > 0 && exists k | k in ks :: Filled(api.slices, k)))
              then Initial(svc) == [] else Initial(svc) == ks
      ensures !ok ==> polls > 0 && Initial(svc) != []
    {
      var retry := 0;
      while retry < 5
        invariant retry <= 5 && retry <= polls && initial == old(initial)
        invariant retry > 0 ==> forall k | k in Initial(svc) :: !Filled(api.slices, k)
      {
        if retry == polls || Initial(svc) == [] {
          return true;
        }
        var ks := Initial(svc);
        for i := 0 to |ks|
          invariant initial == old(initial)
          invariant forall j | 0 <= j < i :: !Filled(api.slices, ks[j])
        {
          var s := api.Get(ks[i]);
          if s.None? {
            return false;
          }
          if LabelOf(s.value, MANAGED_BY) == KUBERNETES && |s.value.endpoints| > 0 {
            assert ks[i] in ks;
            initial := initial - {svc};
            return true;
          }
        }
        retry := retry + 1;
      }
      initial := initial - {svc};
      return true;
    }

    method Unconfigure(svc: Service, polls: nat) returns (ok: bool)
      modifies this, api
      ensures LocalServices.Unconfigured(old(registry), old(stopChans).Keys, svc, ok, registry, stopChans.Keys)
      ensures svc !in old(registry) ==> ok && api.slices == old(api.slices) && initial == old(initial)
      ensures ok && svc in old(registry) ==>
                && KeySet(old(Initial(svc))) <= old(api.slices).Keys
                && api.slices == Unconfigured(old(api.slices), svc, KeySet(old(Initial(svc))))
      ensures registry != old(registry) ==>
                api.slices == Unconfigured(old(api.slices), svc, KeySet(old(Initial(svc))))
      ensures PartlyUnconfigured(old(api.slices), api.slices, svc, KeySet(old(Initial(svc))))
      ensures stopChans == old(stopChans)
      ensures svc in old(registry) && svc !in stopChans ==>
                !ok && registry == old(registry) && api.slices == old(api.slices) && initial == old(initial)
      ensures forall other | other != svc :: Initial(other) == old(Initial(other))
      ensures Initial(svc) == old(Initial(svc)) || Initial(svc) == []
      ensures ok && svc in old(registry) && polls >= 5 ==> Initial(svc) == []
    {
      if svc !in registry {
        return true;
      }
      if svc !in stopChans {
        return false;
      }
      ok := HandBackSlices(svc);
      if !ok {
        return;
      }
      ok := DeleteOperated(svc);
      ReleasedThenDropped(old(api.slices), api.slices, svc, KeySet(Initial(svc)));
      if !ok {
        return;
      }
      registry := registry - {svc};
      ok := api.Other();
      if !ok {
        return;
      }
      ok := api.Other();
      if !ok {
        return;
      }
      ok := AwaitSlices(svc, polls);
    }
  }

  /** The service has exactly one slice, and this is it. */
  ghost predicate OnlySlice(m: Slices, svc: Service, s: Slice) {
    exists k :: k in m && SlicesOf(m, svc) == {k} && s == m[k]
  }

  /** Taking a service over leaves the slices of the service beside it alone. */
  lemma BesideUntouched(m: Slices, svc: Service, s: Slice)
    requires OnlySlice(TakeOver(m, svc), LocalServices.BeamlitService(svc), s)
    ensures OnlySlice(m, LocalServices.BeamlitService(svc), s)
  {
    var beside := LocalServices.BeamlitService(svc);
    assert |beside.name| > |svc.name|;
    assert SlicesOf(TakeOver(m, svc), beside) == SlicesOf(m, beside);
    var k :| k in m && SlicesOf(TakeOver(m, svc), beside) == {k} && s == TakeOver(m, svc)[k];
    assert k in SlicesOf(m, beside) && k !in ToTake(m, svc);
  }

  lemma DroppedPartly(m: Slices, ks: set<SliceKey>, svc: Service)
    requires ks <= SlicesOf(m, svc)
    ensures PartlyDropped(m, Dropped(m, ks), svc)
  {
  }

  lemma ItemIsNew(items: seq<Item>, i: nat)
    requires i < |items| && forall i, j | 0 <= i < j < |items| :: items[i].key != items[j].key
    ensures items[i].key !in KeysOf(items[..i])
    ensures KeysOf(items[..i + 1]) == KeysOf(items[..i]) + {items[i].key}
  {
  }

  /** Handing a slice back twice is handing it back once. */
  lemma ReleaseAgain(m: Slices, ks: set<SliceKey>, k: SliceKey)
    requires k in m
    ensures var s := EditAll(m, ks, Release)[k];
            EditAll(m, ks, Release)[k := Edited(s, Release)] == EditAll(m, ks + {k}, Release)
  {
    var l := m[k].labels;
    assert l[MANAGED_BY := KUBERNETES][MANAGED_BY := KUBERNETES] == l[MANAGED_BY := KUBERNETES];
    assert Edited(Edited(m[k], Release), Release) == Edited(m[k], Release);
  }

  /** The slices without the operator-managed ones among `ks`. */
  function Dropped(m: Slices, ks: set<SliceKey>): (r: Slices)
    ensures forall k :: k in r <==> k in m && !(k in ks && Operated(m[k]))
    ensures forall k | k in r :: r[k] == m[k]
  {
    map k | k in m && !(k in ks && Operated(m[k])) :: m[k]
  }

  lemma DropOne(m: Slices, ks: set<SliceKey>, k: SliceKey)
    requires k in m
    ensures Dropped(m, ks + {k}) == if Operated(m[k]) then Dropped(m, ks) - {k} else Dropped(m, ks)
  {
  }

  lemma DroppedAll(m: Slices, svc: Service)
    ensures Dropped(m, SlicesOf(m, svc)) == DropOperated(m, svc)
  {
  }

  lemma RoundTripOf(m: Slices, held: Slices, r: Slices, svc: Service, source: Source, past: set<SliceKey>)
    requires Pristine(m, svc) && past <= SlicesOf(m, svc)
    requires held == Configured(m, svc, source) && r == Unconfigured(held, svc, past + ToTake(m, svc))
    ensures AllRestored(m, r, svc) && Pristine(r, svc)
    ensures past + ToTake(m, svc) <= SlicesOf(r, svc)
  {
    RoundTrip(m, svc, source, past + ToTake(m, svc));
    SameSlicesOf(m, r, svc);
  }

  /** The methods compose to the round trip: a successful configuration of pristine slices, then a successful undoing,
      whatever the source of the mirror was, and with any slices still remembered from before. */
  method ConfigureThenUnconfigure(c: Configurer, ref: ServiceRef, ports: seq<ServicePort>, polls: nat)
    returns (ok: bool)
    requires Pristine(c.api.slices, ref.service)
    requires KeySet(c.Initial(ref.service)) <= SlicesOf(c.api.slices, ref.service)
    modifies c, c.api
    ensures ok ==>
              && AllRestored(old(c.api.slices), c.api.slices, ref.service) && Pristine(c.api.slices, ref.service)
              && KeySet(c.Initial(ref.service)) <= SlicesOf(c.api.slices, ref.service)
              && ref.service !in c.registry
  {
    ghost var m, past := c.api.slices, KeySet(c.Initial(ref.service));
    var source;
    ok, source := c.Configure(ref, ports);
    if !ok {
      return;
    }
    ghost var held := c.api.slices;
    ok := c.Unconfigure(ref.service, polls);
    if ok {
      RoundTripOf(m, held, c.api.slices, ref.service, source, past);
    }
  }

  /** Any number of cycles of the two methods, with slices refilled before each, ends with the slices it began with,
      none operator-managed, whether or not earlier cycles stopped waiting before their slices were full. */
  method ManyTimes(
    c: Configurer, ref: ServiceRef, ports: seq<ServicePort>, refills: seq<Slices>, polls: seq<nat>)
    returns (ok: bool)
    requires refills != [] && |polls| == |refills| && Pristine(c.api.slices, ref.service)
    requires KeySet(c.Initial(ref.service)) <= SlicesOf(c.api.slices, ref.service)
    modifies c, c.api
    ensures ok ==>
              && SameUpToContents(old(c.api.slices), c.api.slices, ref.service)
              && Pristine(c.api.slices, ref.service) && ref.service !in c.registry
  {
    ghost var m, svc := c.api.slices, ref.service;
    ok := true;
    for i := 0 to |refills|
      invariant ok && Pristine(c.api.slices, svc) && KeySet(c.Initial(svc)) <= SlicesOf(c.api.slices, svc)
      invariant if i == 0 then c.api.slices == m else SameUpToContents(m, c.api.slices, svc) && svc !in c.registry
    {
      ghost var prev := c.api.slices;
      c.api.slices := Refill(c.api.slices, ref.service, refills[i]);
      ghost var before := c.api.slices;
      RefilledPristine(prev, before, svc);
      SameSlicesOf(prev, before, svc);
      ok := ConfigureThenUnconfigure(c, ref, ports, polls[i]);
      if !ok {
        return;
      }
      if i == 0 {
        SameFirst(m, before, c.api.slices, svc);
      } else {
        SameAgain(m, prev, before, c.api.slices, svc);
      }
    }
  }
}

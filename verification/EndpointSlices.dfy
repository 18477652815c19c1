/** Taking a service's endpoint slices over and handing them back, as transformations of the stored slices. */
module EndpointSlices {
  import opened Common
  import opened Deployments
  import opened MirrorPorts
  import Selections

  datatype SliceKey = SliceKey(namespace: string, name: string)

  datatype Endpoint = Endpoint(
    addresses: seq<string>, hostname: Option<string>, nodeName: Option<string>,
    ready: bool, serving: bool, terminating: bool)

  datatype Slice = Slice(
    labels: map<string, string>, addressType: string, endpoints: seq<Endpoint>, ports: seq<Port>)

  type Slices = map<SliceKey, Slice>

  const MANAGED_BY := "endpointslice.kubernetes.io/managed-by"
  const SERVICE_NAME := "kubernetes.io/service-name"
  const TO_UPDATE := "beamlit.com/to-update"
  const OPERATOR := "beamlit-operator"
  const KUBERNETES := "endpointslice-controller.k8s.io"

  function LabelOf(s: Slice, l: string): string { if l in s.labels then s.labels[l] else "" }

  /** The slice belongs to service `svc`: what a list by the service-name label selects. */
  predicate Of(k: SliceKey, s: Slice, svc: Service) {
    k.namespace == svc.namespace && SERVICE_NAME in s.labels && s.labels[SERVICE_NAME] == svc.name
  }

  predicate Operated(s: Slice) { LabelOf(s, MANAGED_BY) == OPERATOR }

  predicate Native(s: Slice) { LabelOf(s, MANAGED_BY) == KUBERNETES }

  /** The slices of a service. */
  function SlicesOf(m: Slices, svc: Service): set<SliceKey> { set k | k in m && Of(k, m[k], svc) }

  /** An edit of one slice: taken over, emptied, or handed back. */
  datatype Edit = Seize(svc: Service) | Empty | Release

  function Edited(s: Slice, e: Edit): Slice {
    match e
    case Seize(svc) => s.(labels := s.labels[MANAGED_BY := OPERATOR][SERVICE_NAME := svc.name])
    case Empty => Slice(s.labels[MANAGED_BY := OPERATOR], s.addressType, [], [])
    case Release => s.(labels := s.labels[MANAGED_BY := KUBERNETES])
  }

  /** The slices after those of `ks` have been edited. */
  function EditAll(m: Slices, ks: set<SliceKey>, e: Edit): (r: Slices)
    ensures r.Keys == m.Keys
    ensures forall k | k in m :: r[k] == if k in ks then Edited(m[k], e) else m[k]
  {
    map k | k in m :: if k in ks then Edited(m[k], e) else m[k]
  }

  lemma EditOne(m: Slices, ks: set<SliceKey>, e: Edit, k: SliceKey)
    requires k in m && k !in ks
    ensures EditAll(m, ks, e)[k := Edited(m[k], e)] == EditAll(m, ks + {k}, e)
  {
  }

  // ----- configuring -----

  /** The slices of the service that the operator does not manage yet. */
  function ToTake(m: Slices, svc: Service): set<SliceKey> {
    set k | k in m && Of(k, m[k], svc) && !Operated(m[k])
  }

  function TakeOver(m: Slices, svc: Service): Slices { EditAll(m, ToTake(m, svc), Seize(svc)) }

  function MirrorKey(svc: Service): SliceKey { SliceKey(svc.namespace, svc.name + "-beamlit-mirrored") }

  function MirrorLabels(svc: Service): map<string, string> {
    map[TO_UPDATE := "true", SERVICE_NAME := svc.name, MANAGED_BY := OPERATOR]
  }

  /** What the mirror shows: the slice of the service beside, without the offloaded port. */
  datatype Source = Source(slice: Slice, target: int)

  function MirroredPorts(s: Source): seq<Port> {
    var ps := WithoutPort(s.slice.ports, s.target);
    seq(|ps|, i requires 0 <= i < |ps| => ps[i].(appProtocol := None))
  }

  /** A forced apply: labels are merged, the rest is replaced. */
  function AddMirror(m: Slices, svc: Service, s: Source): Slices {
    var k := MirrorKey(svc);
    var before := if k in m then m[k].labels else map[];
    m[k := Slice(before + MirrorLabels(svc), s.slice.addressType, s.slice.endpoints, MirroredPorts(s))]
  }

  /** All slices of the service but the mirror are emptied. */
  function Clean(m: Slices, svc: Service): Slices { EditAll(m, SlicesOf(m, svc) - {MirrorKey(svc)}, Empty) }

  function Configured(m: Slices, svc: Service, s: Source): Slices {
    Clean(AddMirror(TakeOver(m, svc), svc, s), svc)
  }

  /** The mirror shows the endpoints of `source`, and exactly those of its ports whose number is not the target, in
      order and without application protocol; its labels name the service and the operator, and mark it as to be kept
      up to date. */
  ghost predicate Mirrors(mirror: Slice, svc: Service, source: Slice, target: int) {
    && mirror.endpoints == source.endpoints && mirror.addressType == source.addressType
    && LabelOf(mirror, "kubernetes.io/service-name") == svc.name
    && LabelOf(mirror, "endpointslice.kubernetes.io/managed-by") == "beamlit-operator"
    && LabelOf(mirror, "beamlit.com/to-update") == "true"
    && var ps := source.ports;
    exists ks: seq<nat> ::
         && Selections.Lists(ks, |ps|, (k: nat) => k < |ps| && ps[k].number != Some(target))
         && |mirror.ports| == |ks|
         && forall i | 0 <= i < |ks| ::
              var p := ps[ks[i]]; mirror.ports[i] == Port(p.name, p.number, p.protocol, None)
  }

  lemma AddedMirror(m: Slices, svc: Service, s: Source)
    ensures var k := MirrorKey(svc); var r := AddMirror(m, svc, s)[k];
            && Mirrors(r, svc, s.slice, s.target)
            && (forall l | l !in {"kubernetes.io/service-name", "endpointslice.kubernetes.io/managed-by",
                                  "beamlit.com/to-update"} ::
                  (l in r.labels <==> k in m && l in m[k].labels) && (l in r.labels ==> r.labels[l] == m[k].labels[l]))
  {
    var ks := WithoutPortSelects(s.slice.ports, s.target);
  }

  /** A configured service has a mirror of the service beside it. */
  lemma ConfiguredMirror(m: Slices, svc: Service, s: Source)
    ensures var r := Configured(m, svc, s);
            MirrorKey(svc) in r && Mirrors(r[MirrorKey(svc)], svc, s.slice, s.target)
  {
    AddedMirror(TakeOver(m, svc), svc, s);
  }

  /** How far a configuration of `svc` can get before it fails: apart from the mirror, each slice of the service is as
      it was, relabelled, or relabelled and emptied, and all others are untouched. */
  ghost predicate PartlyConfigured(m: Slices, r: Slices, svc: Service) {
    forall k | k != MirrorKey(svc) ::
      && (k in r <==> k in m)
      && (k in m ==>
            || r[k] == m[k]
            || (Of(k, m[k], svc) && (r[k] == Edited(m[k], Seize(svc)) || r[k] == Held(m[k]))))
  }

  lemma PartlyTaken(m: Slices, done: set<SliceKey>, svc: Service)
    requires done <= ToTake(m, svc)
    ensures PartlyConfigured(m, EditAll(m, done, Seize(svc)), svc)
  {
  }

  lemma PartlyMirrored(m: Slices, r: Slices, svc: Service, s: Source)
    requires PartlyConfigured(m, r, svc)
    ensures PartlyConfigured(m, AddMirror(r, svc, s), svc)
  {
  }

  lemma PartlyCleaned(m: Slices, r: Slices, done: set<SliceKey>, svc: Service)
    requires PartlyConfigured(m, r, svc) && done <= SlicesOf(r, svc) - {MirrorKey(svc)}
    ensures PartlyConfigured(m, EditAll(r, done, Empty), svc)
  {
  }

  // ----- unconfiguring -----

  function DropOperated(m: Slices, svc: Service): (r: Slices)
    ensures forall k :: k in r <==> k in m && !(Of(k, m[k], svc) && Operated(m[k]))
    ensures forall k | k in r :: r[k] == m[k]
  {
    map k | k in m && !(Of(k, m[k], svc) && Operated(m[k])) :: m[k]
  }

  /** The remembered slices `ks` are handed back, then whatever the operator still manages is deleted. */
  function Unconfigured(m: Slices, svc: Service, ks: set<SliceKey>): Slices {
    DropOperated(EditAll(m, ks, Release), svc)
  }

  /** How far undoing can get before it fails: each remembered slice may have been handed back, some slices of the
      service that the operator manages and that are not remembered may be gone, and all others are untouched. */
  ghost predicate PartlyUnconfigured(m: Slices, r: Slices, svc: Service, ks: set<SliceKey>) {
    && (forall k | k in r :: k in m && (r[k] == m[k] || (k in ks && r[k] == Edited(m[k], Release))))
    && (forall k | k in m && k !in r :: Of(k, m[k], svc) && Operated(m[k]) && k !in ks)
  }

  /** Only operator-managed slices of the service are gone. */
  ghost predicate PartlyDropped(m: Slices, r: Slices, svc: Service) {
    && (forall k | k in r :: k in m && r[k] == m[k])
    && (forall k | k in m && k !in r :: Of(k, m[k], svc) && Operated(m[k]))
  }

  lemma PartlyReleased(m: Slices, done: set<SliceKey>, svc: Service, ks: set<SliceKey>)
    requires done <= ks
    ensures PartlyUnconfigured(m, EditAll(m, done, Release), svc, ks)
  {
  }

  lemma ReleasedThenDropped(m: Slices, r: Slices, svc: Service, ks: set<SliceKey>)
    requires ks <= m.Keys && PartlyDropped(EditAll(m, ks, Release), r, svc)
    ensures PartlyUnconfigured(m, r, svc, ks)
  {
  }

  /** The slice has been handed back and filled again. */
  predicate Filled(m: Slices, k: SliceKey) { k in m && Native(m[k]) && m[k].endpoints != [] }

  /** One configuration followed by its undoing. */
  function Cycle(m: Slices, svc: Service, s: Source, ks: set<SliceKey>): Slices {
    Unconfigured(Configured(m, svc, s), svc, ks)
  }

  // ----- the round trip -----

  /** A slice of the service, as it comes out of a cycle. */
  function Restored(s: Slice): Slice { Slice(s.labels[MANAGED_BY := KUBERNETES], s.addressType, [], []) }

  /** A slice of the service while it is taken over. */
  function Held(s: Slice): Slice { Slice(s.labels[MANAGED_BY := OPERATOR], s.addressType, [], []) }

  /** What configuring makes of a slice that is not the mirror. */
  lemma ConfiguredElsewhere(m: Slices, svc: Service, s: Source, k: SliceKey)
    requires k != MirrorKey(svc)
    ensures var r := Configured(m, svc, s);
            && (k in r <==> k in m)
            && (k in m ==> r[k] == if Of(k, m[k], svc) then Held(m[k]) else m[k])
  {
  }

  lemma HeldLabels(k: SliceKey, s: Slice, svc: Service)
    requires Of(k, s, svc)
    ensures Of(k, Held(s), svc) && Operated(Held(s))
    ensures var r := Edited(Held(s), Release); r == Restored(s) && Of(k, r, svc) && Native(r) && !Operated(r)
  {
  }

  /** What a cycle makes of a slice that is not the mirror. */
  lemma CycleElsewhere(m: Slices, svc: Service, s: Source, ks: set<SliceKey>, k: SliceKey)
    requires k != MirrorKey(svc)
    requires k in ks ==> k in m && Of(k, m[k], svc)
    ensures var r := Cycle(m, svc, s, ks);
            && (k !in m ==> k !in r)
            && (k in m && !Of(k, m[k], svc) ==> k in r && r[k] == m[k])
            && (k in m && Of(k, m[k], svc) ==> (k in r <==> k in ks))
            && (k in ks ==> k in r && r[k] == Restored(m[k]) && Of(k, r[k], svc) && Native(r[k]) && !Operated(r[k]))
  {
    ConfiguredElsewhere(m, svc, s, k);
    if k in m && Of(k, m[k], svc) {
      HeldLabels(k, m[k], svc);
    }
  }

  /** What a cycle makes of the mirror's name: the mirror is deleted again unless its name was remembered. */
  lemma CycleMirror(m: Slices, svc: Service, s: Source, ks: set<SliceKey>)
    ensures var r, k := Cycle(m, svc, s, ks), MirrorKey(svc);
            && (k in r <==> k in ks)
            && (k in r ==> Of(k, r[k], svc) && Native(r[k]) && !Operated(r[k]))
  {
  }

  /** None of the service's slices is operator-managed, and the mirror's name is free. */
  predicate Pristine(m: Slices, svc: Service) {
    MirrorKey(svc) !in m && forall k | k in m && Of(k, m[k], svc) :: !Operated(m[k])
  }

  /** The remembered slices: at least those taken over, at most those of the service. */
  predicate Remembered(m: Slices, svc: Service, ks: set<SliceKey>) {
    ToTake(m, svc) <= ks && ks <= SlicesOf(m, svc)
  }

  /** Every slice of the service is handed back, emptied, and all other slices are as they were. */
  predicate AllRestored(m: Slices, r: Slices, svc: Service) {
    && r.Keys == m.Keys
    && forall k | k in m :: r[k] == if Of(k, m[k], svc) then Restored(m[k]) else m[k]
  }

  /** On pristine slices a cycle hands every slice of the service back, emptied, deletes the mirror, and leaves all
      other slices as they are. */
  lemma RoundTrip(m: Slices, svc: Service, s: Source, ks: set<SliceKey>)
    requires Pristine(m, svc) && Remembered(m, svc, ks)
    ensures var r := Cycle(m, svc, s, ks); AllRestored(m, r, svc) && Pristine(r, svc)
  {
    var r := Cycle(m, svc, s, ks);
    CycleMirror(m, svc, s, ks);
    forall k
      ensures k in r <==> k in m
      ensures k in m ==> r[k] == if Of(k, m[k], svc) then Restored(m[k]) else m[k]
      ensures k in m && Of(k, r[k], svc) ==> !Operated(r[k])
    {
      if k != MirrorKey(svc) {
        CycleElsewhere(m, svc, s, ks, k);
      }
    }
  }

  /** Under name `k`, a slice of the service is handed back and any other thing is as it was. */
  predicate BackAt(m: Slices, r: Slices, svc: Service, k: SliceKey) {
    && (k in r <==> k in m)
    && (k in m ==>
          if Of(k, m[k], svc) then Of(k, r[k], svc) && Native(r[k]) && !Operated(r[k]) else r[k] == m[k])
  }

  /** The slice under name `k` stands in the way of the round trip. */
  predicate Obstructs(m: Slices, svc: Service, k: SliceKey) {
    && k in m
    && if k == MirrorKey(svc) then !Of(k, m[k], svc) || Operated(m[k]) else Of(k, m[k], svc) && Operated(m[k])
  }

  lemma BackExactly(m: Slices, svc: Service, s: Source, k: SliceKey)
    ensures BackAt(m, Cycle(m, svc, s, ToTake(m, svc)), svc, k) <==> !Obstructs(m, svc, k)
  {
    if k == MirrorKey(svc) {
      CycleMirror(m, svc, s, ToTake(m, svc));
    } else {
      CycleElsewhere(m, svc, s, ToTake(m, svc), k);
    }
  }

  /** A cycle that remembers exactly what it took hands everything back if and only if none of the service's
      slices was operator-managed beforehand and the mirror's name was free or belonged to the service. */
  lemma RoundTripExact(m: Slices, svc: Service, s: Source)
    ensures (forall k :: BackAt(m, Cycle(m, svc, s, ToTake(m, svc)), svc, k)) <==>
            && (forall k | k in m && Of(k, m[k], svc) :: !Operated(m[k]))
            && (MirrorKey(svc) in m ==> Of(MirrorKey(svc), m[MirrorKey(svc)], svc))
  {
    forall k ensures BackAt(m, Cycle(m, svc, s, ToTake(m, svc)), svc, k) <==> !Obstructs(m, svc, k) {
      BackExactly(m, svc, s, k);
    }
    Unobstructed(m, svc);
  }

  lemma Unobstructed(m: Slices, svc: Service)
    ensures (forall k :: !Obstructs(m, svc, k)) <==>
            && (forall k | k in m && Of(k, m[k], svc) :: !Operated(m[k]))
            && (MirrorKey(svc) in m ==> Of(MirrorKey(svc), m[MirrorKey(svc)], svc))
  {
    if forall k :: !Obstructs(m, svc, k) {
      forall k | k in m && Of(k, m[k], svc) ensures !Operated(m[k]) { assert !Obstructs(m, svc, k); }
      assert !Obstructs(m, svc, MirrorKey(svc));
    }
  }

  // ----- many cycles -----

  /** Between cycles the Kubernetes controller may fill the service's slices again. */
  predicate Refilled(m: Slices, m': Slices, svc: Service) {
    && m'.Keys == m.Keys
    && forall k | k in m :: m'[k].labels == m[k].labels && (!Of(k, m[k], svc) ==> m'[k] == m[k])
  }

  /** New contents for slices of the service, as the Kubernetes controller writes them. */
  function Refill(m: Slices, svc: Service, contents: Slices): (r: Slices)
    ensures Refilled(m, r, svc)
  {
    map k | k in m :: if Of(k, m[k], svc) && k in contents then contents[k].(labels := m[k].labels) else m[k]
  }

  /** One cycle of a history: the slices it starts from, the mirror's source, and what it remembers. */
  datatype Round = Round(before: Slices, source: Source, remembered: set<SliceKey>)

  function AfterRound(r: Round, svc: Service): Slices { Cycle(r.before, svc, r.source, r.remembered) }

  /** The rounds follow one another from `m`. */
  predicate Chained(m: Slices, svc: Service, rounds: seq<Round>) {
    && (rounds != [] ==> Refilled(m, rounds[0].before, svc))
    && (forall i | 0 <= i < |rounds| :: Remembered(rounds[i].before, svc, rounds[i].remembered))
    && forall i | 0 < i < |rounds| :: Refilled(AfterRound(rounds[i - 1], svc), rounds[i].before, svc)
  }

  /** The slices are those of `m`, up to the contents of the service's and to their manager, which is Kubernetes. */
  predicate SameUpToContents(m: Slices, r: Slices, svc: Service) {
    && r.Keys == m.Keys
    && forall k | k in m ::
         if Of(k, m[k], svc) then r[k].labels == m[k].labels[MANAGED_BY := KUBERNETES] else r[k] == m[k]
  }

  lemma RefilledPristine(m: Slices, m': Slices, svc: Service)
    requires Pristine(m, svc) && Refilled(m, m', svc)
    ensures Pristine(m', svc)
  {
  }

  /** Any number of cycles, with slices refilled in between, ends with the slices it began with: the same set, the
      service's handed back with their other labels intact, none operator-managed, all others untouched. */
  lemma {:induction false} ManyCycles(m: Slices, svc: Service, rounds: seq<Round>)
    requires Pristine(m, svc) && rounds != [] && Chained(m, svc, rounds)
    ensures var r := AfterRound(rounds[|rounds| - 1], svc); SameUpToContents(m, r, svc) && Pristine(r, svc)
  {
    var n := |rounds| - 1;
    var last := rounds[n];
    if n == 0 {
      RefilledPristine(m, last.before, svc);
      RoundTrip(last.before, svc, last.source, last.remembered);
    } else {
      ManyCycles(m, svc, rounds[..n]);
      var prev := AfterRound(rounds[n - 1], svc);
      RefilledPristine(prev, last.before, svc);
      RoundTrip(last.before, svc, last.source, last.remembered);
      SameAgain(m, prev, last.before, AfterRound(last, svc), svc);
    }
  }

  lemma SameFirst(m: Slices, before: Slices, r: Slices, svc: Service)
    requires Refilled(m, before, svc) && AllRestored(before, r, svc)
    ensures SameUpToContents(m, r, svc)
  {
  }

  lemma SameSlicesOf(m: Slices, r: Slices, svc: Service)
    requires Refilled(m, r, svc) || AllRestored(m, r, svc)
    ensures SlicesOf(r, svc) == SlicesOf(m, svc)
  {
  }

  lemma SameAgain(m: Slices, prev: Slices, before: Slices, r: Slices, svc: Service)
    requires SameUpToContents(m, prev, svc) && Refilled(prev, before, svc) && AllRestored(before, r, svc)
    ensures SameUpToContents(m, r, svc)
  {
  }
}

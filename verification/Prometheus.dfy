/** The Prometheus adapter (internal/prometheus/prometheus.go). */
module Prometheus {
  import opened Types
  import opened Objects
  import opened Manifests
  import IngressBuilder

  const GVK := Gvk("monitoring.coreos.com", "v1", "Prometheus")
  const SERVICE_GVK := Gvk("", "v1", "Service")
  const FIELD_MANAGER := "prometheusinstance-operator"
  const WEB_PORT: int32 := 9090

  function GroupFields(): Fields {
    map[P1(FsGroup) := Int(2000)] + map[P1(RunAsGroup) := Int(2000)]
  }

  /** The same ids kube-prometheus-stack defaults to. */
  function SecurityFields(): Fields {
    GroupFields() + map[P1(RunAsNonRoot) := Bool(true)] + map[P1(RunAsUser) := Int(1000)]
  }

  function BaseFields(spec: CrSpec): Fields
    requires spec.PrometheusSpec?
  {
    map[P1(Replicas) := Int(spec.replicas)]
    + map[P1(ServiceMonitorSelector) := EMPTY_MAP]
    + map[P1(PodMonitorSelector) := EMPTY_MAP]
    + Under(SecurityContext, SecurityFields())
  }

  function VersionedFields(spec: CrSpec): Fields
    requires spec.PrometheusSpec?
  {
    BaseFields(spec)
    + Opt(spec.version != "", P1(VersionTag), Str(spec.version))
    + Opt(spec.retention != "", P1(Retention), Str(spec.retention))
  }

  function StorageFields(v: Option<StorageSpec>): Fields {
    if v.Some? then Under(VolumeClaimTemplate, Under(Spec, ClaimFields(v.value))) else map[]
  }

  function SpecFields(spec: CrSpec): Fields
    requires spec.PrometheusSpec?
  {
    VersionedFields(spec)
    + Under(Storage, StorageFields(spec.volume))
    + Under(Resources, ResourceFields(spec.resources))
  }

  /** The leaves of the desired Prometheus. */
  function Manifest(spec: CrSpec, owner: string): Fields
    requires spec.PrometheusSpec?
  {
    Whole(FIELD_MANAGER, owner, map[], SpecFields(spec))
  }

  method GroupsOf() returns (context: Object)
    ensures Flatten(context) == GroupFields() && !Has(context, RunAsNonRoot) && !Has(context, RunAsUser)
  {
    context := One(FsGroup, Int(2000));
    context := Set(context, RunAsGroup, Int(2000));
  }

  method SecurityContextOf() returns (context: Object)
    ensures context.Put? && Flatten(context) == SecurityFields()
  {
    context := GroupsOf();
    context := Set(context, RunAsNonRoot, Bool(true));
    context := Set(context, RunAsUser, Int(1000));
  }

  method BaseOf(spec: CrSpec) returns (promSpec: Object)
    requires spec.PrometheusSpec?
    ensures promSpec.Put? && Flatten(promSpec) == BaseFields(spec)
    ensures forall s :: Has(promSpec, s) ==>
              s == Replicas || s == ServiceMonitorSelector || s == PodMonitorSelector || s == SecurityContext
  {
    promSpec := One(Replicas, Int(spec.replicas));
    promSpec := SetEmpty(promSpec, ServiceMonitorSelector);
    promSpec := SetEmpty(promSpec, PodMonitorSelector);
    var context := SecurityContextOf();
    promSpec := SetBlock(promSpec, SecurityContext, context);
  }

  method StartOf(spec: CrSpec) returns (promSpec: Object)
    requires spec.PrometheusSpec?
    ensures promSpec.Put? && Flatten(promSpec) == BaseFields(spec)
    ensures !Has(promSpec, VersionTag) && !Has(promSpec, Retention) && !Has(promSpec, Storage)
            && !Has(promSpec, Resources)
  {
    promSpec := BaseOf(spec);
  }

  method VersionedOf(spec: CrSpec) returns (promSpec: Object)
    requires spec.PrometheusSpec?
    ensures promSpec.Put? && Flatten(promSpec) == VersionedFields(spec)
    ensures !Has(promSpec, Storage) && !Has(promSpec, Resources)
  {
    promSpec := StartOf(spec);
    promSpec := SetIf(promSpec, spec.version != "", VersionTag, Str(spec.version));
    promSpec := SetIf(promSpec, spec.retention != "", Retention, Str(spec.retention));
  }

  method StorageOf(v: Option<StorageSpec>) returns (storage: Object)
    ensures Flatten(storage) == StorageFields(v)
  {
    EmptyFlattens();
    if v.None? { return Empty; }
    var pvcSpec := ClaimOf(v.value);
    var template := OneBlock(Spec, pvcSpec);
    storage := OneBlock(VolumeClaimTemplate, template);
  }

  /** The object as the code nests it: its leaves are exactly the manifest, the two empty
      selectors included. */
  method BuildManifest(spec: CrSpec, owner: string) returns (u: Object)
    requires spec.PrometheusSpec?
    ensures Flatten(u) == Manifest(spec, owner)
  {
    var promSpec := VersionedOf(spec);
    var storage := StorageOf(spec.volume);
    promSpec := SetBlock(promSpec, Storage, storage);
    var resources := ResourcesOf(spec.resources);
    promSpec := SetBlock(promSpec, Resources, resources);
    u := NewObject(FIELD_MANAGER, owner, map[], promSpec);
  }

  function ServiceName(targetName: string): string { targetName + "-web" }
  function IngressName(targetName: string): string { targetName + "-ingress" }

  function WebPorts(): Value {
    List([Map(map["name" := Str("web"), "port" := Int(WEB_PORT), "targetPort" := Str("web")])])
  }

  function ServiceFields(targetName: string): Fields {
    map[P1(Type) := Str("ClusterIP")] + Under(Selector, map[P1(PrometheusNameLabel) := Str(targetName)])
    + map[P1(Ports) := WebPorts()]
  }

  /** The ClusterIP Service the Ingress routes to. */
  function WebService(targetName: string, owner: string): Fields {
    Whole(FIELD_MANAGER, owner, map[], ServiceFields(targetName))
  }

  /** The Service as the code nests it: its leaves are exactly the desired ones. */
  method BuildService(targetName: string, owner: string) returns (u: Object)
    ensures Flatten(u) == WebService(targetName, owner)
  {
    var selector := One(PrometheusNameLabel, Str(targetName));
    var serviceSpec := One(Type, Str("ClusterIP"));
    serviceSpec := SetBlock(serviceSpec, Selector, selector);
    serviceSpec := Set(serviceSpec, Ports, WebPorts());
    u := NewObject(FIELD_MANAGER, owner, map[], serviceSpec);
  }

  function ExtraResources(spec: CrSpec, targetName: string, owner: string): seq<Extra>
    requires spec.PrometheusSpec?
  {
    var service, ingress := ServiceName(targetName), IngressName(targetName);
    if spec.ingress.None? then
      [Extra(SERVICE_GVK, service, None), Extra(IngressBuilder.GVK, ingress, None)]
    else
      [Extra(SERVICE_GVK, service, Some(WebService(targetName, owner))),
       Extra(IngressBuilder.GVK, ingress,
             Some(IngressBuilder.Desired(spec.ingress.value, owner, FIELD_MANAGER, service, WEB_PORT)))]
  }

  function Extract(f: Fields): TargetStatus {
    var observed := ToInt32(Int64At(f, P2(Status, Replicas)));
    var ready := ToInt32(Int64At(f, P2(Status, AvailableReplicas)));
    var phase := if TrueAt(f, P2(Status, Paused)) then "Paused" else if observed > 0 then "Progressing" else "Unknown";
    TargetStatus(phase, observed > 0 && ready >= observed, observed, ready)
  }

  lemma ManifestWithoutStatus(spec: CrSpec, owner: string)
    requires spec.PrometheusSpec?
    ensures WithoutStatus(Manifest(spec, owner))
  {
    WholeWithoutStatus(FIELD_MANAGER, owner, map[], SpecFields(spec));
  }

  lemma ServiceWithoutStatus(targetName: string, owner: string)
    ensures WithoutStatus(WebService(targetName, owner))
  {
    WholeWithoutStatus(FIELD_MANAGER, owner, map[], ServiceFields(targetName));
  }

  // ---------------------------------------------------------------- leaf by leaf

  predicate SecurityLeaf(p: Path, v: Value) {
    || (p == P1(FsGroup) && v == Int(2000))
    || (p == P1(RunAsGroup) && v == Int(2000))
    || (p == P1(RunAsNonRoot) && v == Bool(true))
    || (p == P1(RunAsUser) && v == Int(1000))
  }

  predicate BaseLeaf(spec: CrSpec, p: Path, v: Value)
    requires spec.PrometheusSpec?
  {
    || (p == P1(Replicas) && v == Int(spec.replicas))
    || (p == P1(ServiceMonitorSelector) && v == Map(map[]))
    || (p == P1(PodMonitorSelector) && v == Map(map[]))
    || (p.Dot? && p.head == SecurityContext && SecurityLeaf(p.tail, v))
  }

  predicate VersionedLeaf(spec: CrSpec, p: Path, v: Value)
    requires spec.PrometheusSpec?
  {
    || BaseLeaf(spec, p, v)
    || (p == P1(VersionTag) && IsGiven(spec.version, v))
    || (p == P1(Retention) && IsGiven(spec.retention, v))
  }

  predicate StorageLeaf(c: Option<StorageSpec>, p: Path, v: Value) {
    && c.Some? && p.Dot? && p.head == VolumeClaimTemplate
    && p.tail.Dot? && p.tail.head == Spec && ClaimLeaf(c.value, p.tail.tail, v)
  }

  predicate SpecLeaf(spec: CrSpec, p: Path, v: Value)
    requires spec.PrometheusSpec?
  {
    || VersionedLeaf(spec, p, v)
    || (p.Dot? && p.head == Storage && StorageLeaf(spec.volume, p.tail, v))
    || (p.Dot? && p.head == Resources && ResourceLeaf(spec.resources, p.tail, v))
  }

  lemma SecurityLeaves(p: Path, v: Value)
    ensures LeafAt(SecurityFields(), p) == Some(v) <==> SecurityLeaf(p, v)
  {
    AtSum3(GroupFields(), map[P1(RunAsNonRoot) := Bool(true)], map[P1(RunAsUser) := Int(1000)], p);
    AtSum(map[P1(FsGroup) := Int(2000)], map[P1(RunAsGroup) := Int(2000)], p);
    AtOne(P1(FsGroup), Int(2000), p);
    AtOne(P1(RunAsGroup), Int(2000), p);
    AtOne(P1(RunAsNonRoot), Bool(true), p);
    AtOne(P1(RunAsUser), Int(1000), p);
  }

  lemma BaseLeaves(spec: CrSpec, p: Path, v: Value)
    requires spec.PrometheusSpec?
    ensures LeafAt(BaseFields(spec), p) == Some(v) <==> BaseLeaf(spec, p, v)
  {
    AtSum4(map[P1(Replicas) := Int(spec.replicas)], map[P1(ServiceMonitorSelector) := EMPTY_MAP],
           map[P1(PodMonitorSelector) := EMPTY_MAP], Under(SecurityContext, SecurityFields()), p);
    AtOne(P1(Replicas), Int(spec.replicas), p);
    AtOne(P1(ServiceMonitorSelector), EMPTY_MAP, p);
    AtOne(P1(PodMonitorSelector), EMPTY_MAP, p);
    AtUnder(SecurityContext, SecurityFields(), p);
    if p.Dot? { SecurityLeaves(p.tail, v); }
  }

  lemma BaseApart(spec: CrSpec, p: Path)
    requires spec.PrometheusSpec? && p.Dot?
    requires p.head == VersionTag || p.head == Retention || p.head == Storage || p.head == Resources
    ensures LeafAt(BaseFields(spec), p) == None
  {
    if LeafAt(BaseFields(spec), p).Some? { BaseLeaves(spec, p, LeafAt(BaseFields(spec), p).value); }
  }

  lemma VersionedLeaves(spec: CrSpec, p: Path, v: Value)
    requires spec.PrometheusSpec?
    ensures LeafAt(VersionedFields(spec), p) == Some(v) <==> VersionedLeaf(spec, p, v)
  {
    var tagged := BaseFields(spec) + Opt(spec.version != "", P1(VersionTag), Str(spec.version));
    BaseLeaves(spec, p, v);
    if p == P1(VersionTag) || p == P1(Retention) { BaseApart(spec, p); }
    AtLeaf(BaseFields(spec), spec.version != "", VersionTag, Str(spec.version), p, v, BaseLeaf(spec, p, v));
    AtLeaf(tagged, spec.retention != "", Retention, Str(spec.retention), p, v,
           BaseLeaf(spec, p, v) || (p == P1(VersionTag) && IsGiven(spec.version, v)));
  }

  lemma StorageLeaves(c: Option<StorageSpec>, p: Path, v: Value)
    ensures LeafAt(StorageFields(c), p) == Some(v) <==> StorageLeaf(c, p, v)
  {
    if c.Some? {
      AtUnder(VolumeClaimTemplate, Under(Spec, ClaimFields(c.value)), p);
      if p.Dot? {
        AtUnder(Spec, ClaimFields(c.value), p.tail);
        if p.tail.Dot? { ClaimLeaves(c.value, p.tail.tail, v); }
      }
    } else {
      LeafAtIs(map[], p);
    }
  }

  lemma VersionedApart(spec: CrSpec, p: Path)
    requires spec.PrometheusSpec? && p.Dot? && (p.head == Storage || p.head == Resources)
    ensures LeafAt(VersionedFields(spec), p) == None
  {
    BaseApart(spec, p);
    AtSum3(BaseFields(spec), Opt(spec.version != "", P1(VersionTag), Str(spec.version)),
           Opt(spec.retention != "", P1(Retention), Str(spec.retention)), p);
    AtOpt(spec.version != "", P1(VersionTag), Str(spec.version), p);
    AtOpt(spec.retention != "", P1(Retention), Str(spec.retention), p);
  }

  lemma SpecLeaves(spec: CrSpec, p: Path, v: Value)
    requires spec.PrometheusSpec?
    ensures LeafAt(SpecFields(spec), p) == Some(v) <==> SpecLeaf(spec, p, v)
  {
    var versioned, storage := VersionedFields(spec), StorageFields(spec.volume);
    var resources := ResourceFields(spec.resources);
    var inStorage := p.Dot? && StorageLeaf(spec.volume, p.tail, v);
    VersionedLeaves(spec, p, v);
    if p.Dot? {
      if p.head == Storage || p.head == Resources { VersionedApart(spec, p); }
      StorageLeaves(spec.volume, p.tail, v);
      ResourceLeaves(spec.resources, p.tail, v);
    }
    AtBlock(versioned, Storage, storage, p, v, VersionedLeaf(spec, p, v), inStorage);
    AtSum(versioned, Under(Storage, storage), p);
    AtUnder(Storage, storage, p);
    AtBlock(versioned + Under(Storage, storage), Resources, resources, p, v,
            VersionedLeaf(spec, p, v) || (p.Dot? && p.head == Storage && inStorage),
            p.Dot? && ResourceLeaf(spec.resources, p.tail, v));
  }

  /** Every leaf of the applied Prometheus: which field of the spec it carries, when it is absent,
      and that there is no other. */
  lemma ManifestLeaves(spec: CrSpec, owner: string, p: Path, v: Value)
    requires spec.PrometheusSpec?
    ensures LeafAt(Manifest(spec, owner), p) == Some(v)
            <==> ObjectLeaf("prometheusinstance-operator", owner, map[], p.Dot? && SpecLeaf(spec, p.tail, v), p, v)
  {
    if p.Dot? { SpecLeaves(spec, p.tail, v); }
    WholeLeaves(FIELD_MANAGER, owner, map[], SpecFields(spec), p.Dot? && SpecLeaf(spec, p.tail, v), p, v);
  }

  predicate ServiceLeaf(targetName: string, p: Path, v: Value) {
    || (p == P1(Type) && v == Str("ClusterIP"))
    || (p == P2(Selector, PrometheusNameLabel) && v == Str(targetName))
    || (p == P1(Ports) && v == List([Map(map["name" := Str("web"), "port" := Int(9090), "targetPort" := Str("web")])]))
  }

  lemma ServiceLeaves(targetName: string, p: Path, v: Value)
    ensures LeafAt(ServiceFields(targetName), p) == Some(v) <==> ServiceLeaf(targetName, p, v)
  {
    var selector := map[P1(PrometheusNameLabel) := Str(targetName)];
    AtSum3(map[P1(Type) := Str("ClusterIP")], Under(Selector, selector), map[P1(Ports) := WebPorts()], p);
    AtOne(P1(Type), Str("ClusterIP"), p);
    AtOne(P1(Ports), WebPorts(), p);
    AtUnder(Selector, selector, p);
    if p.Dot? { AtOne(P1(PrometheusNameLabel), Str(targetName), p.tail); }
  }

  /** Every leaf of the web Service. */
  lemma WebServiceLeaves(targetName: string, owner: string, p: Path, v: Value)
    ensures LeafAt(WebService(targetName, owner), p) == Some(v)
            <==> ObjectLeaf("prometheusinstance-operator", owner, map[],
                            p.Dot? && ServiceLeaf(targetName, p.tail, v), p, v)
  {
    if p.Dot? { ServiceLeaves(targetName, p.tail, v); }
    WholeLeaves(FIELD_MANAGER, owner, map[], ServiceFields(targetName),
                p.Dot? && ServiceLeaf(targetName, p.tail, v), p, v);
  }
}

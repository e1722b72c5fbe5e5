/** The Valkey adapter (internal/valkey/valkey.go). */
module Valkey {
  import opened Types
  import opened Objects
  import opened Manifests

  const GVK := Gvk("valkey.io", "v1alpha1", "ValkeyCluster")
  const SERVICE_GVK := Gvk("", "v1", "Service")
  const FIELD_MANAGER := "valkeycluster-operator"
  const DATA_PORT: int32 := 6379

  function BaseFields(spec: CrSpec): Fields
    requires spec.ValkeySpec?
  {
    map[P1(Shards) := Int(spec.shards)] + map[P1(Replicas) := Int(spec.replicas)]
    + Under(Persistence, VolumeFields(spec.persistence, Size, StorageClassName))
  }

  function SpecFields(spec: CrSpec): Fields
    requires spec.ValkeySpec?
  {
    BaseFields(spec) + Opt(spec.image != "", P1(Image), Str(spec.image))
    + Under(Resources, ResourceFields(spec.resources))
  }

  /** The leaves of the desired ValkeyCluster. */
  function Manifest(spec: CrSpec, owner: string): Fields
    requires spec.ValkeySpec?
  {
    Whole(FIELD_MANAGER, owner, map[], SpecFields(spec))
  }

  method BaseOf(spec: CrSpec) returns (clusterSpec: Object)
    requires spec.ValkeySpec?
    ensures clusterSpec.Put? && Flatten(clusterSpec) == BaseFields(spec)
    ensures !Has(clusterSpec, Image) && !Has(clusterSpec, Resources)
  {
    var persistence := VolumeOf(spec.persistence, Size, StorageClassName);
    clusterSpec := One(Shards, Int(spec.shards));
    clusterSpec := Set(clusterSpec, Replicas, Int(spec.replicas));
    clusterSpec := SetBlock(clusterSpec, Persistence, persistence);
  }

  /** The object as the code nests it: its leaves are exactly the manifest. */
  method BuildManifest(spec: CrSpec, owner: string) returns (u: Object)
    requires spec.ValkeySpec?
    ensures Flatten(u) == Manifest(spec, owner)
  {
    var clusterSpec := BaseOf(spec);
    clusterSpec := SetIf(clusterSpec, spec.image != "", Image, Str(spec.image));
    var resources := ResourcesOf(spec.resources);
    clusterSpec := SetBlock(clusterSpec, Resources, resources);
    u := NewObject(FIELD_MANAGER, owner, map[], clusterSpec);
  }

  function ServiceName(targetName: string): string { targetName + "-external" }

  function DataPorts(): Value {
    List([Map(map["name" := Str("valkey"), "port" := Int(DATA_PORT), "targetPort" := Int(DATA_PORT)])])
  }

  function ServiceFields(e: ExposeSpec, targetName: string): Fields {
    map[P1(Type) := Str(e.serviceType)] + Under(Selector, map[P1(ValkeyClusterLabel) := Str(targetName)])
    + map[P1(Ports) := DataPorts()]
  }

  /** The LoadBalancer or NodePort Service in front of the data port. */
  function ExternalService(e: ExposeSpec, targetName: string, owner: string): Fields {
    Whole(FIELD_MANAGER, owner, e.annotations, ServiceFields(e, targetName))
  }

  /** The Service as the code nests it: its leaves are exactly the desired ones. */
  method BuildService(e: ExposeSpec, targetName: string, owner: string) returns (u: Object)
    ensures Flatten(u) == ExternalService(e, targetName, owner)
  {
    var selector := One(ValkeyClusterLabel, Str(targetName));
    var serviceSpec := One(Type, Str(e.serviceType));
    serviceSpec := SetBlock(serviceSpec, Selector, selector);
    serviceSpec := Set(serviceSpec, Ports, DataPorts());
    u := NewObject(FIELD_MANAGER, owner, e.annotations, serviceSpec);
  }

  function ExtraResources(spec: CrSpec, targetName: string, owner: string): seq<Extra>
    requires spec.ValkeySpec?
  {
    [Extra(SERVICE_GVK, ServiceName(targetName),
           if spec.expose.Some? then Some(ExternalService(spec.expose.value, targetName, owner)) else None)]
  }

  function Extract(f: Fields): TargetStatus {
    var shards := ToInt32(Int64At(f, P2(Status, Shards)));
    var ready := ToInt32(Int64At(f, P2(Status, ReadyShards)));
    TargetStatus(OrUnknown(StringAt(f, P2(Status, StateText))), shards > 0 && ready >= shards, shards, ready)
  }

  lemma ManifestWithoutStatus(spec: CrSpec, owner: string)
    requires spec.ValkeySpec?
    ensures WithoutStatus(Manifest(spec, owner))
  {
    WholeWithoutStatus(FIELD_MANAGER, owner, map[], SpecFields(spec));
  }

  lemma ExtrasWithoutStatus(e: ExposeSpec, targetName: string, owner: string)
    ensures WithoutStatus(ExternalService(e, targetName, owner))
  {
    WholeWithoutStatus(FIELD_MANAGER, owner, e.annotations, ServiceFields(e, targetName));
  }

  // ---------------------------------------------------------------- leaf by leaf

  predicate BaseLeaf(spec: CrSpec, p: Path, v: Value)
    requires spec.ValkeySpec?
  {
    || (p == P1(Shards) && v == Int(spec.shards))
    || (p == P1(Replicas) && v == Int(spec.replicas))
    || (p == P2(Persistence, Size) && v == Str(spec.persistence.size))
    || (p == P2(Persistence, StorageClassName) && IsGiven(spec.persistence.storageClass, v))
  }

  predicate SpecLeaf(spec: CrSpec, p: Path, v: Value)
    requires spec.ValkeySpec?
  {
    || BaseLeaf(spec, p, v)
    || (p == P1(Image) && IsGiven(spec.image, v))
    || (p.Dot? && p.head == Resources && ResourceLeaf(spec.resources, p.tail, v))
  }

  lemma BaseLeaves(spec: CrSpec, p: Path, v: Value)
    requires spec.ValkeySpec?
    ensures LeafAt(BaseFields(spec), p) == Some(v) <==> BaseLeaf(spec, p, v)
  {
    var volume := VolumeFields(spec.persistence, Size, StorageClassName);
    AtSum3(map[P1(Shards) := Int(spec.shards)], map[P1(Replicas) := Int(spec.replicas)], Under(Persistence, volume), p);
    AtOne(P1(Shards), Int(spec.shards), p);
    AtOne(P1(Replicas), Int(spec.replicas), p);
    AtUnder(Persistence, volume, p);
    if p.Dot? { VolumeLeaves(spec.persistence, Size, StorageClassName, p.tail, v); }
  }

  lemma SpecLeaves(spec: CrSpec, p: Path, v: Value)
    requires spec.ValkeySpec?
    ensures LeafAt(SpecFields(spec), p) == Some(v) <==> SpecLeaf(spec, p, v)
  {
    var image, resources := Opt(spec.image != "", P1(Image), Str(spec.image)), ResourceFields(spec.resources);
    AtSum3(BaseFields(spec), image, Under(Resources, resources), p);
    BaseLeaves(spec, p, v);
    AtOpt(spec.image != "", P1(Image), Str(spec.image), p);
    AtUnder(Resources, resources, p);
    if p.Dot? { ResourceLeaves(spec.resources, p.tail, v); }
  }

  /** Every leaf of the applied ValkeyCluster: which field of the spec it carries, when it is
      absent, and that there is no other. */
  lemma ManifestLeaves(spec: CrSpec, owner: string, p: Path, v: Value)
    requires spec.ValkeySpec?
    ensures LeafAt(Manifest(spec, owner), p) == Some(v)
            <==> ObjectLeaf("valkeycluster-operator", owner, map[], p.Dot? && SpecLeaf(spec, p.tail, v), p, v)
  {
    if p.Dot? { SpecLeaves(spec, p.tail, v); }
    WholeLeaves(FIELD_MANAGER, owner, map[], SpecFields(spec), p.Dot? && SpecLeaf(spec, p.tail, v), p, v);
  }

  predicate ServiceLeaf(e: ExposeSpec, targetName: string, p: Path, v: Value) {
    || (p == P1(Type) && v == Str(e.serviceType))
    || (p == P2(Selector, ValkeyClusterLabel) && v == Str(targetName))
    || (p == P1(Ports)
        && v == List([Map(map["name" := Str("valkey"), "port" := Int(6379), "targetPort" := Int(6379)])]))
  }

  lemma ServiceLeaves(e: ExposeSpec, targetName: string, p: Path, v: Value)
    ensures LeafAt(ServiceFields(e, targetName), p) == Some(v) <==> ServiceLeaf(e, targetName, p, v)
  {
    var selector := map[P1(ValkeyClusterLabel) := Str(targetName)];
    AtSum3(map[P1(Type) := Str(e.serviceType)], Under(Selector, selector), map[P1(Ports) := DataPorts()], p);
    AtOne(P1(Type), Str(e.serviceType), p);
    AtOne(P1(Ports), DataPorts(), p);
    AtUnder(Selector, selector, p);
    if p.Dot? { AtOne(P1(ValkeyClusterLabel), Str(targetName), p.tail); }
  }

  /** Every leaf of the external Service. */
  lemma ExternalServiceLeaves(e: ExposeSpec, targetName: string, owner: string, p: Path, v: Value)
    ensures LeafAt(ExternalService(e, targetName, owner), p) == Some(v)
            <==> ObjectLeaf("valkeycluster-operator", owner, e.annotations,
                            p.Dot? && ServiceLeaf(e, targetName, p.tail, v), p, v)
  {
    if p.Dot? { ServiceLeaves(e, targetName, p.tail, v); }
    WholeLeaves(FIELD_MANAGER, owner, e.annotations, ServiceFields(e, targetName),
                p.Dot? && ServiceLeaf(e, targetName, p.tail, v), p, v);
  }
}

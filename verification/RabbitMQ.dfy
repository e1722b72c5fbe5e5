/** The RabbitMQ adapter (internal/rabbitmq/rabbitmq.go). */
module RabbitMQ {
  import opened Types
  import opened Objects
  import opened Manifests
  import opened ConditionScan
  import IngressBuilder

  const GVK := Gvk("rabbitmq.com", "v1beta1", "RabbitmqCluster")
  const FIELD_MANAGER := "rabbitmqcluster-operator"
  const MANAGEMENT_PORT: int32 := 15672

  const REPLICAS := P2(Spec, Replicas)

  function BaseFields(spec: CrSpec): Fields
    requires spec.RabbitMQSpec?
  {
    map[P1(Replicas) := Int(spec.replicas)] + Under(Persistence, VolumeFields(spec.storage, Storage, StorageClassName))
  }

  function SpecFields(spec: CrSpec): Fields
    requires spec.RabbitMQSpec?
  {
    BaseFields(spec) + Opt(spec.image != "", P1(Image), Str(spec.image))
    + Under(Resources, ResourceFields(spec.resources))
  }

  /** The leaves of the desired RabbitmqCluster. */
  function Manifest(spec: CrSpec, owner: string): Fields
    requires spec.RabbitMQSpec?
  {
    Whole(FIELD_MANAGER, owner, map[], SpecFields(spec))
  }

  method BaseOf(spec: CrSpec) returns (clusterSpec: Object)
    requires spec.RabbitMQSpec?
    ensures clusterSpec.Put? && Flatten(clusterSpec) == BaseFields(spec)
    ensures !Has(clusterSpec, Image) && !Has(clusterSpec, Resources)
  {
    var persistence := VolumeOf(spec.storage, Storage, StorageClassName);
    clusterSpec := One(Replicas, Int(spec.replicas));
    clusterSpec := SetBlock(clusterSpec, Persistence, persistence);
  }

  /** The object as the code nests it: its leaves are exactly the manifest. */
  method BuildManifest(spec: CrSpec, owner: string) returns (u: Object)
    requires spec.RabbitMQSpec?
    ensures Flatten(u) == Manifest(spec, owner)
  {
    var clusterSpec := BaseOf(spec);
    clusterSpec := SetIf(clusterSpec, spec.image != "", Image, Str(spec.image));
    var resources := ResourcesOf(spec.resources);
    clusterSpec := SetBlock(clusterSpec, Resources, resources);
    u := NewObject(FIELD_MANAGER, owner, map[], clusterSpec);
  }

  function IngressName(targetName: string): string { targetName + "-ingress" }

  function ExtraResources(spec: CrSpec, targetName: string, owner: string): seq<Extra>
    requires spec.RabbitMQSpec?
  {
    var desired :=
      if spec.ingress.Some?
      then Some(IngressBuilder.Desired(spec.ingress.value, owner, FIELD_MANAGER, targetName, MANAGEMENT_PORT))
      else None;
    [Extra(IngressBuilder.GVK, IngressName(targetName), desired)]
  }

  function Extract(f: Fields): TargetStatus {
    var observed := ToInt32(Int64At(f, REPLICAS));
    var v := Scan(ListAt(f, P2(Status, Conditions)), "AllReplicasReady");
    TargetStatus(v.phase, v.ready && observed > 0, observed, if v.ready then observed else 0)
  }

  method ExtractStatus(f: Fields) returns (ts: TargetStatus)
    ensures ts == Extract(f)
  {
    var observed := ToInt32(Int64At(f, REPLICAS));
    var v := ScanConditions(ListAt(f, P2(Status, Conditions)), "AllReplicasReady");
    var readyCount: int32 := 0;
    if v.ready {
      readyCount := observed;
    }
    ts := TargetStatus(v.phase, v.ready && observed > 0, observed, readyCount);
  }

  /** What ExtractStatus reads off the target, leaf by leaf. `conditionTrue` is whether the first
      well-formed condition of type "AllReplicasReady" has status "True". */
  lemma ExtractReads(f: Fields) returns (conditionTrue: bool)
    ensures var ts := Extract(f);
            var p, q := P2(Spec, Replicas), P2(Status, Conditions);
            && Reports(if q in f && f[q].List? then f[q].items else [], "AllReplicasReady", ts.phase, conditionTrue)
            && ts.observedCount == (if p in f && f[p].Int? then ToInt32(f[p].i) else 0)
            && (ts.ready <==> conditionTrue && ts.observedCount > 0)
            && ts.readyCount == (if conditionTrue then ts.observedCount else 0)
  {
    conditionTrue := Scan(ListAt(f, P2(Status, Conditions)), "AllReplicasReady").ready;
    ScanReports(ListAt(f, P2(Status, Conditions)), "AllReplicasReady");
  }

  lemma ManifestWithoutStatus(spec: CrSpec, owner: string)
    requires spec.RabbitMQSpec?
    ensures WithoutStatus(Manifest(spec, owner))
  {
    WholeWithoutStatus(FIELD_MANAGER, owner, map[], SpecFields(spec));
  }

  lemma ManifestReplicas(spec: CrSpec, owner: string)
    requires spec.RabbitMQSpec?
    ensures REPLICAS in Manifest(spec, owner) && Manifest(spec, owner)[REPLICAS] == Int(spec.replicas)
  {
    var p := P1(Replicas);
    WholeAt(FIELD_MANAGER, owner, map[], SpecFields(spec), p);
    UnderAt(Persistence, VolumeFields(spec.storage, Storage, StorageClassName), p);
    UnderAt(Resources, ResourceFields(spec.resources), p);
    SumKeeps(BaseFields(spec), Opt(spec.image != "", P1(Image), Str(spec.image)),
             Under(Resources, ResourceFields(spec.resources)), p);
  }

  // ---------------------------------------------------------------- leaf by leaf

  predicate BaseLeaf(spec: CrSpec, p: Path, v: Value)
    requires spec.RabbitMQSpec?
  {
    || (p == P1(Replicas) && v == Int(spec.replicas))
    || (p == P2(Persistence, Storage) && v == Str(spec.storage.size))
    || (p == P2(Persistence, StorageClassName) && IsGiven(spec.storage.storageClass, v))
  }

  predicate SpecLeaf(spec: CrSpec, p: Path, v: Value)
    requires spec.RabbitMQSpec?
  {
    || BaseLeaf(spec, p, v)
    || (p == P1(Image) && IsGiven(spec.image, v))
    || (p.Dot? && p.head == Resources && ResourceLeaf(spec.resources, p.tail, v))
  }

  lemma BaseLeaves(spec: CrSpec, p: Path, v: Value)
    requires spec.RabbitMQSpec?
    ensures LeafAt(BaseFields(spec), p) == Some(v) <==> BaseLeaf(spec, p, v)
  {
    var volume := VolumeFields(spec.storage, Storage, StorageClassName);
    AtSum(map[P1(Replicas) := Int(spec.replicas)], Under(Persistence, volume), p);
    AtOne(P1(Replicas), Int(spec.replicas), p);
    AtUnder(Persistence, volume, p);
    if p.Dot? { VolumeLeaves(spec.storage, Storage, StorageClassName, p.tail, v); }
  }

  lemma SpecLeaves(spec: CrSpec, p: Path, v: Value)
    requires spec.RabbitMQSpec?
    ensures LeafAt(SpecFields(spec), p) == Some(v) <==> SpecLeaf(spec, p, v)
  {
    var image, resources := Opt(spec.image != "", P1(Image), Str(spec.image)), ResourceFields(spec.resources);
    AtSum3(BaseFields(spec), image, Under(Resources, resources), p);
    BaseLeaves(spec, p, v);
    AtOpt(spec.image != "", P1(Image), Str(spec.image), p);
    AtUnder(Resources, resources, p);
    if p.Dot? { ResourceLeaves(spec.resources, p.tail, v); }
  }

  /** Every leaf of the applied RabbitmqCluster: which field of the spec it carries, when it is
      absent, and that there is no other. */
  lemma ManifestLeaves(spec: CrSpec, owner: string, p: Path, v: Value)
    requires spec.RabbitMQSpec?
    ensures LeafAt(Manifest(spec, owner), p) == Some(v)
            <==> ObjectLeaf("rabbitmqcluster-operator", owner, map[], p.Dot? && SpecLeaf(spec, p.tail, v), p, v)
  {
    if p.Dot? { SpecLeaves(spec, p.tail, v); }
    WholeLeaves(FIELD_MANAGER, owner, map[], SpecFields(spec), p.Dot? && SpecLeaf(spec, p.tail, v), p, v);
  }
}

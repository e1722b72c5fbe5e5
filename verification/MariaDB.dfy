/** The MariaDB adapter (internal/mariadb/mariadb.go). */
module MariaDB {
  import opened Types
  import opened Objects
  import opened Manifests
  import opened ConditionScan

  const GVK := Gvk("k8s.mariadb.com", "v1alpha1", "MariaDB")
  const FIELD_MANAGER := "mariadbcluster-operator"

  const REPLICAS := P2(Spec, Replicas)
  const GALERA_ENABLED := P3(Spec, Galera, Enabled)
  const ALLOW_EVEN := P2(Spec, ReplicasAllowEvenNumber)
  const SERVICE_TYPE := P3(Spec, Service, Type)

  function SecretFields(name: string): Fields {
    map[P1(SecretName) := Str(name)] + map[P1(SecretKey) := Str("password")] + map[P1(Generate) := Bool(true)]
  }

  function BaseFields(spec: CrSpec): Fields
    requires spec.MariaDBSpec?
  {
    map[P1(Replicas) := Int(spec.replicas)]
    + Under(Storage, VolumeFields(spec.storage, Size, StorageClassName))
    + map[P1(Database) := Str(spec.database.name)]
    + map[P1(Username) := Str(spec.database.owner)]
  }

  function SecretedFields(spec: CrSpec, name: string): Fields
    requires spec.MariaDBSpec?
  {
    BaseFields(spec)
    + Under(PasswordSecretKeyRef, SecretFields(name + "-app"))
    + Under(RootPasswordSecretKeyRef, SecretFields(name + "-root"))
  }

  /** What is always there, and the Galera switch above one replica. */
  function CoreFields(spec: CrSpec, name: string): Fields
    requires spec.MariaDBSpec?
  {
    SecretedFields(spec, name) + Under(Galera, GaleraFields(spec.replicas))
  }

  function GaleraFields(replicas: int32): Fields {
    Opt(replicas > 1, P1(Enabled), Bool(true))
  }

  function ServiceFields(e: Option<ExposeSpec>): Fields {
    if e.Some?
    then map[P1(Type) := Str(e.value.serviceType)] + Under(Metadata, Under(Annotations, KeyFields(e.value.annotations)))
    else map[]
  }

  function MetricsFields(enable: bool): Fields {
    if enable then map[P1(Enabled) := Bool(true)] + map[P1(ServiceMonitor) := EMPTY_MAP] else map[]
  }

  function MiddleFields(spec: CrSpec, name: string): Fields
    requires spec.MariaDBSpec?
  {
    CoreFields(spec, name) + Opt(spec.image != "", P1(Image), Str(spec.image))
    + Under(Resources, ResourceFields(spec.resources))
  }

  function SpecFields(spec: CrSpec, name: string): Fields
    requires spec.MariaDBSpec?
  {
    MiddleFields(spec, name) + Under(Service, ServiceFields(spec.expose))
    + Under(Metrics, MetricsFields(spec.enablePodMonitor))
  }

  /** The leaves of the desired MariaDB. */
  function Manifest(spec: CrSpec, name: string, owner: string): Fields
    requires spec.MariaDBSpec?
  {
    Whole(FIELD_MANAGER, owner, map[], SpecFields(spec, name))
  }

  method SecretRef(name: string) returns (ref: Object)
    ensures ref.Put? && Flatten(ref) == SecretFields(name)
  {
    ref := One(SecretName, Str(name));
    ref := Set(ref, SecretKey, Str("password"));
    ref := Set(ref, Generate, Bool(true));
  }

  method BaseOf(spec: CrSpec) returns (clusterSpec: Object)
    requires spec.MariaDBSpec?
    ensures clusterSpec.Put? && Flatten(clusterSpec) == BaseFields(spec)
    ensures forall s :: Has(clusterSpec, s) ==> s == Replicas || s == Storage || s == Database || s == Username
  {
    var storage := VolumeOf(spec.storage, Size, StorageClassName);
    clusterSpec := One(Replicas, Int(spec.replicas));
    clusterSpec := SetBlock(clusterSpec, Storage, storage);
    clusterSpec := Set(clusterSpec, Database, Str(spec.database.name));
    clusterSpec := Set(clusterSpec, Username, Str(spec.database.owner));
  }

  method WithSecrets(o: Object, name: string) returns (out: Object)
    requires !Has(o, PasswordSecretKeyRef) && !Has(o, RootPasswordSecretKeyRef)
    ensures Flatten(out) == Flatten(o) + Under(PasswordSecretKeyRef, SecretFields(name + "-app"))
                            + Under(RootPasswordSecretKeyRef, SecretFields(name + "-root"))
    ensures out.Put?
    ensures forall s :: Has(out, s) ==>
              Has(o, s) || s == PasswordSecretKeyRef || s == RootPasswordSecretKeyRef
  {
    var password := SecretRef(name + "-app");
    var root := SecretRef(name + "-root");
    out := SetBlock(o, PasswordSecretKeyRef, password);
    out := SetBlock(out, RootPasswordSecretKeyRef, root);
  }

  method GaleraOf(replicas: int32) returns (galera: Object)
    ensures Flatten(galera) == GaleraFields(replicas)
  {
    EmptyFlattens();
    if replicas <= 1 { return Empty; }
    galera := One(Enabled, Bool(true));
  }

  method StartOf(spec: CrSpec) returns (clusterSpec: Object)
    requires spec.MariaDBSpec?
    ensures clusterSpec.Put? && Flatten(clusterSpec) == BaseFields(spec)
    ensures !Has(clusterSpec, PasswordSecretKeyRef) && !Has(clusterSpec, RootPasswordSecretKeyRef)
            && !Has(clusterSpec, Galera)
    ensures !Has(clusterSpec, Image) && !Has(clusterSpec, Resources) && !Has(clusterSpec, Service)
            && !Has(clusterSpec, Metrics)
  {
    clusterSpec := BaseOf(spec);
  }

  method CoreOf(spec: CrSpec, name: string) returns (clusterSpec: Object)
    requires spec.MariaDBSpec?
    ensures clusterSpec.Put? && Flatten(clusterSpec) == CoreFields(spec, name)
    ensures !Has(clusterSpec, Image) && !Has(clusterSpec, Resources) && !Has(clusterSpec, Service)
            && !Has(clusterSpec, Metrics)
  {
    clusterSpec := StartOf(spec);
    clusterSpec := WithSecrets(clusterSpec, name);
    var galera := GaleraOf(spec.replicas);
    clusterSpec := SetBlock(clusterSpec, Galera, galera);
  }

  method MiddleOf(spec: CrSpec, name: string) returns (clusterSpec: Object)
    requires spec.MariaDBSpec?
    ensures clusterSpec.Put? && Flatten(clusterSpec) == MiddleFields(spec, name)
    ensures !Has(clusterSpec, Service) && !Has(clusterSpec, Metrics)
  {
    clusterSpec := CoreOf(spec, name);
    clusterSpec := SetIf(clusterSpec, spec.image != "", Image, Str(spec.image));
    var resources := ResourcesOf(spec.resources);
    clusterSpec := SetBlock(clusterSpec, Resources, resources);
  }

  method ServiceOf(e: Option<ExposeSpec>) returns (service: Object)
    ensures Flatten(service) == ServiceFields(e)
  {
    EmptyFlattens();
    if e.None? { return Empty; }
    var annotations := AnnotationsOf(e.value.annotations);
    PlusNothing(Under(Annotations, KeyFields(e.value.annotations)));
    var metadata := SetBlock(Empty, Annotations, annotations);
    service := One(Type, Str(e.value.serviceType));
    service := SetBlock(service, Metadata, metadata);
  }

  method MetricsOf(enable: bool) returns (metrics: Object)
    ensures Flatten(metrics) == MetricsFields(enable)
  {
    EmptyFlattens();
    if !enable { return Empty; }
    metrics := One(Enabled, Bool(true));
    metrics := SetEmpty(metrics, ServiceMonitor);
  }

  /** The object as the code nests it: its leaves are exactly the manifest, so the one empty
      map in it is the wanted `serviceMonitor`. */
  method BuildManifest(spec: CrSpec, name: string, owner: string) returns (u: Object)
    requires spec.MariaDBSpec?
    ensures Flatten(u) == Manifest(spec, name, owner)
  {
    var clusterSpec := MiddleOf(spec, name);
    var service := ServiceOf(spec.expose);
    clusterSpec := SetBlock(clusterSpec, Service, service);
    var metrics := MetricsOf(spec.enablePodMonitor);
    clusterSpec := SetBlock(clusterSpec, Metrics, metrics);
    u := NewObject(FIELD_MANAGER, owner, map[], clusterSpec);
  }

  function Extract(f: Fields): TargetStatus {
    var observed := ToInt32(Int64At(f, P2(Status, Replicas)));
    var v := Scan(ListAt(f, P2(Status, Conditions)), "Ready");
    TargetStatus(v.phase, v.ready && observed > 0, observed, if v.ready then observed else 0)
  }

  method ExtractStatus(f: Fields) returns (ts: TargetStatus)
    ensures ts == Extract(f)
  {
    var observed := ToInt32(Int64At(f, P2(Status, Replicas)));
    var v := ScanConditions(ListAt(f, P2(Status, Conditions)), "Ready");
    var readyCount: int32 := 0;
    if v.ready {
      readyCount := observed;
    }
    ts := TargetStatus(v.phase, v.ready && observed > 0, observed, readyCount);
  }

  /** What ExtractStatus reads off the target, leaf by leaf. `conditionTrue` is whether the first
      well-formed condition of type "Ready" has status "True". */
  lemma ExtractReads(f: Fields) returns (conditionTrue: bool)
    ensures var ts := Extract(f);
            var p, q := P2(Status, Replicas), P2(Status, Conditions);
            && Reports(if q in f && f[q].List? then f[q].items else [], "Ready", ts.phase, conditionTrue)
            && ts.observedCount == (if p in f && f[p].Int? then ToInt32(f[p].i) else 0)
            && (ts.ready <==> conditionTrue && ts.observedCount > 0)
            && ts.readyCount == (if conditionTrue then ts.observedCount else 0)
  {
    conditionTrue := Scan(ListAt(f, P2(Status, Conditions)), "Ready").ready;
    ScanReports(ListAt(f, P2(Status, Conditions)), "Ready");
  }

  /** The vendor's validation rule (crd-mariadb-operator-v26.6.0.yaml:6581-6586). */
  predicate GaleraRule(f: Fields) {
    TrueAt(f, GALERA_ENABLED) ==> Int64At(f, REPLICAS) % 2 == 1 || TrueAt(f, ALLOW_EVEN)
  }

  lemma ManifestWithoutStatus(spec: CrSpec, name: string, owner: string)
    requires spec.MariaDBSpec?
    ensures WithoutStatus(Manifest(spec, name, owner))
  {
    WholeWithoutStatus(FIELD_MANAGER, owner, map[], SpecFields(spec, name));
  }

  // ---------------------------------------------------------------- what the manifest says

  /** Outside image, resources, service and metrics, the spec is its core. */
  lemma SpecAt(spec: CrSpec, name: string, p: Path)
    requires spec.MariaDBSpec? && p.Dot?
    requires !p.head.Image? && !p.head.Resources? && !p.head.Service? && !p.head.Metrics?
    ensures Agree(SpecFields(spec, name), CoreFields(spec, name), p)
  {
    UnderAt(Service, ServiceFields(spec.expose), p);
    UnderAt(Metrics, MetricsFields(spec.enablePodMonitor), p);
    SumKeeps(MiddleFields(spec, name), Under(Service, ServiceFields(spec.expose)),
             Under(Metrics, MetricsFields(spec.enablePodMonitor)), p);
    UnderAt(Resources, ResourceFields(spec.resources), p);
    SumKeeps(CoreFields(spec, name), Opt(spec.image != "", P1(Image), Str(spec.image)),
             Under(Resources, ResourceFields(spec.resources)), p);
  }

  lemma BaseAt(spec: CrSpec, p: Path)
    requires spec.MariaDBSpec? && p.Dot? && !p.head.Storage? && !p.head.Database? && !p.head.Username?
    ensures Agree(BaseFields(spec), map[P1(Replicas) := Int(spec.replicas)], p)
  {
    var storage := Under(Storage, VolumeFields(spec.storage, Size, StorageClassName));
    var database, username := map[P1(Database) := Str(spec.database.name)],
        map[P1(Username) := Str(spec.database.owner)];
    UnderAt(Storage, VolumeFields(spec.storage, Size, StorageClassName), p);
    SumKeeps(map[P1(Replicas) := Int(spec.replicas)] + storage, database, username, p);
  }

  lemma CoreAt(spec: CrSpec, name: string, p: Path)
    requires spec.MariaDBSpec? && p.Dot?
    requires p.head.Replicas? || p.head.Galera? || p.head.ReplicasAllowEvenNumber? || p.head.Service?
    ensures p in CoreFields(spec, name) <==>
              p == P1(Replicas) || (p.head.Galera? && p.tail in GaleraFields(spec.replicas))
    ensures p == P1(Replicas) ==> CoreFields(spec, name)[p] == Int(spec.replicas)
    ensures p.head.Galera? && p.tail in GaleraFields(spec.replicas)
            ==> CoreFields(spec, name)[p] == GaleraFields(spec.replicas)[p.tail]
  {
    BaseAt(spec, p);
    var app, root := SecretFields(name + "-app"), SecretFields(name + "-root");
    UnderAt(PasswordSecretKeyRef, app, p);
    UnderAt(RootPasswordSecretKeyRef, root, p);
    SumKeeps(BaseFields(spec), Under(PasswordSecretKeyRef, app), Under(RootPasswordSecretKeyRef, root), p);
    UnderAt(Galera, GaleraFields(spec.replicas), p);
  }

  /** The service block is asked for exactly while the spec says `expose`. */
  lemma ServiceIffExposed(spec: CrSpec, name: string, owner: string)
    requires spec.MariaDBSpec?
    ensures SERVICE_TYPE in Manifest(spec, name, owner) <==> spec.expose.Some?
  {
    var p := P2(Service, Type);
    WholeAt(FIELD_MANAGER, owner, map[], SpecFields(spec, name), p);
    var service, metrics := Under(Service, ServiceFields(spec.expose)),
        Under(Metrics, MetricsFields(spec.enablePodMonitor));
    UnderAt(Service, ServiceFields(spec.expose), p);
    UnderAt(Metrics, MetricsFields(spec.enablePodMonitor), p);
    UnderAt(Resources, ResourceFields(spec.resources), p);
    CoreAt(spec, name, p);
    SumKeeps(CoreFields(spec, name), Opt(spec.image != "", P1(Image), Str(spec.image)),
             Under(Resources, ResourceFields(spec.resources)), p);
    SumAt(MiddleFields(spec, name), service, metrics, p);
    ServiceTypeAt(spec.expose);
  }

  lemma ServiceTypeAt(e: Option<ExposeSpec>)
    ensures P1(Type) in ServiceFields(e) <==> e.Some?
  {
  }

  /** What a manifest says about replication: the replica count, the Galera switch exactly for
      more than one replica, and never the vendor's even-count override. */
  predicate Replicates(m: Fields, replicas: int32) {
    && REPLICAS in m && m[REPLICAS] == Int(replicas)
    && (if replicas > 1 then GALERA_ENABLED in m && m[GALERA_ENABLED] == Bool(true) else GALERA_ENABLED !in m)
    && ALLOW_EVEN !in m
  }

  lemma ManifestReplicates(spec: CrSpec, name: string, owner: string)
    requires spec.MariaDBSpec?
    ensures Replicates(Manifest(spec, name, owner), spec.replicas)
  {
    forall p | p in {P1(Replicas), P2(Galera, Enabled), P1(ReplicasAllowEvenNumber)}
      ensures Agree(SpecFields(spec, name), CoreFields(spec, name), p)
      ensures Dot(Spec, p) in Manifest(spec, name, owner) <==> p in SpecFields(spec, name)
      ensures p in SpecFields(spec, name) ==> Manifest(spec, name, owner)[Dot(Spec, p)] == SpecFields(spec, name)[p]
    {
      SpecAt(spec, name, p);
      WholeAt(FIELD_MANAGER, owner, map[], SpecFields(spec, name), p);
    }
    CoreAt(spec, name, P1(Replicas));
    CoreAt(spec, name, P2(Galera, Enabled));
    CoreAt(spec, name, P1(ReplicasAllowEvenNumber));
  }

  /** For every admitted count the manifest meets the vendor's rule iff the count is odd. */
  lemma MeetsGaleraRule(spec: CrSpec, name: string, owner: string)
    requires spec.MariaDBSpec? && spec.replicas >= 1
    ensures GaleraRule(Manifest(spec, name, owner)) <==> spec.replicas % 2 == 1
  {
    ManifestReplicates(spec, name, owner);
    ReplicatesMeetsRule(Manifest(spec, name, owner), spec.replicas);
  }

  lemma ReplicatesMeetsRule(m: Fields, replicas: int32)
    requires Replicates(m, replicas) && replicas >= 1
    ensures GaleraRule(m) <==> replicas % 2 == 1
  {
  }

  // ---------------------------------------------------------------- leaf by leaf

  predicate SecretLeaf(name: string, p: Path, v: Value) {
    || (p == P1(SecretName) && v == Str(name))
    || (p == P1(SecretKey) && v == Str("password"))
    || (p == P1(Generate) && v == Bool(true))
  }

  predicate BaseLeaf(spec: CrSpec, p: Path, v: Value)
    requires spec.MariaDBSpec?
  {
    || (p == P1(Replicas) && v == Int(spec.replicas))
    || (p == P2(Storage, Size) && v == Str(spec.storage.size))
    || (p == P2(Storage, StorageClassName) && IsGiven(spec.storage.storageClass, v))
    || (p == P1(Database) && v == Str(spec.database.name))
    || (p == P1(Username) && v == Str(spec.database.owner))
  }

  predicate SecretedLeaf(spec: CrSpec, name: string, p: Path, v: Value)
    requires spec.MariaDBSpec?
  {
    || BaseLeaf(spec, p, v)
    || (p.Dot? && p.head == PasswordSecretKeyRef && SecretLeaf(name + "-app", p.tail, v))
    || (p.Dot? && p.head == RootPasswordSecretKeyRef && SecretLeaf(name + "-root", p.tail, v))
  }

  predicate CoreLeaf(spec: CrSpec, name: string, p: Path, v: Value)
    requires spec.MariaDBSpec?
  {
    || SecretedLeaf(spec, name, p, v)
    || (p == P2(Galera, Enabled) && spec.replicas > 1 && v == Bool(true))
  }

  predicate MiddleLeaf(spec: CrSpec, name: string, p: Path, v: Value)
    requires spec.MariaDBSpec?
  {
    || CoreLeaf(spec, name, p, v)
    || (p == P1(Image) && IsGiven(spec.image, v))
    || (p.Dot? && p.head == Resources && ResourceLeaf(spec.resources, p.tail, v))
  }

  predicate ServiceLeaf(e: ExposeSpec, p: Path, v: Value) {
    || (p == P1(Type) && v == Str(e.serviceType))
    || (p.Dot? && p.head == Metadata && p.tail.Dot? && p.tail.head == Annotations
        && AnnotationLeaf(e.annotations, p.tail.tail, v))
  }

  predicate MetricsLeaf(p: Path, v: Value) {
    (p == P1(Enabled) && v == Bool(true)) || (p == P1(ServiceMonitor) && v == Map(map[]))
  }

  predicate SpecLeaf(spec: CrSpec, name: string, p: Path, v: Value)
    requires spec.MariaDBSpec?
  {
    || MiddleLeaf(spec, name, p, v)
    || (p.Dot? && p.head == Service && spec.expose.Some? && ServiceLeaf(spec.expose.value, p.tail, v))
    || (p.Dot? && p.head == Metrics && spec.enablePodMonitor && MetricsLeaf(p.tail, v))
  }

  lemma SecretLeaves(name: string, p: Path, v: Value)
    ensures LeafAt(SecretFields(name), p) == Some(v) <==> SecretLeaf(name, p, v)
  {
    AtSum3(map[P1(SecretName) := Str(name)], map[P1(SecretKey) := Str("password")], map[P1(Generate) := Bool(true)], p);
    AtOne(P1(SecretName), Str(name), p);
    AtOne(P1(SecretKey), Str("password"), p);
    AtOne(P1(Generate), Bool(true), p);
  }

  lemma BaseLeaves(spec: CrSpec, p: Path, v: Value)
    requires spec.MariaDBSpec?
    ensures LeafAt(BaseFields(spec), p) == Some(v) <==> BaseLeaf(spec, p, v)
  {
    var volume := VolumeFields(spec.storage, Size, StorageClassName);
    AtSum4(map[P1(Replicas) := Int(spec.replicas)], Under(Storage, volume),
           map[P1(Database) := Str(spec.database.name)], map[P1(Username) := Str(spec.database.owner)], p);
    AtOne(P1(Replicas), Int(spec.replicas), p);
    AtOne(P1(Database), Str(spec.database.name), p);
    AtOne(P1(Username), Str(spec.database.owner), p);
    AtUnder(Storage, volume, p);
    if p.Dot? { VolumeLeaves(spec.storage, Size, StorageClassName, p.tail, v); }
  }

  lemma BaseApart(spec: CrSpec, p: Path)
    requires spec.MariaDBSpec? && p.Dot?
    requires p.head != Replicas && p.head != Storage && p.head != Database && p.head != Username
    ensures LeafAt(BaseFields(spec), p) == None
  {
    if LeafAt(BaseFields(spec), p).Some? { BaseLeaves(spec, p, LeafAt(BaseFields(spec), p).value); }
  }

  lemma SecretedLeaves(spec: CrSpec, name: string, p: Path, v: Value)
    requires spec.MariaDBSpec?
    ensures LeafAt(SecretedFields(spec, name), p) == Some(v) <==> SecretedLeaf(spec, name, p, v)
  {
    var base, app, root := BaseFields(spec), SecretFields(name + "-app"), SecretFields(name + "-root");
    var inApp := p.Dot? && SecretLeaf(name + "-app", p.tail, v);
    BaseLeaves(spec, p, v);
    if p.Dot? {
      if p.head == PasswordSecretKeyRef || p.head == RootPasswordSecretKeyRef { BaseApart(spec, p); }
      SecretLeaves(name + "-app", p.tail, v);
      SecretLeaves(name + "-root", p.tail, v);
    }
    AtBlock(base, PasswordSecretKeyRef, app, p, v, BaseLeaf(spec, p, v), inApp);
    AtSum(base, Under(PasswordSecretKeyRef, app), p);
    AtUnder(PasswordSecretKeyRef, app, p);
    AtBlock(base + Under(PasswordSecretKeyRef, app), RootPasswordSecretKeyRef, root, p, v,
            BaseLeaf(spec, p, v) || (p.Dot? && p.head == PasswordSecretKeyRef && inApp),
            p.Dot? && SecretLeaf(name + "-root", p.tail, v));
  }

  /** The keys of the spec that come after the secrets. */
  predicate Later(k: Seg) {
    k == Galera || k == Image || k == Resources || k == Service || k == Metrics
  }

  lemma SecretedApart(spec: CrSpec, name: string, p: Path)
    requires spec.MariaDBSpec? && p.Dot? && Later(p.head)
    ensures LeafAt(SecretedFields(spec, name), p) == None
  {
    var app, root := SecretFields(name + "-app"), SecretFields(name + "-root");
    BaseApart(spec, p);
    AtSum3(BaseFields(spec), Under(PasswordSecretKeyRef, app), Under(RootPasswordSecretKeyRef, root), p);
    AtUnder(PasswordSecretKeyRef, app, p);
    AtUnder(RootPasswordSecretKeyRef, root, p);
  }

  lemma CoreLeaves(spec: CrSpec, name: string, p: Path, v: Value)
    requires spec.MariaDBSpec?
    ensures LeafAt(CoreFields(spec, name), p) == Some(v) <==> CoreLeaf(spec, name, p, v)
  {
    SecretedLeaves(spec, name, p, v);
    if p.Dot? {
      if p.head == Galera { SecretedApart(spec, name, p); }
      AtOpt(spec.replicas > 1, P1(Enabled), Bool(true), p.tail);
    }
    AtBlock(SecretedFields(spec, name), Galera, GaleraFields(spec.replicas), p, v, SecretedLeaf(spec, name, p, v),
            p.Dot? && p.tail == P1(Enabled) && spec.replicas > 1 && v == Bool(true));
  }

  lemma CoreApart(spec: CrSpec, name: string, p: Path)
    requires spec.MariaDBSpec? && p.Dot? && Later(p.head) && p.head != Galera
    ensures LeafAt(CoreFields(spec, name), p) == None
  {
    SecretedApart(spec, name, p);
    AtSum(SecretedFields(spec, name), Under(Galera, GaleraFields(spec.replicas)), p);
    AtUnder(Galera, GaleraFields(spec.replicas), p);
  }

  lemma MiddleLeaves(spec: CrSpec, name: string, p: Path, v: Value)
    requires spec.MariaDBSpec?
    ensures LeafAt(MiddleFields(spec, name), p) == Some(v) <==> MiddleLeaf(spec, name, p, v)
  {
    var core, image := CoreFields(spec, name), Opt(spec.image != "", P1(Image), Str(spec.image));
    var inImage := p == P1(Image) && IsGiven(spec.image, v);
    CoreLeaves(spec, name, p, v);
    if p.Dot? {
      if p.head == Image || p.head == Resources { CoreApart(spec, name, p); }
      ResourceLeaves(spec.resources, p.tail, v);
    }
    AtSum(core, image, p);
    AtOpt(spec.image != "", P1(Image), Str(spec.image), p);
    AtBlock(core + image, Resources, ResourceFields(spec.resources), p, v, CoreLeaf(spec, name, p, v) || inImage,
            p.Dot? && ResourceLeaf(spec.resources, p.tail, v));
  }

  lemma ServiceLeaves(e: Option<ExposeSpec>, p: Path, v: Value)
    ensures LeafAt(ServiceFields(e), p) == Some(v) <==> e.Some? && ServiceLeaf(e.value, p, v)
  {
    if e.Some? {
      var notes := KeyFields(e.value.annotations);
      AtSum(map[P1(Type) := Str(e.value.serviceType)], Under(Metadata, Under(Annotations, notes)), p);
      AtOne(P1(Type), Str(e.value.serviceType), p);
      AtUnder(Metadata, Under(Annotations, notes), p);
      if p.Dot? {
        AtUnder(Annotations, notes, p.tail);
        if p.tail.Dot? { KeyLeaves(e.value.annotations, p.tail.tail, v); }
      }
    } else {
      LeafAtIs(map[], p);
    }
  }

  lemma MetricsLeaves(enable: bool, p: Path, v: Value)
    ensures LeafAt(MetricsFields(enable), p) == Some(v) <==> enable && MetricsLeaf(p, v)
  {
    if enable {
      AtSum(map[P1(Enabled) := Bool(true)], map[P1(ServiceMonitor) := EMPTY_MAP], p);
      AtOne(P1(Enabled), Bool(true), p);
      AtOne(P1(ServiceMonitor), EMPTY_MAP, p);
    } else {
      LeafAtIs(map[], p);
    }
  }

  lemma MiddleApart(spec: CrSpec, name: string, p: Path)
    requires spec.MariaDBSpec? && p.Dot? && (p.head == Service || p.head == Metrics)
    ensures LeafAt(MiddleFields(spec, name), p) == None
  {
    var image, resources := Opt(spec.image != "", P1(Image), Str(spec.image)), ResourceFields(spec.resources);
    CoreApart(spec, name, p);
    AtSum3(CoreFields(spec, name), image, Under(Resources, resources), p);
    AtOpt(spec.image != "", P1(Image), Str(spec.image), p);
    AtUnder(Resources, resources, p);
  }

  lemma SpecLeaves(spec: CrSpec, name: string, p: Path, v: Value)
    requires spec.MariaDBSpec?
    ensures LeafAt(SpecFields(spec, name), p) == Some(v) <==> SpecLeaf(spec, name, p, v)
  {
    var middle, service, metrics :=
      MiddleFields(spec, name), ServiceFields(spec.expose), MetricsFields(spec.enablePodMonitor);
    var inService := p.Dot? && spec.expose.Some? && ServiceLeaf(spec.expose.value, p.tail, v);
    MiddleLeaves(spec, name, p, v);
    if p.Dot? {
      if p.head == Service || p.head == Metrics { MiddleApart(spec, name, p); }
      ServiceLeaves(spec.expose, p.tail, v);
      MetricsLeaves(spec.enablePodMonitor, p.tail, v);
    }
    AtBlock(middle, Service, service, p, v, MiddleLeaf(spec, name, p, v), inService);
    AtSum(middle, Under(Service, service), p);
    AtUnder(Service, service, p);
    AtBlock(middle + Under(Service, service), Metrics, metrics, p, v,
            MiddleLeaf(spec, name, p, v) || (p.Dot? && p.head == Service && inService),
            p.Dot? && spec.enablePodMonitor && MetricsLeaf(p.tail, v));
  }

  /** Every leaf of the applied MariaDB: which field of the spec it carries, when it is absent,
      and that there is no other. */
  lemma ManifestLeaves(spec: CrSpec, name: string, owner: string, p: Path, v: Value)
    requires spec.MariaDBSpec?
    ensures LeafAt(Manifest(spec, name, owner), p) == Some(v)
            <==> ObjectLeaf("mariadbcluster-operator", owner, map[], p.Dot? && SpecLeaf(spec, name, p.tail, v), p, v)
  {
    if p.Dot? { SpecLeaves(spec, name, p.tail, v); }
    WholeLeaves(FIELD_MANAGER, owner, map[], SpecFields(spec, name), p.Dot? && SpecLeaf(spec, name, p.tail, v), p, v);
  }
}

/** The CloudNativePG adapter (internal/cnpg/cnpg.go). */
module Postgres {
  import opened Types
  import opened Objects
  import opened Manifests

  const GVK := Gvk("postgresql.cnpg.io", "v1", "Cluster")
  const FIELD_MANAGER := "postgrescluster-operator"

  const ADDITIONAL_SERVICES := P4(Spec, Managed, Services, Additional)

  /** The extra read-write Service CNPG is asked for. */
  function ExposedService(name: string, serviceType: string, annotations: map<string, Value>): Value {
    var named := map["name" := Str(name + "-external")];
    var metadata := if annotations == map[] then named else named["annotations" := Map(annotations)];
    List([Map(map[
      "selectorType" := Str("rw"),
      "serviceTemplate" := Map(map[
        "metadata" := Map(metadata),
        "spec" := Map(map["type" := Str(serviceType)])])])])
  }

  function InitdbFields(db: DatabaseSpec): Fields {
    map[P1(Database) := Str(db.name)] + map[P1(Owner) := Str(db.owner)]
  }

  function SizedFields(spec: CrSpec): Fields
    requires spec.PostgresSpec?
  {
    map[P1(Instances) := Int(spec.instances)] + Under(Storage, VolumeFields(spec.storage, Size, StorageClass))
  }

  /** The part of the spec that is always there. */
  function BaseFields(spec: CrSpec): Fields
    requires spec.PostgresSpec?
  {
    SizedFields(spec) + Under(Bootstrap, Under(Initdb, InitdbFields(spec.database)))
  }

  /** ... with image and resources. */
  function CoreFields(spec: CrSpec): Fields
    requires spec.PostgresSpec?
  {
    BaseFields(spec) + Opt(spec.image != "", P1(ImageName), Str(spec.image))
    + Under(Resources, ResourceFields(spec.resources))
  }

  function ManagedFields(name: string, e: Option<ExposeSpec>): Fields {
    if e.Some?
    then Under(Services, map[P1(Additional) := ExposedService(name, e.value.serviceType,
                                                              AnnotationValues(e.value.annotations))])
    else map[]
  }

  function MonitoringFields(enable: bool): Fields {
    Opt(enable, P1(EnablePodMonitor), Bool(true))
  }

  function SpecFields(spec: CrSpec, name: string): Fields
    requires spec.PostgresSpec?
  {
    CoreFields(spec) + Under(Managed, ManagedFields(name, spec.expose))
    + Under(Monitoring, MonitoringFields(spec.enablePodMonitor))
  }

  /** The leaves of the desired Cluster. */
  function Manifest(spec: CrSpec, name: string, owner: string): Fields
    requires spec.PostgresSpec?
  {
    Whole(FIELD_MANAGER, owner, map[], SpecFields(spec, name))
  }

  method BootstrapOf(db: DatabaseSpec) returns (bootstrap: Object)
    ensures bootstrap.Put? && Flatten(bootstrap) == Under(Initdb, InitdbFields(db))
  {
    var initdb := One(Database, Str(db.name));
    initdb := Set(initdb, Owner, Str(db.owner));
    bootstrap := OneBlock(Initdb, initdb);
  }

  method BaseOf(spec: CrSpec) returns (clusterSpec: Object)
    requires spec.PostgresSpec?
    ensures clusterSpec.Put? && Flatten(clusterSpec) == BaseFields(spec)
    ensures forall s :: Has(clusterSpec, s) ==> s == Instances || s == Storage || s == Bootstrap
  {
    var storage := VolumeOf(spec.storage, Size, StorageClass);
    var bootstrap := BootstrapOf(spec.database);
    clusterSpec := One(Instances, Int(spec.instances));
    clusterSpec := SetBlock(clusterSpec, Storage, storage);
    clusterSpec := SetBlock(clusterSpec, Bootstrap, bootstrap);
  }

  method StartOf(spec: CrSpec) returns (clusterSpec: Object)
    requires spec.PostgresSpec?
    ensures clusterSpec.Put? && Flatten(clusterSpec) == BaseFields(spec)
    ensures !Has(clusterSpec, ImageName) && !Has(clusterSpec, Resources) && !Has(clusterSpec, Managed)
            && !Has(clusterSpec, Monitoring)
  {
    clusterSpec := BaseOf(spec);
  }

  method ManagedOf(name: string, e: Option<ExposeSpec>) returns (managed: Object)
    ensures Flatten(managed) == ManagedFields(name, e)
  {
    EmptyFlattens();
    if e.None? { return Empty; }
    var annotations := CopyAnnotations(e.value.annotations);
    var services := One(Additional, ExposedService(name, e.value.serviceType, annotations));
    managed := OneBlock(Services, services);
  }

  /** The object as the code nests it: its leaves are exactly the manifest, so no empty map is
      left where a block has nothing in it. */
  method BuildManifest(spec: CrSpec, name: string, owner: string) returns (u: Object)
    requires spec.PostgresSpec?
    ensures Flatten(u) == Manifest(spec, name, owner)
  {
    var clusterSpec := StartOf(spec);
    clusterSpec := SetIf(clusterSpec, spec.image != "", ImageName, Str(spec.image));
    var resources := ResourcesOf(spec.resources);
    clusterSpec := SetBlock(clusterSpec, Resources, resources);
    var managed := ManagedOf(name, spec.expose);
    clusterSpec := SetBlock(clusterSpec, Managed, managed);
    EmptyFlattens();
    var monitoring := SetIf(Empty, spec.enablePodMonitor, EnablePodMonitor, Bool(true));
    PlusNothing(MonitoringFields(spec.enablePodMonitor));
    clusterSpec := SetBlock(clusterSpec, Monitoring, monitoring);
    u := NewObject(FIELD_MANAGER, owner, map[], clusterSpec);
  }

  function Extract(f: Fields): TargetStatus {
    var instances := ToInt32(Int64At(f, P2(Status, Instances)));
    var ready := ToInt32(Int64At(f, P2(Status, ReadyInstances)));
    TargetStatus(OrUnknown(StringAt(f, P2(Status, Phase))), instances > 0 && ready >= instances, instances, ready)
  }

  lemma ManifestWithoutStatus(spec: CrSpec, name: string, owner: string)
    requires spec.PostgresSpec?
    ensures WithoutStatus(Manifest(spec, name, owner))
  {
    WholeWithoutStatus(FIELD_MANAGER, owner, map[], SpecFields(spec, name));
  }

  lemma CoreApart(spec: CrSpec, p: Path)
    requires spec.PostgresSpec? && p.Dot? && p.head.Managed?
    ensures p !in CoreFields(spec)
  {
    var a, b, c := map[P1(Instances) := Int(spec.instances)], VolumeFields(spec.storage, Size, StorageClass),
        Under(Initdb, InitdbFields(spec.database));
    UnderAt(Storage, b, p);
    UnderAt(Bootstrap, c, p);
    NotInSum(a, Under(Storage, b), Under(Bootstrap, c), p);
    var d, e := Opt(spec.image != "", P1(ImageName), Str(spec.image)), ResourceFields(spec.resources);
    UnderAt(Resources, e, p);
    NotInSum(BaseFields(spec), d, Under(Resources, e), p);
  }

  lemma ManagedAt(name: string, e: Option<ExposeSpec>)
    ensures P3(Managed, Services, Additional) in Under(Managed, ManagedFields(name, e)) <==> e.Some?
  {
    UnderAt(Managed, ManagedFields(name, e), P3(Managed, Services, Additional));
    if e.Some? {
      var service := ExposedService(name, e.value.serviceType, AnnotationValues(e.value.annotations));
      UnderAt(Services, map[P1(Additional) := service], P2(Services, Additional));
    }
  }

  /** The managed-services block is asked for exactly while the spec says `expose`. */
  lemma ManagedIffExposed(spec: CrSpec, name: string, owner: string)
    requires spec.PostgresSpec?
    ensures ADDITIONAL_SERVICES in Manifest(spec, name, owner) <==> spec.expose.Some?
  {
    var p := P3(Managed, Services, Additional);
    var f, g, g' := CoreFields(spec), Under(Managed, ManagedFields(name, spec.expose)),
        Under(Monitoring, MonitoringFields(spec.enablePodMonitor));
    WholeAt(FIELD_MANAGER, owner, map[], f + g + g', p);
    CoreApart(spec, p);
    ManagedAt(name, spec.expose);
    UnderAt(Monitoring, MonitoringFields(spec.enablePodMonitor), p);
    SumAt(f, g, g', p);
  }

  // ---------------------------------------------------------------- leaf by leaf

  predicate BaseLeaf(spec: CrSpec, p: Path, v: Value)
    requires spec.PostgresSpec?
  {
    || SizedLeaf(spec, p, v)
    || (p.Dot? && p.head == Bootstrap && BootstrapLeaf(spec.database, p.tail, v))
  }

  predicate CoreLeaf(spec: CrSpec, p: Path, v: Value)
    requires spec.PostgresSpec?
  {
    || BaseLeaf(spec, p, v)
    || (p == P1(ImageName) && IsGiven(spec.image, v))
    || (p.Dot? && p.head == Resources && ResourceLeaf(spec.resources, p.tail, v))
  }

  predicate ManagedLeaf(spec: CrSpec, name: string, p: Path, v: Value)
    requires spec.PostgresSpec?
  {
    p == P3(Managed, Services, Additional) && spec.expose.Some? && IsExposed(name, spec.expose.value, v)
  }

  predicate SpecLeaf(spec: CrSpec, name: string, p: Path, v: Value)
    requires spec.PostgresSpec?
  {
    || CoreLeaf(spec, p, v)
    || ManagedLeaf(spec, name, p, v)
    || (p == P2(Monitoring, EnablePodMonitor) && spec.enablePodMonitor && v == Bool(true))
  }

  /** One read-write Service named after the target, of the exposed type, with annotations only
      where there are some. */
  predicate IsExposed(name: string, e: ExposeSpec, v: Value) {
    var notes: map<string, Value> := map k | k in e.annotations :: Str(e.annotations[k]);
    var metadata := if e.annotations == map[] then map["name" := Str(name + "-external")]
                    else map["name" := Str(name + "-external"), "annotations" := Map(notes)];
    v == List([Map(map[
      "selectorType" := Str("rw"),
      "serviceTemplate" := Map(map["metadata" := Map(metadata), "spec" := Map(map["type" := Str(e.serviceType)])])])])
  }

  lemma ExposedServiceIs(name: string, e: ExposeSpec)
    ensures IsExposed(name, e, ExposedService(name, e.serviceType, AnnotationValues(e.annotations)))
  {
    assert AnnotationValues(e.annotations).Keys == e.annotations.Keys;
  }

  predicate BootstrapLeaf(db: DatabaseSpec, p: Path, v: Value) {
    (p == P2(Initdb, Database) && v == Str(db.name)) || (p == P2(Initdb, Owner) && v == Str(db.owner))
  }

  lemma BootstrapLeaves(db: DatabaseSpec, p: Path, v: Value)
    ensures LeafAt(Under(Initdb, InitdbFields(db)), p) == Some(v) <==> BootstrapLeaf(db, p, v)
  {
    AtUnder(Initdb, InitdbFields(db), p);
    if p.Dot? { InitdbLeaves(db, p.tail, v); }
  }

  lemma InitdbLeaves(db: DatabaseSpec, p: Path, v: Value)
    ensures LeafAt(InitdbFields(db), p) == Some(v)
            <==> (p == P1(Database) && v == Str(db.name)) || (p == P1(Owner) && v == Str(db.owner))
  {
    AtSum(map[P1(Database) := Str(db.name)], map[P1(Owner) := Str(db.owner)], p);
    AtOne(P1(Database), Str(db.name), p);
    AtOne(P1(Owner), Str(db.owner), p);
  }

  predicate SizedLeaf(spec: CrSpec, p: Path, v: Value)
    requires spec.PostgresSpec?
  {
    || (p == P1(Instances) && v == Int(spec.instances))
    || (p.Dot? && p.head == Storage && VolumeLeaf(spec.storage, Size, StorageClass, p.tail, v))
  }

  lemma SizedLeaves(spec: CrSpec, p: Path, v: Value)
    requires spec.PostgresSpec?
    ensures LeafAt(SizedFields(spec), p) == Some(v) <==> SizedLeaf(spec, p, v)
    ensures p.Dot? && p.head != Instances && p.head != Storage ==> LeafAt(SizedFields(spec), p) == None
  {
    var volume := VolumeFields(spec.storage, Size, StorageClass);
    AtSum(map[P1(Instances) := Int(spec.instances)], Under(Storage, volume), p);
    AtOne(P1(Instances), Int(spec.instances), p);
    AtUnder(Storage, volume, p);
    if p.Dot? { VolumeLeaves(spec.storage, Size, StorageClass, p.tail, v); }
  }

  lemma BaseLeaves(spec: CrSpec, p: Path, v: Value)
    requires spec.PostgresSpec?
    ensures LeafAt(BaseFields(spec), p) == Some(v) <==> BaseLeaf(spec, p, v)
  {
    SizedLeaves(spec, p, v);
    if p.Dot? { BootstrapLeaves(spec.database, p.tail, v); }
    AtBlock(SizedFields(spec), Bootstrap, Under(Initdb, InitdbFields(spec.database)), p, v, SizedLeaf(spec, p, v),
            p.Dot? && BootstrapLeaf(spec.database, p.tail, v));
  }

  lemma BaseApart(spec: CrSpec, p: Path)
    requires spec.PostgresSpec? && p.Dot? && p.head != Instances && p.head != Storage && p.head != Bootstrap
    ensures LeafAt(BaseFields(spec), p) == None
  {
    if LeafAt(BaseFields(spec), p).Some? { BaseLeaves(spec, p, LeafAt(BaseFields(spec), p).value); }
  }

  lemma CoreLeaves(spec: CrSpec, p: Path, v: Value)
    requires spec.PostgresSpec?
    ensures LeafAt(CoreFields(spec), p) == Some(v) <==> CoreLeaf(spec, p, v)
  {
    var tagged := BaseFields(spec) + Opt(spec.image != "", P1(ImageName), Str(spec.image));
    BaseLeaves(spec, p, v);
    if p.Dot? {
      if p.head == ImageName || p.head == Resources { BaseApart(spec, p); }
      ResourceLeaves(spec.resources, p.tail, v);
    }
    AtLeaf(BaseFields(spec), spec.image != "", ImageName, Str(spec.image), p, v, BaseLeaf(spec, p, v));
    AtBlock(tagged, Resources, ResourceFields(spec.resources), p, v,
            BaseLeaf(spec, p, v) || (p == P1(ImageName) && IsGiven(spec.image, v)),
            p.Dot? && ResourceLeaf(spec.resources, p.tail, v));
  }

  lemma ManagedLeaves(name: string, e: Option<ExposeSpec>, p: Path, v: Value)
    ensures LeafAt(ManagedFields(name, e), p) == Some(v)
            <==> p == P2(Services, Additional) && e.Some? && IsExposed(name, e.value, v)
  {
    if e.Some? {
      var service := ExposedService(name, e.value.serviceType, AnnotationValues(e.value.annotations));
      ExposedServiceIs(name, e.value);
      AtUnder(Services, map[P1(Additional) := service], p);
      if p.Dot? { AtOne(P1(Additional), service, p.tail); }
    } else {
      LeafAtIs(map[], p);
    }
  }

  lemma CoreApartFrom(spec: CrSpec, p: Path)
    requires spec.PostgresSpec? && p.Dot? && (p.head == Managed || p.head == Monitoring)
    ensures LeafAt(CoreFields(spec), p) == None
  {
    var image, resources := Opt(spec.image != "", P1(ImageName), Str(spec.image)), ResourceFields(spec.resources);
    BaseApart(spec, p);
    AtSum3(BaseFields(spec), image, Under(Resources, resources), p);
    AtOpt(spec.image != "", P1(ImageName), Str(spec.image), p);
    AtUnder(Resources, resources, p);
  }

  lemma ExposedLeaves(spec: CrSpec, name: string, p: Path, v: Value)
    requires spec.PostgresSpec?
    ensures LeafAt(CoreFields(spec) + Under(Managed, ManagedFields(name, spec.expose)), p) == Some(v)
            <==> CoreLeaf(spec, p, v) || ManagedLeaf(spec, name, p, v)
  {
    CoreLeaves(spec, p, v);
    if p.Dot? {
      if p.head == Managed { CoreApartFrom(spec, p); }
      ManagedLeaves(name, spec.expose, p.tail, v);
    }
    AtBlock(CoreFields(spec), Managed, ManagedFields(name, spec.expose), p, v, CoreLeaf(spec, p, v),
            p.Dot? && p.tail == P2(Services, Additional) && spec.expose.Some? && IsExposed(name, spec.expose.value, v));
  }

  lemma SpecLeaves(spec: CrSpec, name: string, p: Path, v: Value)
    requires spec.PostgresSpec?
    ensures LeafAt(SpecFields(spec, name), p) == Some(v) <==> SpecLeaf(spec, name, p, v)
  {
    var exposed := CoreFields(spec) + Under(Managed, ManagedFields(name, spec.expose));
    ExposedLeaves(spec, name, p, v);
    if p.Dot? {
      if p.head == Monitoring {
        CoreApartFrom(spec, p);
        AtSum(CoreFields(spec), Under(Managed, ManagedFields(name, spec.expose)), p);
        AtUnder(Managed, ManagedFields(name, spec.expose), p);
      }
      AtOpt(spec.enablePodMonitor, P1(EnablePodMonitor), Bool(true), p.tail);
    }
    AtBlock(exposed, Monitoring, MonitoringFields(spec.enablePodMonitor), p, v,
            CoreLeaf(spec, p, v) || ManagedLeaf(spec, name, p, v),
            p.Dot? && p.tail == P1(EnablePodMonitor) && spec.enablePodMonitor && v == Bool(true));
  }

  /** Every leaf of the applied Cluster: which field of the spec it carries, when it is absent,
      and that there is no other. */
  lemma ManifestLeaves(spec: CrSpec, name: string, owner: string, p: Path, v: Value)
    requires spec.PostgresSpec?
    ensures LeafAt(Manifest(spec, name, owner), p) == Some(v)
            <==> ObjectLeaf("postgrescluster-operator", owner, map[], p.Dot? && SpecLeaf(spec, name, p.tail, v), p, v)
  {
    if p.Dot? { SpecLeaves(spec, name, p.tail, v); }
    WholeLeaves(FIELD_MANAGER, owner, map[], SpecFields(spec, name), p.Dot? && SpecLeaf(spec, name, p.tail, v), p, v);
  }
}

/**
  Pieces every adapter's BuildManifest is put together from, and the typed reads
  (unstructured.NestedInt64 and friends) its ExtractStatus uses.
 */
module Manifests {
  import opened Types
  import opened Objects

  /** Both objects agree on that path. */
  predicate Agree(u: Fields, w: Fields, p: Path) {
    (p in u <==> p in w) && (p in u ==> u[p] == w[p])
  }

  // ---------------------------------------------------------------- metadata

  function AnnotationValues(annotations: map<string, string>): map<string, Value> {
    map k | k in annotations :: Str(annotations[k])
  }

  /** The annotation copy loop of BuildManifest (for example internal/mariadb/mariadb.go:130-133). */
  method CopyAnnotations(annotations: map<string, string>) returns (out: map<string, Value>)
    ensures out == AnnotationValues(annotations)
  {
    out := map[];
    var todo := annotations.Keys;
    while todo != {}
      invariant todo <= annotations.Keys
      invariant out == map k | k in annotations && k !in todo :: Str(annotations[k])
      decreases |todo|
    {
      var k :| k in todo;
      out := out[k := Str(annotations[k])];
      todo := todo - {k};
    }
  }

  /** Annotations as leaves; their keys are data. */
  function KeyFields(annotations: map<string, string>): Fields {
    map p | p in (set k | k in annotations :: P1(Key(k))) :: Str(annotations[p.head.name])
  }

  function Without(annotations: map<string, string>, todo: set<string>): map<string, string> {
    map k | k in annotations && k !in todo :: annotations[k]
  }

  lemma WithoutOneLess(annotations: map<string, string>, todo: set<string>, k: string)
    requires k in todo && k in annotations
    ensures Without(annotations, todo - {k}) == Without(annotations, todo)[k := annotations[k]]
  {
  }

  lemma KeyFieldsGrow(annotations: map<string, string>, k: string, v: string)
    ensures KeyFields(annotations[k := v]) == KeyFields(annotations) + map[P1(Key(k)) := Str(v)]
  {
    var left, right := KeyFields(annotations[k := v]), KeyFields(annotations) + map[P1(Key(k)) := Str(v)];
    forall p ensures (p in left <==> p in right) && (p in left ==> left[p] == right[p]) {
      if p.Dot? && p.head.Key? && p.tail.End? { assert p == P1(Key(p.head.name)); }
    }
  }

  lemma CopiedAll(annotations: map<string, string>)
    ensures KeyFields(Without(annotations, {})) == KeyFields(annotations)
    ensures KeyFields(Without(annotations, annotations.Keys)) == map[]
  {
    assert Without(annotations, {}) == annotations;
  }

  /** The same loop where the copy is a map of the object itself. */
  method AnnotationsOf(annotations: map<string, string>) returns (out: Object)
    ensures Flatten(out) == KeyFields(annotations)
  {
    out := Empty;
    EmptyFlattens();
    CopiedAll(annotations);
    var todo := annotations.Keys;
    while todo != {}
      invariant todo <= annotations.Keys
      invariant Flatten(out) == KeyFields(Without(annotations, todo))
      invariant forall k :: k in todo ==> !Has(out, Key(k))
      decreases |todo|
    {
      var k :| k in todo;
      WithoutOneLess(annotations, todo, k);
      KeyFieldsGrow(Without(annotations, todo), k, annotations[k]);
      out := Set(out, Key(k), Str(annotations[k]));
      todo := todo - {k};
    }
  }

  /** The two labels on every object the operator applies. */
  function LabelFields(manager: string, owner: string): Fields {
    map[P1(ManagedByLabel) := Str(manager)] + map[P1(OwnerLabel) := Str(owner)]
  }

  function MetaFields(manager: string, owner: string, annotations: map<string, string>): Fields {
    Under(Labels, LabelFields(manager, owner)) + Under(Annotations, KeyFields(annotations))
  }

  /** A whole object: labels, annotations and spec. Its kind, name and namespace are its key. */
  function Whole(manager: string, owner: string, annotations: map<string, string>, spec: Fields): Fields {
    Under(Metadata, MetaFields(manager, owner, annotations)) + Under(Spec, spec)
  }

  method LabelsOf(manager: string, owner: string) returns (labels: Object)
    ensures labels.Put? && Flatten(labels) == LabelFields(manager, owner)
  {
    labels := One(ManagedByLabel, Str(manager));
    labels := Set(labels, OwnerLabel, Str(owner));
  }

  /** SetLabels and, if there are any, SetAnnotations. */
  method MetadataOf(manager: string, owner: string, annotations: map<string, string>) returns (metadata: Object)
    ensures metadata.Put? && Flatten(metadata) == MetaFields(manager, owner, annotations)
  {
    var labels := LabelsOf(manager, owner);
    var copied := AnnotationsOf(annotations);
    metadata := TwoBlocks(Labels, labels, Annotations, copied);
  }

  /** The object with these labels and annotations, and that `u.Object["spec"]`. */
  method NewObject(manager: string, owner: string, annotations: map<string, string>, spec: Object) returns (u: Object)
    requires spec.Put?
    ensures Flatten(u) == Whole(manager, owner, annotations, Flatten(spec))
  {
    var metadata := MetadataOf(manager, owner, annotations);
    u := TwoBlocks(Metadata, metadata, Spec, spec);
  }

  lemma WholeWithoutStatus(manager: string, owner: string, annotations: map<string, string>, spec: Fields)
    ensures WithoutStatus(Whole(manager, owner, annotations, spec))
  {
    forall p | p in Whole(manager, owner, annotations, spec) ensures !InStatus(p) {
      UnderAt(Metadata, MetaFields(manager, owner, annotations), p);
      UnderAt(Spec, spec, p);
    }
  }

  lemma WholeAt(manager: string, owner: string, annotations: map<string, string>, spec: Fields, p: Path)
    ensures var w := Whole(manager, owner, annotations, spec);
            && (Dot(Spec, p) in w <==> p in spec)
            && (p in spec ==> w[Dot(Spec, p)] == spec[p])
  {
    UnderAt(Spec, spec, Dot(Spec, p));
    UnderAt(Metadata, MetaFields(manager, owner, annotations), Dot(Spec, p));
  }

  const MANAGED_BY := P3(Metadata, Labels, ManagedByLabel)

  lemma LeftOnly(a: Fields, b: Fields, p: Path)
    requires p in a && p !in b
    ensures p in a + b && (a + b)[p] == a[p]
  {
  }

  lemma LabelsManagedBy(manager: string, owner: string)
    ensures P1(ManagedByLabel) in LabelFields(manager, owner)
    ensures LabelFields(manager, owner)[P1(ManagedByLabel)] == Str(manager)
  {
  }

  lemma MetaManagedBy(manager: string, owner: string, annotations: map<string, string>)
    ensures var m := MetaFields(manager, owner, annotations); var p := P2(Labels, ManagedByLabel);
            p in m && m[p] == Str(manager)
  {
    var p := P2(Labels, ManagedByLabel);
    LabelsManagedBy(manager, owner);
    UnderAt(Labels, LabelFields(manager, owner), p);
    UnderAt(Annotations, KeyFields(annotations), p);
    LeftOnly(Under(Labels, LabelFields(manager, owner)), Under(Annotations, KeyFields(annotations)), p);
  }

  /** Every object carries its manager's label. */
  lemma ManagedByAt(manager: string, owner: string, annotations: map<string, string>, spec: Fields)
    ensures var w := Whole(manager, owner, annotations, spec); MANAGED_BY in w && w[MANAGED_BY] == Str(manager)
  {
    var meta := MetaFields(manager, owner, annotations);
    MetaManagedBy(manager, owner, annotations);
    UnderAt(Metadata, meta, MANAGED_BY);
    UnderAt(Spec, spec, MANAGED_BY);
    LeftOnly(Under(Metadata, meta), Under(Spec, spec), MANAGED_BY);
  }

  // ---------------------------------------------------------------- blocks of a spec

  function QuantityOf(list: map<string, string>, name: string): string {
    if name in list then list[name] else ""
  }

  /** The cpu and memory of a resource list; nothing else of it is rendered. */
  function QuantityFields(list: map<string, string>): Fields {
    Opt("cpu" in list, P1(Cpu), Str(QuantityOf(list, "cpu")))
    + Opt("memory" in list, P1(Memory), Str(QuantityOf(list, "memory")))
  }

  function ResourceFields(r: ResourceSpec): Fields {
    Under(Requests, QuantityFields(r.requests)) + Under(Limits, QuantityFields(r.limits))
  }

  /** resourceListJSON: nil when nothing is rendered, also for a list of other resources only. */
  method ResourceList(list: map<string, string>) returns (block: Option<Object>)
    ensures block.None? <==> "cpu" !in list && "memory" !in list
    ensures if block.Some? then block.value.Put? && Flatten(block.value) == QuantityFields(list)
            else QuantityFields(list) == map[]
  {
    if |list| == 0 { return None; }
    var out := Empty;
    EmptyFlattens();
    out := SetIf(out, "cpu" in list, Cpu, Str(QuantityOf(list, "cpu")));
    PlusNothing(Opt("cpu" in list, P1(Cpu), Str(QuantityOf(list, "cpu"))));
    out := SetIf(out, "memory" in list, Memory, Str(QuantityOf(list, "memory")));
    if out.Empty? { return None; }
    return Some(out);
  }

  /** The `resources` map of BuildManifest, empty when neither list renders anything. */
  method ResourcesOf(r: ResourceSpec) returns (resources: Object)
    ensures Flatten(resources) == ResourceFields(r)
  {
    resources := Empty;
    EmptyFlattens();
    PlusNothing(Under(Requests, QuantityFields(r.requests)));
    var requests := ResourceList(r.requests);
    resources := SetBlock(resources, Requests, if requests.Some? then requests.value else Empty);
    var limits := ResourceList(r.limits);
    resources := SetBlock(resources, Limits, if limits.Some? then limits.value else Empty);
  }

  /** Size and, if given, class, under the names the vendor uses for them. */
  function VolumeFields(st: StorageSpec, size: Seg, class_: Seg): Fields {
    map[P1(size) := Str(st.size)] + Opt(st.storageClass != "", P1(class_), Str(st.storageClass))
  }

  method VolumeOf(st: StorageSpec, size: Seg, class_: Seg) returns (storage: Object)
    requires size != class_
    ensures storage.Put? && Flatten(storage) == VolumeFields(st, size, class_)
  {
    storage := One(size, Str(st.size));
    storage := SetIf(storage, st.storageClass != "", class_, Str(st.storageClass));
  }

  const ACCESS_MODES := List([Str("ReadWriteOnce")])

  /** A PersistentVolumeClaim's spec. */
  function ClaimFields(st: StorageSpec): Fields {
    map[P1(AccessModes) := ACCESS_MODES] + Under(Resources, Under(Requests, map[P1(Storage) := Str(st.size)]))
    + Opt(st.storageClass != "", P1(StorageClassName), Str(st.storageClass))
  }

  method ClaimOf(st: StorageSpec) returns (pvcSpec: Object)
    ensures pvcSpec.Put? && Flatten(pvcSpec) == ClaimFields(st)
  {
    var requests := One(Storage, Str(st.size));
    var resources := OneBlock(Requests, requests);
    pvcSpec := One(AccessModes, ACCESS_MODES);
    pvcSpec := SetBlock(pvcSpec, Resources, resources);
    pvcSpec := SetIf(pvcSpec, st.storageClass != "", StorageClassName, Str(st.storageClass));
  }

  // ---------------------------------------------------------------- the blocks, leaf by leaf

  // Each table says which leaf `p` holds which value `v`; a leaf it has no line for is absent.

  /** A text that is only rendered if it is not empty. */
  predicate IsGiven(text: string, v: Value) {
    text != "" && v == Str(text)
  }

  predicate IsQuantity(list: map<string, string>, name: string, v: Value) {
    name in list && v == Str(list[name])
  }

  predicate ResourceLeaf(r: ResourceSpec, p: Path, v: Value) {
    || (p == P2(Requests, Cpu) && IsQuantity(r.requests, "cpu", v))
    || (p == P2(Requests, Memory) && IsQuantity(r.requests, "memory", v))
    || (p == P2(Limits, Cpu) && IsQuantity(r.limits, "cpu", v))
    || (p == P2(Limits, Memory) && IsQuantity(r.limits, "memory", v))
  }

  lemma QuantityLeaves(list: map<string, string>, p: Path, v: Value)
    ensures LeafAt(QuantityFields(list), p) == Some(v)
            <==> (p == P1(Cpu) && IsQuantity(list, "cpu", v)) || (p == P1(Memory) && IsQuantity(list, "memory", v))
  {
    var cpu, memory := Str(QuantityOf(list, "cpu")), Str(QuantityOf(list, "memory"));
    AtSum(Opt("cpu" in list, P1(Cpu), cpu), Opt("memory" in list, P1(Memory), memory), p);
    AtOpt("cpu" in list, P1(Cpu), cpu, p);
    AtOpt("memory" in list, P1(Memory), memory, p);
  }

  lemma ResourceLeaves(r: ResourceSpec, p: Path, v: Value)
    ensures LeafAt(ResourceFields(r), p) == Some(v) <==> ResourceLeaf(r, p, v)
  {
    AtUnders(Requests, QuantityFields(r.requests), Limits, QuantityFields(r.limits), p);
    if p.Dot? {
      QuantityLeaves(r.requests, p.tail, v);
      QuantityLeaves(r.limits, p.tail, v);
    }
  }

  predicate VolumeLeaf(st: StorageSpec, size: Seg, class_: Seg, p: Path, v: Value) {
    (p == P1(size) && v == Str(st.size)) || (p == P1(class_) && IsGiven(st.storageClass, v))
  }

  lemma VolumeLeaves(st: StorageSpec, size: Seg, class_: Seg, p: Path, v: Value)
    requires size != class_
    ensures LeafAt(VolumeFields(st, size, class_), p) == Some(v) <==> VolumeLeaf(st, size, class_, p, v)
  {
    AtSum(map[P1(size) := Str(st.size)], Opt(st.storageClass != "", P1(class_), Str(st.storageClass)), p);
    AtOne(P1(size), Str(st.size), p);
    AtOpt(st.storageClass != "", P1(class_), Str(st.storageClass), p);
  }

  predicate ClaimLeaf(st: StorageSpec, p: Path, v: Value) {
    || (p == P1(AccessModes) && v == List([Str("ReadWriteOnce")]))
    || (p == P3(Resources, Requests, Storage) && v == Str(st.size))
    || (p == P1(StorageClassName) && IsGiven(st.storageClass, v))
  }

  lemma ClaimLeaves(st: StorageSpec, p: Path, v: Value)
    ensures LeafAt(ClaimFields(st), p) == Some(v) <==> ClaimLeaf(st, p, v)
  {
    AtSum3(map[P1(AccessModes) := ACCESS_MODES], Under(Resources, Under(Requests, map[P1(Storage) := Str(st.size)])),
           Opt(st.storageClass != "", P1(StorageClassName), Str(st.storageClass)), p);
    AtOne(P1(AccessModes), ACCESS_MODES, p);
    AtUnder2(Resources, Requests, P1(Storage), Str(st.size), p);
    AtOpt(st.storageClass != "", P1(StorageClassName), Str(st.storageClass), p);
  }

  predicate AnnotationLeaf(annotations: map<string, string>, p: Path, v: Value) {
    && p.Dot? && p.head.Key? && p.tail.End?
    && p.head.name in annotations && v == Str(annotations[p.head.name])
  }

  lemma KeyLeaves(annotations: map<string, string>, p: Path, v: Value)
    ensures LeafAt(KeyFields(annotations), p) == Some(v) <==> AnnotationLeaf(annotations, p, v)
  {
    LeafAtIs(KeyFields(annotations), p);
    if p.Dot? && p.head.Key? && p.tail.End? { assert p == P1(Key(p.head.name)); }
  }

  predicate LabelLeaf(manager: string, owner: string, p: Path, v: Value) {
    (p == P1(ManagedByLabel) && v == Str(manager)) || (p == P1(OwnerLabel) && v == Str(owner))
  }

  lemma LabelLeaves(manager: string, owner: string, p: Path, v: Value)
    ensures LeafAt(LabelFields(manager, owner), p) == Some(v) <==> LabelLeaf(manager, owner, p, v)
  {
    AtSum(map[P1(ManagedByLabel) := Str(manager)], map[P1(OwnerLabel) := Str(owner)], p);
    AtOne(P1(ManagedByLabel), Str(manager), p);
    AtOne(P1(OwnerLabel), Str(owner), p);
  }

  predicate MetaLeaf(manager: string, owner: string, annotations: map<string, string>, p: Path, v: Value) {
    || (p.Dot? && p.head == Labels && LabelLeaf(manager, owner, p.tail, v))
    || (p.Dot? && p.head == Annotations && AnnotationLeaf(annotations, p.tail, v))
  }

  lemma MetaLeaves(manager: string, owner: string, annotations: map<string, string>, p: Path, v: Value)
    ensures LeafAt(MetaFields(manager, owner, annotations), p) == Some(v)
            <==> MetaLeaf(manager, owner, annotations, p, v)
  {
    AtUnders(Labels, LabelFields(manager, owner), Annotations, KeyFields(annotations), p);
    if p.Dot? {
      LabelLeaves(manager, owner, p.tail, v);
      KeyLeaves(annotations, p.tail, v);
    }
  }

  /** A whole object: two labels, its annotations, its spec, and nothing else. `inSpec` is what
      its spec's table says of the rest of the path. */
  predicate ObjectLeaf(manager: string, owner: string, annotations: map<string, string>, inSpec: bool,
                       p: Path, v: Value) {
    || (p.Dot? && p.head == Metadata && MetaLeaf(manager, owner, annotations, p.tail, v))
    || (p.Dot? && p.head == Spec && inSpec)
  }

  lemma WholeLeaves(manager: string, owner: string, annotations: map<string, string>, f: Fields, inSpec: bool,
                    p: Path, v: Value)
    requires p.Dot? ==> (LeafAt(f, p.tail) == Some(v) <==> inSpec)
    ensures LeafAt(Whole(manager, owner, annotations, f), p) == Some(v)
            <==> ObjectLeaf(manager, owner, annotations, inSpec, p, v)
  {
    AtUnders(Metadata, MetaFields(manager, owner, annotations), Spec, f, p);
    if p.Dot? { MetaLeaves(manager, owner, annotations, p.tail, v); }
  }

  // ---------------------------------------------------------------- typed reads

  /** unstructured.NestedInt64 with its not-found and wrong-type cases read as 0. */
  function Int64At(f: Fields, p: Path): int64 {
    if p in f && f[p].Int? then f[p].i else 0
  }

  function StringAt(f: Fields, p: Path): string {
    if p in f && f[p].Str? then f[p].s else ""
  }

  predicate TrueAt(f: Fields, p: Path) {
    p in f && f[p].Bool? && f[p].b
  }

  function ListAt(f: Fields, p: Path): seq<Value> {
    if p in f && f[p].List? then f[p].items else []
  }

  /** `if !found || text == "" { text = "Unknown" }` */
  function OrUnknown(s: string): string {
    if s == "" then "Unknown" else s
  }
}

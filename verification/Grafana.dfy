/** The Grafana adapter (internal/grafana/grafana.go). */
module Grafana {
  import opened Types
  import opened Objects
  import opened Manifests
  import IngressBuilder

  const GVK := Gvk("grafana.integreatly.org", "v1beta1", "Grafana")
  const FIELD_MANAGER := "grafanainstance-operator"

  const REPLICAS := P4(Spec, Deployment, Spec, Replicas)

  function RuleFields(i: IngressSpec): Fields {
    map[P1(Rules) := List([Map(map["host" := Str(i.host)])])]
    + Opt(i.ingressClassName != "", P1(IngressClassName), Str(i.ingressClassName))
    + Opt(i.tlsSecretName != "", P1(Tls), IngressBuilder.TlsBlock(i.host, i.tlsSecretName))
  }

  /** Grafana's own ingress block, under its target's `spec.ingress`. */
  function IngressFields(i: Option<IngressSpec>): Fields {
    if i.Some?
    then Under(Spec, RuleFields(i.value)) + Under(Metadata, Under(Annotations, KeyFields(i.value.annotations)))
    else map[]
  }

  function VolumeClaimFields(v: Option<StorageSpec>): Fields {
    if v.Some? then Under(Spec, ClaimFields(v.value)) else map[]
  }

  function BaseFields(spec: CrSpec): Fields
    requires spec.GrafanaSpec?
  {
    Under(Deployment, Under(Spec, map[P1(Replicas) := Int(spec.replicas)]))
    + Opt(spec.version != "", P1(VersionTag), Str(spec.version))
  }

  function SpecFields(spec: CrSpec): Fields
    requires spec.GrafanaSpec?
  {
    BaseFields(spec) + Under(Ingress, IngressFields(spec.ingress))
    + Under(PersistentVolumeClaim, VolumeClaimFields(spec.volume))
  }

  /** The leaves of the desired Grafana. */
  function Manifest(spec: CrSpec, owner: string): Fields
    requires spec.GrafanaSpec?
  {
    Whole(FIELD_MANAGER, owner, map[], SpecFields(spec))
  }

  method RulesOf(i: IngressSpec) returns (ingressSpec: Object)
    ensures ingressSpec.Put? && Flatten(ingressSpec) == RuleFields(i)
  {
    ingressSpec := One(Rules, List([Map(map["host" := Str(i.host)])]));
    ingressSpec := SetIf(ingressSpec, i.ingressClassName != "", IngressClassName, Str(i.ingressClassName));
    ingressSpec := SetIf(ingressSpec, i.tlsSecretName != "", Tls, IngressBuilder.TlsBlock(i.host, i.tlsSecretName));
  }

  method IngressOf(i: Option<IngressSpec>) returns (ingress: Object)
    ensures Flatten(ingress) == IngressFields(i)
  {
    EmptyFlattens();
    if i.None? { return Empty; }
    var ingressSpec := RulesOf(i.value);
    var annotations := AnnotationsOf(i.value.annotations);
    PlusNothing(Under(Annotations, KeyFields(i.value.annotations)));
    var metadata := SetBlock(Empty, Annotations, annotations);
    ingress := TwoBlocks(Spec, ingressSpec, Metadata, metadata);
  }

  method VolumeClaimOf(v: Option<StorageSpec>) returns (claim: Object)
    ensures Flatten(claim) == VolumeClaimFields(v)
  {
    EmptyFlattens();
    if v.None? { return Empty; }
    var pvcSpec := ClaimOf(v.value);
    claim := OneBlock(Spec, pvcSpec);
  }

  method BaseOf(spec: CrSpec) returns (grafanaSpec: Object)
    requires spec.GrafanaSpec?
    ensures grafanaSpec.Put? && Flatten(grafanaSpec) == BaseFields(spec)
    ensures !Has(grafanaSpec, Ingress) && !Has(grafanaSpec, PersistentVolumeClaim)
  {
    var deploymentSpec := One(Replicas, Int(spec.replicas));
    var deployment := OneBlock(Spec, deploymentSpec);
    grafanaSpec := OneBlock(Deployment, deployment);
    grafanaSpec := SetIf(grafanaSpec, spec.version != "", VersionTag, Str(spec.version));
  }

  /** The object as the code nests it: its leaves are exactly the manifest. */
  method BuildManifest(spec: CrSpec, owner: string) returns (u: Object)
    requires spec.GrafanaSpec?
    ensures Flatten(u) == Manifest(spec, owner)
  {
    var grafanaSpec := BaseOf(spec);
    var ingress := IngressOf(spec.ingress);
    grafanaSpec := SetBlock(grafanaSpec, Ingress, ingress);
    var claim := VolumeClaimOf(spec.volume);
    grafanaSpec := SetBlock(grafanaSpec, PersistentVolumeClaim, claim);
    u := NewObject(FIELD_MANAGER, owner, map[], grafanaSpec);
  }

  function Extract(f: Fields): TargetStatus {
    var stage := OrUnknown(StringAt(f, P2(Status, Stage)));
    var stageStatus := StringAt(f, P2(Status, StageStatus));
    var desired := if REPLICAS in f && f[REPLICAS].Int? then f[REPLICAS].i else 1;
    TargetStatus(stage + "/" + stageStatus, stage == "complete" && stageStatus == "success",
                 ToInt32(desired), ToInt32(Int64At(f, P2(Status, Replicas))))
  }

  lemma ManifestWithoutStatus(spec: CrSpec, owner: string)
    requires spec.GrafanaSpec?
    ensures WithoutStatus(Manifest(spec, owner))
  {
    WholeWithoutStatus(FIELD_MANAGER, owner, map[], SpecFields(spec));
  }

  lemma ManifestReplicas(spec: CrSpec, owner: string)
    requires spec.GrafanaSpec?
    ensures REPLICAS in Manifest(spec, owner) && Manifest(spec, owner)[REPLICAS] == Int(spec.replicas)
  {
    var p := P3(Deployment, Spec, Replicas);
    var counted := map[P1(Replicas) := Int(spec.replicas)];
    WholeAt(FIELD_MANAGER, owner, map[], SpecFields(spec), p);
    UnderOne(Spec, P1(Replicas), Int(spec.replicas));
    UnderOne(Deployment, P2(Spec, Replicas), Int(spec.replicas));
    UnderAt(Ingress, IngressFields(spec.ingress), p);
    UnderAt(PersistentVolumeClaim, VolumeClaimFields(spec.volume), p);
    SumKeeps(BaseFields(spec), Under(Ingress, IngressFields(spec.ingress)),
             Under(PersistentVolumeClaim, VolumeClaimFields(spec.volume)), p);
  }

  // ---------------------------------------------------------------- leaf by leaf

  /** Grafana's own ingress block: the host without a backend, class and TLS. */
  predicate RuleLeaf(i: IngressSpec, p: Path, v: Value) {
    || (p == P1(Rules) && v == List([Map(map["host" := Str(i.host)])]))
    || (p == P1(IngressClassName) && IsGiven(i.ingressClassName, v))
    || (p == P1(Tls) && IngressBuilder.IsTls(i.host, i.tlsSecretName, v))
  }

  predicate IngressLeaf(i: IngressSpec, p: Path, v: Value) {
    || (p.Dot? && p.head == Spec && RuleLeaf(i, p.tail, v))
    || (p.Dot? && p.head == Metadata && p.tail.Dot? && p.tail.head == Annotations
        && AnnotationLeaf(i.annotations, p.tail.tail, v))
  }

  predicate BaseLeaf(spec: CrSpec, p: Path, v: Value)
    requires spec.GrafanaSpec?
  {
    || (p == P3(Deployment, Spec, Replicas) && v == Int(spec.replicas))
    || (p == P1(VersionTag) && IsGiven(spec.version, v))
  }

  predicate SpecLeaf(spec: CrSpec, p: Path, v: Value)
    requires spec.GrafanaSpec?
  {
    || BaseLeaf(spec, p, v)
    || (p.Dot? && p.head == Ingress && spec.ingress.Some? && IngressLeaf(spec.ingress.value, p.tail, v))
    || (p.Dot? && p.head == PersistentVolumeClaim && spec.volume.Some?
        && p.tail.Dot? && p.tail.head == Spec && ClaimLeaf(spec.volume.value, p.tail.tail, v))
  }

  lemma RuleLeaves(i: IngressSpec, p: Path, v: Value)
    ensures LeafAt(RuleFields(i), p) == Some(v) <==> RuleLeaf(i, p, v)
  {
    var rules, tls := List([Map(map["host" := Str(i.host)])]), IngressBuilder.TlsBlock(i.host, i.tlsSecretName);
    var class_ := Str(i.ingressClassName);
    assert i.tlsSecretName != "" ==> IngressBuilder.IsTls(i.host, i.tlsSecretName, tls);
    AtSum3(map[P1(Rules) := rules], Opt(i.ingressClassName != "", P1(IngressClassName), class_),
           Opt(i.tlsSecretName != "", P1(Tls), tls), p);
    AtOne(P1(Rules), rules, p);
    AtOpt(i.ingressClassName != "", P1(IngressClassName), class_, p);
    AtOpt(i.tlsSecretName != "", P1(Tls), tls, p);
  }

  lemma IngressLeaves(i: Option<IngressSpec>, p: Path, v: Value)
    ensures LeafAt(IngressFields(i), p) == Some(v) <==> i.Some? && IngressLeaf(i.value, p, v)
  {
    if i.Some? {
      var notes := KeyFields(i.value.annotations);
      AtUnders(Spec, RuleFields(i.value), Metadata, Under(Annotations, notes), p);
      if p.Dot? {
        RuleLeaves(i.value, p.tail, v);
        AtUnder(Annotations, notes, p.tail);
        if p.tail.Dot? { KeyLeaves(i.value.annotations, p.tail.tail, v); }
      }
    } else {
      LeafAtIs(map[], p);
    }
  }

  lemma VolumeClaimLeaves(c: Option<StorageSpec>, p: Path, v: Value)
    ensures LeafAt(VolumeClaimFields(c), p) == Some(v)
            <==> c.Some? && p.Dot? && p.head == Spec && ClaimLeaf(c.value, p.tail, v)
  {
    if c.Some? {
      AtUnder(Spec, ClaimFields(c.value), p);
      if p.Dot? { ClaimLeaves(c.value, p.tail, v); }
    } else {
      LeafAtIs(map[], p);
    }
  }

  lemma BaseLeaves(spec: CrSpec, p: Path, v: Value)
    requires spec.GrafanaSpec?
    ensures LeafAt(BaseFields(spec), p) == Some(v) <==> BaseLeaf(spec, p, v)
  {
    AtSum(Under(Deployment, Under(Spec, map[P1(Replicas) := Int(spec.replicas)])),
          Opt(spec.version != "", P1(VersionTag), Str(spec.version)), p);
    AtUnder2(Deployment, Spec, P1(Replicas), Int(spec.replicas), p);
    AtOpt(spec.version != "", P1(VersionTag), Str(spec.version), p);
  }

  lemma SpecLeaves(spec: CrSpec, p: Path, v: Value)
    requires spec.GrafanaSpec?
    ensures LeafAt(SpecFields(spec), p) == Some(v) <==> SpecLeaf(spec, p, v)
  {
    var ingress, claim := IngressFields(spec.ingress), VolumeClaimFields(spec.volume);
    AtSum3(BaseFields(spec), Under(Ingress, ingress), Under(PersistentVolumeClaim, claim), p);
    BaseLeaves(spec, p, v);
    AtUnder(Ingress, ingress, p);
    AtUnder(PersistentVolumeClaim, claim, p);
    if p.Dot? {
      IngressLeaves(spec.ingress, p.tail, v);
      VolumeClaimLeaves(spec.volume, p.tail, v);
    }
  }

  /** Every leaf of the applied Grafana: which field of the spec it carries, when it is absent,
      and that there is no other. */
  lemma ManifestLeaves(spec: CrSpec, owner: string, p: Path, v: Value)
    requires spec.GrafanaSpec?
    ensures LeafAt(Manifest(spec, owner), p) == Some(v)
            <==> ObjectLeaf("grafanainstance-operator", owner, map[], p.Dot? && SpecLeaf(spec, p.tail, v), p, v)
  {
    if p.Dot? { SpecLeaves(spec, p.tail, v); }
    WholeLeaves(FIELD_MANAGER, owner, map[], SpecFields(spec), p.Dot? && SpecLeaf(spec, p.tail, v), p, v);
  }
}

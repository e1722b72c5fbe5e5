/**
  What an Update does to a spec on its way through JSON: the Go struct is encoded with
  `omitempty`/`omitzero`, the API server applies the CRD's defaults, and the next read
  decodes the stored document (the types under api/v1alpha1, the schemas under config/crd/bases).
 */
module Codec {
  import opened Types

  // A field is None when its key is absent from the document.
  datatype WireStorage = WireStorage(size: string, storageClass: Option<string>)
  datatype WireExpose = WireExpose(serviceType: Option<string>, annotations: Option<map<string, string>>)
  datatype WireIngress = WireIngress(
    host: string, ingressClassName: Option<string>, tlsSecretName: Option<string>,
    annotations: Option<map<string, string>>)
  datatype WireMonitoring = WireMonitoring(enablePodMonitor: Option<bool>)
  datatype WireClaim = WireClaim(name: string, request: Option<string>)
  datatype WireResources = WireResources(
    requests: Option<map<string, string>>, limits: Option<map<string, string>>, claims: Option<seq<WireClaim>>)

  datatype Wire =
    | PostgresDoc(instances: Option<int32>, image: Option<string>, storage: WireStorage, database: DatabaseSpec,
                  resources: Option<WireResources>, monitoring: Option<WireMonitoring>, expose: Option<WireExpose>)
    | MariaDBDoc(replicas: Option<int32>, image: Option<string>, storage: WireStorage, database: DatabaseSpec,
                 resources: Option<WireResources>, monitoring: Option<WireMonitoring>, expose: Option<WireExpose>)
    | RabbitMQDoc(replicas: Option<int32>, image: Option<string>, storage: WireStorage,
                  resources: Option<WireResources>, ingress: Option<WireIngress>)
    | ValkeyDoc(shards: Option<int32>, replicas: Option<int32>, image: Option<string>, persistence: WireStorage,
                resources: Option<WireResources>, expose: Option<WireExpose>)
    | GrafanaDoc(version: Option<string>, replicas: Option<int32>, volume: Option<WireStorage>,
                 ingress: Option<WireIngress>)
    | PrometheusDoc(version: Option<string>, replicas: Option<int32>, retention: Option<string>,
                    volume: Option<WireStorage>, resources: Option<WireResources>, ingress: Option<WireIngress>)

  // ---------------------------------------------------------------- decoding: absent is zero

  function Int32Or0(o: Option<int32>): int32 { if o.Some? then o.value else 0 }
  function TextOrEmpty(o: Option<string>): string { if o.Some? then o.value else "" }
  function MapOrEmpty(o: Option<map<string, string>>): map<string, string> { if o.Some? then o.value else map[] }

  function DecodeStorage(w: WireStorage): StorageSpec { StorageSpec(w.size, TextOrEmpty(w.storageClass)) }

  function DecodeVolume(w: Option<WireStorage>): Option<StorageSpec> {
    if w.Some? then Some(DecodeStorage(w.value)) else None
  }

  function DecodeExpose(w: Option<WireExpose>): Option<ExposeSpec> {
    if w.Some? then Some(ExposeSpec(TextOrEmpty(w.value.serviceType), MapOrEmpty(w.value.annotations))) else None
  }

  function DecodeIngress(w: Option<WireIngress>): Option<IngressSpec> {
    if w.Some?
    then Some(IngressSpec(w.value.host, TextOrEmpty(w.value.ingressClassName), TextOrEmpty(w.value.tlsSecretName),
                          MapOrEmpty(w.value.annotations)))
    else None
  }

  function DecodeClaims(w: Option<seq<WireClaim>>): seq<ResourceClaim> {
    if w.Some?
    then seq(|w.value|, i requires 0 <= i < |w.value| =>
               ResourceClaim(w.value[i].name, TextOrEmpty(w.value[i].request)))
    else []
  }

  function DecodeResources(w: Option<WireResources>): ResourceSpec {
    if w.Some?
    then ResourceSpec(MapOrEmpty(w.value.requests), MapOrEmpty(w.value.limits), DecodeClaims(w.value.claims))
    else NO_RESOURCES
  }

  function DecodeMonitoring(w: Option<WireMonitoring>): bool {
    w.Some? && w.value.enablePodMonitor == Some(true)
  }

  function Decode(w: Wire): CrSpec {
    match w
    case PostgresDoc(n, image, st, db, r, m, e) =>
      PostgresSpec(Int32Or0(n), TextOrEmpty(image), DecodeStorage(st), db, DecodeResources(r), DecodeMonitoring(m),
                   DecodeExpose(e))
    case MariaDBDoc(n, image, st, db, r, m, e) =>
      MariaDBSpec(Int32Or0(n), TextOrEmpty(image), DecodeStorage(st), db, DecodeResources(r), DecodeMonitoring(m),
                  DecodeExpose(e))
    case RabbitMQDoc(n, image, st, r, i) =>
      RabbitMQSpec(Int32Or0(n), TextOrEmpty(image), DecodeStorage(st), DecodeResources(r), DecodeIngress(i))
    case ValkeyDoc(s, n, image, p, r, e) =>
      ValkeySpec(Int32Or0(s), Int32Or0(n), TextOrEmpty(image), DecodeStorage(p), DecodeResources(r), DecodeExpose(e))
    case GrafanaDoc(v, n, vol, i) =>
      GrafanaSpec(TextOrEmpty(v), Int32Or0(n), DecodeVolume(vol), DecodeIngress(i))
    case PrometheusDoc(v, n, ret, vol, r, i) =>
      PrometheusSpec(TextOrEmpty(v), Int32Or0(n), TextOrEmpty(ret), DecodeVolume(vol), DecodeResources(r),
                     DecodeIngress(i))
  }

  // ---------------------------------------------------------------- encoding: zero is omitted

  function OmitZero(n: int32): Option<int32> { if n == 0 then None else Some(n) }
  function OmitEmpty(s: string): Option<string> { if s == "" then None else Some(s) }
  function OmitEmptyMap(m: map<string, string>): Option<map<string, string>> { if m == map[] then None else Some(m) }

  function EncodeStorage(s: StorageSpec): WireStorage { WireStorage(s.size, OmitEmpty(s.storageClass)) }

  function EncodeVolume(v: Option<StorageSpec>): Option<WireStorage> {
    if v.Some? then Some(EncodeStorage(v.value)) else None
  }

  function EncodeExpose(e: Option<ExposeSpec>): Option<WireExpose> {
    if e.Some? then Some(WireExpose(OmitEmpty(e.value.serviceType), OmitEmptyMap(e.value.annotations))) else None
  }

  function EncodeIngress(i: Option<IngressSpec>): Option<WireIngress> {
    if i.Some?
    then Some(WireIngress(i.value.host, OmitEmpty(i.value.ingressClassName), OmitEmpty(i.value.tlsSecretName),
                          OmitEmptyMap(i.value.annotations)))
    else None
  }

  function EncodeClaims(cs: seq<ResourceClaim>): Option<seq<WireClaim>> {
    if cs == [] then None
    else Some(seq(|cs|, i requires 0 <= i < |cs| => WireClaim(cs[i].name, OmitEmpty(cs[i].request))))
  }

  function EncodeResources(r: ResourceSpec): Option<WireResources> {
    if r == NO_RESOURCES then None
    else Some(WireResources(OmitEmptyMap(r.requests), OmitEmptyMap(r.limits), EncodeClaims(r.claims)))
  }

  function EncodeMonitoring(enable: bool): Option<WireMonitoring> {
    if enable then Some(WireMonitoring(Some(true))) else None
  }

  function Encode(s: CrSpec): Wire {
    match s
    case PostgresSpec(n, image, st, db, r, m, e) =>
      PostgresDoc(OmitZero(n), OmitEmpty(image), EncodeStorage(st), db, EncodeResources(r), EncodeMonitoring(m),
                  EncodeExpose(e))
    case MariaDBSpec(n, image, st, db, r, m, e) =>
      MariaDBDoc(OmitZero(n), OmitEmpty(image), EncodeStorage(st), db, EncodeResources(r), EncodeMonitoring(m),
                 EncodeExpose(e))
    case RabbitMQSpec(n, image, st, r, i) =>
      RabbitMQDoc(OmitZero(n), OmitEmpty(image), EncodeStorage(st), EncodeResources(r), EncodeIngress(i))
    case ValkeySpec(sh, n, image, p, r, e) =>
      ValkeyDoc(OmitZero(sh), OmitZero(n), OmitEmpty(image), EncodeStorage(p), EncodeResources(r), EncodeExpose(e))
    case GrafanaSpec(v, n, vol, i) =>
      GrafanaDoc(OmitEmpty(v), OmitZero(n), EncodeVolume(vol), EncodeIngress(i))
    case PrometheusSpec(v, n, ret, vol, r, i) =>
      PrometheusDoc(OmitEmpty(v), OmitZero(n), OmitEmpty(ret), EncodeVolume(vol), EncodeResources(r), EncodeIngress(i))
  }

  // ---------------------------------------------------------------- CRD defaulting

  function OrElse<T>(o: Option<T>, d: T): Option<T> { if o.Some? then o else Some(d) }

  /** Nested defaults only apply where the enclosing object is present. */
  function DefaultExpose(w: Option<WireExpose>): Option<WireExpose> {
    if w.Some? then Some(w.value.(serviceType := OrElse(w.value.serviceType, "LoadBalancer"))) else None
  }

  function DefaultMonitoring(w: Option<WireMonitoring>): Option<WireMonitoring> {
    if w.Some? then Some(WireMonitoring(OrElse(w.value.enablePodMonitor, true))) else None
  }

  function Default(w: Wire): Wire {
    match w
    case PostgresDoc(n, image, st, db, r, m, e) =>
      PostgresDoc(OrElse(n, 1), image, st, db, r, DefaultMonitoring(m), DefaultExpose(e))
    case MariaDBDoc(n, image, st, db, r, m, e) =>
      MariaDBDoc(OrElse(n, 1), image, st, db, r, DefaultMonitoring(m), DefaultExpose(e))
    case RabbitMQDoc(n, image, st, r, i) => RabbitMQDoc(OrElse(n, 1), image, st, r, i)
    case ValkeyDoc(s, n, image, p, r, e) => ValkeyDoc(OrElse(s, 1), OrElse(n, 0), image, p, r, DefaultExpose(e))
    case GrafanaDoc(v, n, vol, i) => GrafanaDoc(v, OrElse(n, 1), vol, i)
    case PrometheusDoc(v, n, ret, vol, r, i) => PrometheusDoc(v, OrElse(n, 1), ret, vol, r, i)
  }

  // ---------------------------------------------------------------- admission

  predicate CountOk(n: Option<int32>, minimum: int32) { n.Some? && n.value >= minimum }

  predicate ExposeOk(w: Option<WireExpose>) {
    w.Some? ==> w.value.serviceType.Some? && w.value.serviceType.value in {"LoadBalancer", "NodePort"}
  }

  predicate MonitoringOk(w: Option<WireMonitoring>) { w.Some? ==> w.value.enablePodMonitor.Some? }

  /** A document as the API server stores it: defaulted, within the minimums and enums. */
  predicate Admitted(w: Wire) {
    match w
    case PostgresDoc(n, _, _, _, _, m, e) => CountOk(n, 1) && MonitoringOk(m) && ExposeOk(e)
    case MariaDBDoc(n, _, _, _, _, m, e) => CountOk(n, 1) && MonitoringOk(m) && ExposeOk(e)
    case RabbitMQDoc(n, _, _, _, _) => CountOk(n, 1)
    case ValkeyDoc(s, n, _, _, _, e) => CountOk(s, 1) && CountOk(n, 0) && ExposeOk(e)
    case GrafanaDoc(_, n, _, _) => CountOk(n, 0)
    case PrometheusDoc(_, n, _, _, _, _) => CountOk(n, 0)
  }

  /** The spec the next read sees after an Update that submits `s`. */
  function Stored(s: CrSpec): CrSpec {
    Decode(Default(Encode(s)))
  }

  /** The document that an Update of what was read stores. */
  function Recoded(w: Wire): Wire {
    Default(Encode(Decode(w)))
  }

  /** The one case in which `omitempty` drops a value the CRD then defaults to another one. */
  predicate ZeroReplicasDropped(s: CrSpec) {
    (s.GrafanaSpec? || s.PrometheusSpec?) && s.replicas == 0
  }

  function WithOneReplica(s: CrSpec): CrSpec
    requires ZeroReplicasDropped(s)
  {
    match s
    case GrafanaSpec(v, _, vol, i) => GrafanaSpec(v, 1, vol, i)
    case PrometheusSpec(v, _, ret, vol, r, i) => PrometheusSpec(v, 1, ret, vol, r, i)
  }

  lemma ClaimsRoundTrip(cs: seq<ResourceClaim>)
    ensures DecodeClaims(EncodeClaims(cs)) == cs
  {
    var back := DecodeClaims(EncodeClaims(cs));
    assert |back| == |cs| && forall i :: 0 <= i < |cs| ==> back[i] == cs[i];
  }

  lemma PartsRoundTrip(st: StorageSpec, v: Option<StorageSpec>, i: Option<IngressSpec>, r: ResourceSpec, m: bool)
    ensures DecodeStorage(EncodeStorage(st)) == st
    ensures DecodeVolume(EncodeVolume(v)) == v
    ensures DecodeIngress(EncodeIngress(i)) == i
    ensures DecodeResources(EncodeResources(r)) == r
    ensures DecodeMonitoring(DefaultMonitoring(EncodeMonitoring(m))) == m
  {
    ClaimsRoundTrip(r.claims);
  }

  /** The finalizer write preserves the spec, exactly unless replicas is 0 on a Grafana or
      Prometheus instance; there it comes back as 1. For every stored document. */
  lemma FinalizerWritePreservesSpec(w: Wire)
    requires Admitted(w)
    ensures Stored(Decode(w)) == Decode(w) <==> !ZeroReplicasDropped(Decode(w))
    ensures ZeroReplicasDropped(Decode(w)) ==> Stored(Decode(w)) == WithOneReplica(Decode(w))
    ensures Admitted(Recoded(w))
  {
    match w {
      case PostgresDoc(_, _, st, _, r, m, _) =>
        PartsRoundTrip(DecodeStorage(st), None, None, DecodeResources(r), DecodeMonitoring(m));
      case MariaDBDoc(_, _, st, _, r, m, _) =>
        PartsRoundTrip(DecodeStorage(st), None, None, DecodeResources(r), DecodeMonitoring(m));
      case RabbitMQDoc(_, _, st, r, i) =>
        PartsRoundTrip(DecodeStorage(st), None, DecodeIngress(i), DecodeResources(r), false);
      case ValkeyDoc(_, _, _, p, r, _) => PartsRoundTrip(DecodeStorage(p), None, None, DecodeResources(r), false);
      case GrafanaDoc(_, _, vol, i) =>
        PartsRoundTrip(StorageSpec("", ""), DecodeVolume(vol), DecodeIngress(i), NO_RESOURCES, false);
      case PrometheusDoc(_, _, _, vol, r, i) =>
        PartsRoundTrip(StorageSpec("", ""), DecodeVolume(vol), DecodeIngress(i), DecodeResources(r), false);
    }
  }

  /** The operator's writes change a document at most once: its own form stays as it is. */
  lemma RecodedOnce(w: Wire)
    requires Admitted(w)
    ensures Recoded(Recoded(w)) == Recoded(w)
  {
    FinalizerWritePreservesSpec(w);
  }

  /** The stored document itself can change while the spec does not: an explicit
      `enablePodMonitor: false` is dropped together with its enclosing `monitoring`. */
  lemma ExplicitFalseIsDropped(w: Wire)
    requires Admitted(w) && w.PostgresDoc? && w.monitoring == Some(WireMonitoring(Some(false)))
    ensures Recoded(w) != w && Recoded(w).monitoring.None?
    ensures Stored(Decode(w)) == Decode(w)
  {
    FinalizerWritePreservesSpec(w);
  }

  /** Monitoring is documented as on by default, but the default sits inside `monitoring`: for
      every document it is on exactly if that block is given and does not switch it off. */
  lemma PodMonitorOnlyIfAsked(w: Wire)
    requires w.PostgresDoc? || w.MariaDBDoc?
    ensures Decode(Default(w)).enablePodMonitor <==>
              w.monitoring.Some? && w.monitoring.value.enablePodMonitor != Some(false)
  {
    match w {
      case PostgresDoc(_, _, _, _, _, m, _) => MonitoringDecides(m);
      case MariaDBDoc(_, _, _, _, _, m, _) => MonitoringDecides(m);
    }
  }

  lemma MonitoringDecides(m: Option<WireMonitoring>)
    ensures DecodeMonitoring(DefaultMonitoring(m)) <==> m.Some? && m.value.enablePodMonitor != Some(false)
  {
    if m.Some? && m.value.enablePodMonitor.Some? {
      if m.value.enablePodMonitor.value {
        assert m.value.enablePodMonitor == Some(true);
      } else {
        assert m.value.enablePodMonitor == Some(false);
      }
    }
  }

  function SmallestDoc(monitoring: Option<WireMonitoring>): Wire {
    PostgresDoc(None, None, WireStorage("1Gi", None), DatabaseSpec("app", "app"), None, monitoring, None)
  }

  /** The smallest document a user can write leaves it off, and an empty block turns it on. */
  lemma NoMonitoringByDefault()
    ensures Decode(Default(SmallestDoc(None))).PostgresSpec? && !Decode(Default(SmallestDoc(None))).enablePodMonitor
    ensures var w := SmallestDoc(Some(WireMonitoring(None)));
            Decode(Default(w)).PostgresSpec? && Decode(Default(w)).enablePodMonitor
  {
    PodMonitorOnlyIfAsked(SmallestDoc(None));
    PodMonitorOnlyIfAsked(SmallestDoc(Some(WireMonitoring(None))));
  }

  // ---------------------------------------------------------------- what a document says

  predicate Count(o: Option<int32>, n: int32) { o == Some(n) || (o.None? && n == 0) }
  predicate Text(o: Option<string>, t: string) { o == Some(t) || (o.None? && t == "") }
  predicate Pairs(o: Option<map<string, string>>, m: map<string, string>) { o == Some(m) || (o.None? && m == map[]) }

  predicate ShowsStorage(w: WireStorage, s: StorageSpec) {
    w.size == s.size && Text(w.storageClass, s.storageClass)
  }

  predicate ShowsVolume(w: Option<WireStorage>, v: Option<StorageSpec>) {
    if w.Some? then v.Some? && ShowsStorage(w.value, v.value) else v.None?
  }

  predicate ShowsExpose(w: Option<WireExpose>, e: Option<ExposeSpec>) {
    if w.Some?
    then e.Some? && Text(w.value.serviceType, e.value.serviceType) && Pairs(w.value.annotations, e.value.annotations)
    else e.None?
  }

  predicate ShowsIngress(w: Option<WireIngress>, i: Option<IngressSpec>) {
    if w.Some? then
      && i.Some? && w.value.host == i.value.host
      && Text(w.value.ingressClassName, i.value.ingressClassName)
      && Text(w.value.tlsSecretName, i.value.tlsSecretName)
      && Pairs(w.value.annotations, i.value.annotations)
    else i.None?
  }

  predicate ShowsClaims(w: Option<seq<WireClaim>>, cs: seq<ResourceClaim>) {
    if w.Some? then
      && |cs| == |w.value|
      && forall n :: 0 <= n < |cs| ==> w.value[n].name == cs[n].name && Text(w.value[n].request, cs[n].request)
    else cs == []
  }

  predicate ShowsResources(w: Option<WireResources>, r: ResourceSpec) {
    if w.Some?
    then Pairs(w.value.requests, r.requests) && Pairs(w.value.limits, r.limits) && ShowsClaims(w.value.claims, r.claims)
    else r.requests == map[] && r.limits == map[] && r.claims == []
  }

  predicate ShowsMonitoring(w: Option<WireMonitoring>, on: bool) {
    on <==> w == Some(WireMonitoring(Some(true)))
  }

  /** The document shows that spec: key by key the same, an absent key being the zero value. */
  predicate Shows(w: Wire, s: CrSpec) {
    match w
    case PostgresDoc(n, image, st, db, r, m, e) =>
      && s.PostgresSpec? && Count(n, s.instances) && Text(image, s.image) && ShowsStorage(st, s.storage)
      && db == s.database && ShowsResources(r, s.resources) && ShowsMonitoring(m, s.enablePodMonitor)
      && ShowsExpose(e, s.expose)
    case MariaDBDoc(n, image, st, db, r, m, e) =>
      && s.MariaDBSpec? && Count(n, s.replicas) && Text(image, s.image) && ShowsStorage(st, s.storage)
      && db == s.database && ShowsResources(r, s.resources) && ShowsMonitoring(m, s.enablePodMonitor)
      && ShowsExpose(e, s.expose)
    case RabbitMQDoc(n, image, st, r, i) =>
      && s.RabbitMQSpec? && Count(n, s.replicas) && Text(image, s.image) && ShowsStorage(st, s.storage)
      && ShowsResources(r, s.resources) && ShowsIngress(i, s.ingress)
    case ValkeyDoc(shards, n, image, p, r, e) =>
      && s.ValkeySpec? && Count(shards, s.shards) && Count(n, s.replicas) && Text(image, s.image)
      && ShowsStorage(p, s.persistence) && ShowsResources(r, s.resources) && ShowsExpose(e, s.expose)
    case GrafanaDoc(v, n, vol, i) =>
      && s.GrafanaSpec? && Text(v, s.version) && Count(n, s.replicas) && ShowsVolume(vol, s.volume)
      && ShowsIngress(i, s.ingress)
    case PrometheusDoc(v, n, ret, vol, r, i) =>
      && s.PrometheusSpec? && Text(v, s.version) && Count(n, s.replicas) && Text(ret, s.retention)
      && ShowsVolume(vol, s.volume) && ShowsResources(r, s.resources) && ShowsIngress(i, s.ingress)
  }

  // ---------------------------------------------------------------- nothing superfluous

  predicate TerseText(o: Option<string>) { o != Some("") }
  predicate TersePairs(o: Option<map<string, string>>) { o != Some(map[]) }
  predicate TerseVolume(w: Option<WireStorage>) { w.Some? ==> TerseText(w.value.storageClass) }

  predicate TerseExpose(w: Option<WireExpose>) {
    w.Some? ==> TerseText(w.value.serviceType) && TersePairs(w.value.annotations)
  }

  predicate TerseIngress(w: Option<WireIngress>) {
    w.Some? ==>
      TerseText(w.value.ingressClassName) && TerseText(w.value.tlsSecretName) && TersePairs(w.value.annotations)
  }

  predicate TerseClaims(w: Option<seq<WireClaim>>) {
    w.Some? ==> w.value != [] && forall n :: 0 <= n < |w.value| ==> TerseText(w.value[n].request)
  }

  predicate TerseResources(w: Option<WireResources>) {
    w.Some? ==>
      && TersePairs(w.value.requests) && TersePairs(w.value.limits) && TerseClaims(w.value.claims)
      && (w.value.requests.Some? || w.value.limits.Some? || w.value.claims.Some?)
  }

  predicate TerseMonitoring(w: Option<WireMonitoring>) { w.Some? ==> w.value.enablePodMonitor == Some(true) }

  /** No optional key is written for a zero value. */
  predicate Terse(w: Wire) {
    match w
    case PostgresDoc(n, image, st, _, r, m, e) =>
      && n != Some(0) && TerseText(image) && TerseText(st.storageClass) && TerseResources(r) && TerseMonitoring(m)
      && TerseExpose(e)
    case MariaDBDoc(n, image, st, _, r, m, e) =>
      && n != Some(0) && TerseText(image) && TerseText(st.storageClass) && TerseResources(r) && TerseMonitoring(m)
      && TerseExpose(e)
    case RabbitMQDoc(n, image, st, r, i) =>
      n != Some(0) && TerseText(image) && TerseText(st.storageClass) && TerseResources(r) && TerseIngress(i)
    case ValkeyDoc(shards, n, image, p, r, e) =>
      && shards != Some(0) && n != Some(0) && TerseText(image) && TerseText(p.storageClass) && TerseResources(r)
      && TerseExpose(e)
    case GrafanaDoc(v, n, vol, i) => TerseText(v) && n != Some(0) && TerseVolume(vol) && TerseIngress(i)
    case PrometheusDoc(v, n, ret, vol, r, i) =>
      && TerseText(v) && n != Some(0) && TerseText(ret) && TerseVolume(vol) && TerseResources(r) && TerseIngress(i)
  }

  // ---------------------------------------------------------------- the three maps by what they do

  lemma DecodesResources(w: Option<WireResources>, r: ResourceSpec)
    ensures DecodeResources(w) == r <==> ShowsResources(w, r)
  {
    if w.Some? && ShowsResources(w, r) {
      assert DecodeClaims(w.value.claims) == r.claims;
    }
  }

  lemma DecodesDatabase(w: Wire, s: CrSpec)
    requires s.PostgresSpec? || s.MariaDBSpec?
    ensures Decode(w) == s <==> Shows(w, s)
  {
    if w.PostgresDoc? || w.MariaDBDoc? { DecodesResources(w.resources, s.resources); }
  }

  lemma DecodesOther(w: Wire, s: CrSpec)
    requires !s.PostgresSpec? && !s.MariaDBSpec?
    ensures Decode(w) == s <==> Shows(w, s)
  {
    if !w.GrafanaDoc? && !s.GrafanaSpec? { DecodesResources(w.resources, s.resources); }
  }

  /** Decoding reads off the spec the document shows, and there is only one. */
  lemma DecodeIsWhatItShows(w: Wire, s: CrSpec)
    ensures Decode(w) == s <==> Shows(w, s)
  {
    if s.PostgresSpec? || s.MariaDBSpec? { DecodesDatabase(w, s); } else { DecodesOther(w, s); }
  }

  lemma EncodesResources(w: Option<WireResources>, r: ResourceSpec)
    ensures w == EncodeResources(r) <==> ShowsResources(w, r) && TerseResources(w)
  {
    if w.Some? && ShowsResources(w, r) && TerseResources(w) {
      EncodesClaims(w.value.claims, r.claims);
    }
    ClaimsShown(r.claims);
  }

  lemma ClaimsShown(cs: seq<ResourceClaim>)
    ensures ShowsClaims(EncodeClaims(cs), cs) && TerseClaims(EncodeClaims(cs))
  {
  }

  lemma EncodesClaims(w: Option<seq<WireClaim>>, cs: seq<ResourceClaim>)
    requires ShowsClaims(w, cs) && TerseClaims(w)
    ensures w == EncodeClaims(cs)
  {
    if w.Some? {
      assert w.value == EncodeClaims(cs).value;
    }
  }

  lemma EncodesDatabase(w: Wire, s: CrSpec)
    requires s.PostgresSpec? || s.MariaDBSpec?
    ensures w == Encode(s) <==> Shows(w, s) && Terse(w)
  {
    if w.PostgresDoc? || w.MariaDBDoc? { EncodesResources(w.resources, s.resources); }
  }

  lemma EncodesBroker(w: Wire, s: CrSpec)
    requires s.RabbitMQSpec? || s.ValkeySpec?
    ensures w == Encode(s) <==> Shows(w, s) && Terse(w)
  {
    if w.RabbitMQDoc? || w.ValkeyDoc? { EncodesResources(w.resources, s.resources); }
  }

  lemma EncodesMonitor(w: Wire, s: CrSpec)
    requires s.GrafanaSpec? || s.PrometheusSpec?
    ensures w == Encode(s) <==> Shows(w, s) && Terse(w)
  {
    if w.PrometheusDoc? && s.PrometheusSpec? { EncodesResources(w.resources, s.resources); }
  }

  /** Encoding writes the one document that shows the spec with nothing superfluous. */
  lemma EncodeIsTersest(w: Wire, s: CrSpec)
    ensures w == Encode(s) <==> Shows(w, s) && Terse(w)
  {
    if s.PostgresSpec? || s.MariaDBSpec? {
      EncodesDatabase(w, s);
    } else if s.RabbitMQSpec? || s.ValkeySpec? {
      EncodesBroker(w, s);
    } else {
      EncodesMonitor(w, s);
    }
  }

  /** `d` is that key as given, or the default if it was not. */
  predicate Given<T(==)>(o: Option<T>, default: T, d: Option<T>) {
    d.Some? && if o.Some? then d.value == o.value else d.value == default
  }

  predicate ExposeFilled(w: Option<WireExpose>, d: Option<WireExpose>) {
    if w.Some? then
      && d.Some? && Given(w.value.serviceType, "LoadBalancer", d.value.serviceType)
      && d.value.annotations == w.value.annotations
    else d.None?
  }

  predicate MonitoringFilled(w: Option<WireMonitoring>, d: Option<WireMonitoring>) {
    if w.Some? then d.Some? && Given(w.value.enablePodMonitor, true, d.value.enablePodMonitor) else d.None?
  }

  /** The document `w` with the schema's defaults filled in, and everything else as it was. */
  predicate Filled(w: Wire, d: Wire) {
    match w
    case PostgresDoc(n, image, st, db, r, m, e) =>
      && d.PostgresDoc? && Given(n, 1, d.instances) && MonitoringFilled(m, d.monitoring) && ExposeFilled(e, d.expose)
      && d.image == image && d.storage == st && d.database == db && d.resources == r
    case MariaDBDoc(n, image, st, db, r, m, e) =>
      && d.MariaDBDoc? && Given(n, 1, d.replicas) && MonitoringFilled(m, d.monitoring) && ExposeFilled(e, d.expose)
      && d.image == image && d.storage == st && d.database == db && d.resources == r
    case RabbitMQDoc(n, image, st, r, i) =>
      && d.RabbitMQDoc? && Given(n, 1, d.replicas)
      && d.image == image && d.storage == st && d.resources == r && d.ingress == i
    case ValkeyDoc(shards, n, image, p, r, e) =>
      && d.ValkeyDoc? && Given(shards, 1, d.shards) && Given(n, 0, d.replicas) && ExposeFilled(e, d.expose)
      && d.image == image && d.persistence == p && d.resources == r
    case GrafanaDoc(v, n, vol, i) =>
      && d.GrafanaDoc? && Given(n, 1, d.replicas)
      && d.version == v && d.volume == vol && d.ingress == i
    case PrometheusDoc(v, n, ret, vol, r, i) =>
      && d.PrometheusDoc? && Given(n, 1, d.replicas)
      && d.version == v && d.retention == ret && d.volume == vol && d.resources == r && d.ingress == i
  }

  lemma DefaultFills(w: Wire, d: Wire)
    ensures d == Default(w) <==> Filled(w, d)
  {
  }

  predicate AtLeast(o: Option<int32>, minimum: int32) { o.Some? ==> o.value >= minimum }

  predicate KnownService(w: Option<WireExpose>) {
    w.Some? && w.value.serviceType.Some? ==>
      w.value.serviceType.value == "LoadBalancer" || w.value.serviceType.value == "NodePort"
  }

  /** Which documents a user may submit: counts of at least 1, or 0 where the schema allows it,
      and only the two service types. */
  lemma AdmissionIs(w: Wire)
    ensures Admitted(Default(w)) <==>
              match w
              case PostgresDoc(n, _, _, _, _, _, e) => AtLeast(n, 1) && KnownService(e)
              case MariaDBDoc(n, _, _, _, _, _, e) => AtLeast(n, 1) && KnownService(e)
              case RabbitMQDoc(n, _, _, _, _) => AtLeast(n, 1)
              case ValkeyDoc(shards, n, _, _, _, e) => AtLeast(shards, 1) && AtLeast(n, 0) && KnownService(e)
              case GrafanaDoc(_, n, _, _) => AtLeast(n, 0)
              case PrometheusDoc(_, n, _, _, _, _) => AtLeast(n, 0)
  {
  }
}

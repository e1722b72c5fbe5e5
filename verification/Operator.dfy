/**
  The six adapters put together: they obey the laws the generic reconciler relies on, and
  what the generic results say about this operator in particular.
 */
module Operator {
  import opened Types
  import opened Adapters
  import opened Protocol
  import opened Safety
  import opened Manifests
  import Codec
  import IngressBuilder
  import Postgres
  import MariaDB
  import RabbitMQ
  import Valkey
  import Grafana
  import Prometheus

  function ClusterReasons(): (string, string) { ("ClusterReady", "ClusterNotReady") }

  function BothCounts(ts: TargetStatus): (int32, int32) { (ts.observedCount, ts.readyCount) }

  /** GrafanaInstance stores the ready count alone (internal/grafana/grafana.go:200). */
  function ReadyCountOnly(ts: TargetStatus): (int32, int32) { (ts.readyCount, 0) }

  function AdapterFor(kind: Kind): Adapter {
    match kind
    case PostgresCluster =>
      Adapter(Postgres.GVK, Postgres.FIELD_MANAGER, (name: string) => name,
              (s: CrSpec, n: string, o: string) => if s.PostgresSpec? then Postgres.Manifest(s, n, o) else map[],
              (s: CrSpec, n: string, o: string) => [],
              (n: string) => [],
              Postgres.Extract, (f: Fields) => true, Codec.Stored, ClusterReasons(), BothCounts)
    case MariaDBCluster =>
      Adapter(MariaDB.GVK, MariaDB.FIELD_MANAGER, (name: string) => name,
              (s: CrSpec, n: string, o: string) => if s.MariaDBSpec? then MariaDB.Manifest(s, n, o) else map[],
              (s: CrSpec, n: string, o: string) => [],
              (n: string) => [],
              MariaDB.Extract, MariaDB.GaleraRule, Codec.Stored, ClusterReasons(), BothCounts)
    case RabbitMQCluster =>
      Adapter(RabbitMQ.GVK, RabbitMQ.FIELD_MANAGER, (name: string) => name,
              (s: CrSpec, n: string, o: string) => if s.RabbitMQSpec? then RabbitMQ.Manifest(s, o) else map[],
              (s: CrSpec, n: string, o: string) => if s.RabbitMQSpec? then RabbitMQ.ExtraResources(s, n, o) else [],
              (n: string) => [Slot(IngressBuilder.GVK, RabbitMQ.IngressName(n))],
              RabbitMQ.Extract, (f: Fields) => true, Codec.Stored, ClusterReasons(), BothCounts)
    case ValkeyCluster =>
      Adapter(Valkey.GVK, Valkey.FIELD_MANAGER, (name: string) => name,
              (s: CrSpec, n: string, o: string) => if s.ValkeySpec? then Valkey.Manifest(s, o) else map[],
              (s: CrSpec, n: string, o: string) => if s.ValkeySpec? then Valkey.ExtraResources(s, n, o) else [],
              (n: string) => [Slot(Valkey.SERVICE_GVK, Valkey.ServiceName(n))],
              Valkey.Extract, (f: Fields) => true, Codec.Stored, ClusterReasons(), BothCounts)
    case GrafanaInstance =>
      Adapter(Grafana.GVK, Grafana.FIELD_MANAGER, (name: string) => name,
              (s: CrSpec, n: string, o: string) => if s.GrafanaSpec? then Grafana.Manifest(s, o) else map[],
              (s: CrSpec, n: string, o: string) => [],
              (n: string) => [],
              Grafana.Extract, (f: Fields) => true, Codec.Stored, ("GrafanaReady", "GrafanaNotReady"), ReadyCountOnly)
    case PrometheusInstance =>
      Adapter(Prometheus.GVK, Prometheus.FIELD_MANAGER, (name: string) => name,
              (s: CrSpec, n: string, o: string) => if s.PrometheusSpec? then Prometheus.Manifest(s, o) else map[],
              (s: CrSpec, n: string, o: string) => if s.PrometheusSpec? then Prometheus.ExtraResources(s, n, o) else [],
              (n: string) => [Slot(Prometheus.SERVICE_GVK, Prometheus.ServiceName(n)),
                              Slot(IngressBuilder.GVK, Prometheus.IngressName(n))],
              Prometheus.Extract, (f: Fields) => true, Codec.Stored,
              ("PrometheusReady", "PrometheusNotReady"), BothCounts)
  }

  // ---------------------------------------------------------------- the laws hold

  /** Group names alone tell every kind of object apart. */
  lemma GroupsDiffer()
    ensures |Postgres.GVK.group| == 18 && |MariaDB.GVK.group| == 15 && |RabbitMQ.GVK.group| == 12
            && |Valkey.GVK.group| == 9 && |Grafana.GVK.group| == 23 && |Prometheus.GVK.group| == 21
            && |IngressBuilder.GVK.group| == 17
            && |Valkey.SERVICE_GVK.group| == 0 && Prometheus.SERVICE_GVK == Valkey.SERVICE_GVK
  {
  }

  predicate Matches(e: Extra, s: Slot) {
    e.gvk == s.gvk && e.name == s.name
  }

  lemma RabbitMQSlots(spec: CrSpec, name: string)
    requires spec.RabbitMQSpec?
    ensures var es := RabbitMQ.ExtraResources(spec, name, name);
            |es| == 1 && Matches(es[0], Slot(IngressBuilder.GVK, RabbitMQ.IngressName(name)))
  {
  }

  lemma ValkeySlots(spec: CrSpec, name: string)
    requires spec.ValkeySpec?
    ensures var es := Valkey.ExtraResources(spec, name, name);
            |es| == 1 && Matches(es[0], Slot(Valkey.SERVICE_GVK, Valkey.ServiceName(name)))
  {
  }

  lemma PrometheusSlots(spec: CrSpec, name: string)
    requires spec.PrometheusSpec?
    ensures var es := Prometheus.ExtraResources(spec, name, name);
            && |es| == 2
            && Matches(es[0], Slot(Prometheus.SERVICE_GVK, Prometheus.ServiceName(name)))
            && Matches(es[1], Slot(IngressBuilder.GVK, Prometheus.IngressName(name)))
  {
  }

  lemma ExtrasListSlots(k: CrKey, spec: CrSpec)
    requires Fits(k.kind, spec)
    ensures ListsEverySlot(AdapterFor, k, spec)
  {
    match k.kind {
      case RabbitMQCluster => RabbitMQSlots(spec, k.name);
      case ValkeyCluster => ValkeySlots(spec, k.name);
      case PrometheusInstance => PrometheusSlots(spec, k.name);
      case _ =>
    }
  }

  lemma KeysDistinct(k: CrKey)
    ensures OwnedDistinct(AdapterFor, k)
  {
    GroupsDiffer();
    var own := Owned(AdapterFor, k);
    match k.kind {
      case PrometheusInstance =>
        assert |own| == 3 && own[0].gvk == Prometheus.GVK && own[1].gvk == Prometheus.SERVICE_GVK
               && own[2].gvk == IngressBuilder.GVK;
      case RabbitMQCluster => assert |own| == 2 && own[0].gvk == RabbitMQ.GVK && own[1].gvk == IngressBuilder.GVK;
      case ValkeyCluster => assert |own| == 2 && own[0].gvk == Valkey.GVK && own[1].gvk == Valkey.SERVICE_GVK;
      case _ => assert |own| == 1;
    }
  }

  lemma ManifestsWriteNoStatus(k: CrKey, spec: CrSpec)
    requires Fits(k.kind, spec)
    ensures WithoutStatus(Manifest(AdapterFor, k, spec))
  {
    match k.kind {
      case PostgresCluster => Postgres.ManifestWithoutStatus(spec, k.name, k.name);
      case MariaDBCluster => MariaDB.ManifestWithoutStatus(spec, k.name, k.name);
      case RabbitMQCluster => RabbitMQ.ManifestWithoutStatus(spec, k.name);
      case ValkeyCluster => Valkey.ManifestWithoutStatus(spec, k.name);
      case GrafanaInstance => Grafana.ManifestWithoutStatus(spec, k.name);
      case PrometheusInstance => Prometheus.ManifestWithoutStatus(spec, k.name);
    }
  }

  predicate WritesNoStatus(desired: Option<Fields>) {
    desired.Some? ==> WithoutStatus(desired.value)
  }

  ghost predicate NoStatusWritten(es: seq<Extra>) {
    forall i :: 0 <= i < |es| ==> WritesNoStatus(es[i].desired)
  }

  lemma RabbitMQExtras(spec: CrSpec, name: string)
    requires spec.RabbitMQSpec?
    ensures NoStatusWritten(RabbitMQ.ExtraResources(spec, name, name))
  {
    if spec.ingress.Some? {
      IngressBuilder.DesiredWithoutStatus(spec.ingress.value, name, RabbitMQ.FIELD_MANAGER, name,
                                          RabbitMQ.MANAGEMENT_PORT);
    }
  }

  lemma ValkeyExtras(spec: CrSpec, name: string)
    requires spec.ValkeySpec?
    ensures NoStatusWritten(Valkey.ExtraResources(spec, name, name))
  {
    if spec.expose.Some? { Valkey.ExtrasWithoutStatus(spec.expose.value, name, name); }
  }

  lemma PrometheusService(spec: CrSpec, name: string)
    requires spec.PrometheusSpec?
    ensures WritesNoStatus(Prometheus.ExtraResources(spec, name, name)[0].desired)
  {
    Prometheus.ServiceWithoutStatus(name, name);
  }

  lemma PrometheusIngress(spec: CrSpec, name: string)
    requires spec.PrometheusSpec?
    ensures WritesNoStatus(Prometheus.ExtraResources(spec, name, name)[1].desired)
  {
    if spec.ingress.Some? {
      IngressBuilder.DesiredWithoutStatus(spec.ingress.value, name, Prometheus.FIELD_MANAGER,
                                          Prometheus.ServiceName(name), Prometheus.WEB_PORT);
    }
  }

  lemma PrometheusExtras(spec: CrSpec, name: string)
    requires spec.PrometheusSpec?
    ensures NoStatusWritten(Prometheus.ExtraResources(spec, name, name))
  {
    var es := Prometheus.ExtraResources(spec, name, name);
    PrometheusService(spec, name);
    PrometheusIngress(spec, name);
    assert |es| == 2;
    forall i | 0 <= i < |es| ensures WritesNoStatus(es[i].desired) {
      assert i == 0 || i == 1;
    }
  }

  lemma ExtrasWriteNoStatus(k: CrKey, spec: CrSpec)
    requires Fits(k.kind, spec)
    ensures NoStatusWritten(ExtrasOf(AdapterFor, k, spec))
  {
    match k.kind {
      case RabbitMQCluster => RabbitMQExtras(spec, k.name);
      case ValkeyCluster => ValkeyExtras(spec, k.name);
      case PrometheusInstance => PrometheusExtras(spec, k.name);
      case _ =>
    }
  }

  /** An object without vendor status is never ready, in any adapter. */
  lemma NotReadyUnreported(kind: Kind, f: Fields)
    requires WithoutStatus(f)
    ensures !AdapterFor(kind).extract(f).ready
  {
    assert forall a: Seg :: P2(Status, a) !in f;
    match kind {
      case MariaDBCluster => assert ListAt(f, P2(Status, Conditions)) == [];
      case RabbitMQCluster => assert ListAt(f, P2(Status, Conditions)) == [];
      case _ =>
    }
  }

  lemma StoredFits(kind: Kind, spec: CrSpec)
    requires Fits(kind, spec)
    ensures Fits(kind, Codec.Stored(spec))
  {
  }

  lemma OperatorIsLawful()
    ensures Lawful(AdapterFor)
  {
    forall k: CrKey, spec: CrSpec | Fits(k.kind, spec)
      ensures ListsEverySlot(AdapterFor, k, spec) { ExtrasListSlots(k, spec); }
    forall k: CrKey ensures OwnedDistinct(AdapterFor, k) { KeysDistinct(k); }
    forall k: CrKey, spec: CrSpec | Fits(k.kind, spec)
      ensures WithoutStatus(Manifest(AdapterFor, k, spec)) { ManifestsWriteNoStatus(k, spec); }
    forall k: CrKey, spec: CrSpec, i: nat |
      Fits(k.kind, spec) && i < |ExtrasOf(AdapterFor, k, spec)| && ExtrasOf(AdapterFor, k, spec)[i].desired.Some?
      ensures WithoutStatus(ExtrasOf(AdapterFor, k, spec)[i].desired.value)
    {
      ExtrasWriteNoStatus(k, spec);
    }
    forall kind: Kind, f: Fields | WithoutStatus(f)
      ensures !AdapterFor(kind).extract(f).ready { NotReadyUnreported(kind, f); }
    forall kind: Kind, spec: CrSpec | Fits(kind, spec)
      ensures Fits(kind, AdapterFor(kind).stored(spec)) { StoredFits(kind, spec); }
  }

  /** No orphans, for this operator. */
  lemma OperatorLeavesNoOrphans(ls: seq<Label>, k: CrKey, o: ObjKey)
    requires Current(Run(AdapterFor, INIT, ls), k).None?
    ensures Released(Lookup(Run(AdapterFor, INIT, ls).objs, o), k)
  {
    OperatorIsLawful();
    GoneLeavesNothing(AdapterFor, ls, k, o);
  }
}

/**
  How the six adapters are put together: which objects each custom resource stands for, under
  which manager, and every leaf of every object this operator applies, with the names, ports and
  labels filled in (for example internal/prometheus/prometheus.go:186-219).
 */
module Wiring {
  import opened Types
  import opened Objects
  import opened Manifests
  import opened Adapters
  import opened ServerSideApply
  import opened Protocol
  import opened Convergence
  import opened Rounds
  import opened Histories
  import opened Operator
  import opened OperatorResults
  import Codec
  import IngressBuilder
  import Postgres
  import MariaDB
  import RabbitMQ
  import Valkey
  import Grafana
  import Prometheus

  function TargetGvk(kind: Kind): Gvk {
    match kind
    case PostgresCluster => Gvk("postgresql.cnpg.io", "v1", "Cluster")
    case MariaDBCluster => Gvk("k8s.mariadb.com", "v1alpha1", "MariaDB")
    case RabbitMQCluster => Gvk("rabbitmq.com", "v1beta1", "RabbitmqCluster")
    case ValkeyCluster => Gvk("valkey.io", "v1alpha1", "ValkeyCluster")
    case GrafanaInstance => Gvk("grafana.integreatly.org", "v1beta1", "Grafana")
    case PrometheusInstance => Gvk("monitoring.coreos.com", "v1", "Prometheus")
  }

  function ManagerName(kind: Kind): string {
    match kind
    case PostgresCluster => "postgrescluster-operator"
    case MariaDBCluster => "mariadbcluster-operator"
    case RabbitMQCluster => "rabbitmqcluster-operator"
    case ValkeyCluster => "valkeycluster-operator"
    case GrafanaInstance => "grafanainstance-operator"
    case PrometheusInstance => "prometheusinstance-operator"
  }

  const INGRESS := Gvk("networking.k8s.io", "v1", "Ingress")
  const SERVICE := Gvk("", "v1", "Service")

  /** A custom resource maps to one target of its own name and namespace, applied under the
      kind's own field manager. */
  lemma TargetIs(k: CrKey)
    ensures TargetKey(AdapterFor, k) == ObjKey(TargetGvk(k.kind), k.namespace, k.name)
    ensures AdapterFor(k.kind).fieldManager == ManagerName(k.kind)
  {
  }

  /** What the table of its kind says of a leaf of the target's spec. */
  predicate InSpec(k: CrKey, spec: CrSpec, p: Path, v: Value)
    requires Fits(k.kind, spec)
  {
    match k.kind
    case PostgresCluster => Postgres.SpecLeaf(spec, k.name, p, v)
    case MariaDBCluster => MariaDB.SpecLeaf(spec, k.name, p, v)
    case RabbitMQCluster => RabbitMQ.SpecLeaf(spec, p, v)
    case ValkeyCluster => Valkey.SpecLeaf(spec, p, v)
    case GrafanaInstance => Grafana.SpecLeaf(spec, p, v)
    case PrometheusInstance => Prometheus.SpecLeaf(spec, p, v)
  }

  /** Every leaf of the target a custom resource asks for. */
  lemma TargetLeaves(k: CrKey, spec: CrSpec, p: Path, v: Value)
    requires Fits(k.kind, spec)
    ensures LeafAt(Manifest(AdapterFor, k, spec), p) == Some(v)
            <==> ObjectLeaf(ManagerName(k.kind), k.name, map[], p.Dot? && InSpec(k, spec, p.tail, v), p, v)
  {
    match k.kind {
      case PostgresCluster => Postgres.ManifestLeaves(spec, k.name, k.name, p, v);
      case MariaDBCluster => MariaDB.ManifestLeaves(spec, k.name, k.name, p, v);
      case RabbitMQCluster => RabbitMQ.ManifestLeaves(spec, k.name, p, v);
      case ValkeyCluster => Valkey.ManifestLeaves(spec, k.name, p, v);
      case GrafanaInstance => Grafana.ManifestLeaves(spec, k.name, p, v);
      case PrometheusInstance => Prometheus.ManifestLeaves(spec, k.name, p, v);
    }
  }

  // ---------------------------------------------------------------- extras

  /** An extra of that identity, wanted or not. */
  predicate ExtraIs(e: Extra, gvk: Gvk, name: string, wanted: bool) {
    e.gvk == gvk && e.name == name && (e.desired.Some? <==> wanted)
  }

  lemma RabbitMQExtrasAre(k: CrKey, spec: CrSpec)
    requires k.kind.RabbitMQCluster? && spec.RabbitMQSpec?
    ensures ExtrasOf(AdapterFor, k, spec) == RabbitMQ.ExtraResources(spec, k.name, k.name)
  {
  }

  lemma ValkeyExtrasAre(k: CrKey, spec: CrSpec)
    requires k.kind.ValkeyCluster? && spec.ValkeySpec?
    ensures ExtrasOf(AdapterFor, k, spec) == Valkey.ExtraResources(spec, k.name, k.name)
  {
  }

  lemma PrometheusExtrasAre(k: CrKey, spec: CrSpec)
    requires k.kind.PrometheusInstance? && spec.PrometheusSpec?
    ensures ExtrasOf(AdapterFor, k, spec) == Prometheus.ExtraResources(spec, k.name, k.name)
  {
  }

  /** A RabbitMQCluster's one extra is an Ingress to its target's management port. */
  lemma RabbitMQExtra(k: CrKey, spec: CrSpec)
    requires k.kind.RabbitMQCluster? && spec.RabbitMQSpec?
    ensures var es := ExtrasOf(AdapterFor, k, spec);
            |es| == 1 && ExtraIs(es[0], INGRESS, k.name + "-ingress", spec.ingress.Some?)
  {
    RabbitMQExtrasAre(k, spec);
  }

  lemma RabbitMQExtraLeaves(k: CrKey, spec: CrSpec, p: Path, v: Value)
    requires k.kind.RabbitMQCluster? && spec.RabbitMQSpec? && spec.ingress.Some?
    ensures var i := spec.ingress.value;
            var es := ExtrasOf(AdapterFor, k, spec);
            |es| == 1 && es[0].desired.Some? &&
            (LeafAt(es[0].desired.value, p) == Some(v)
             <==> ObjectLeaf("rabbitmqcluster-operator", k.name, i.annotations,
                             p.Dot? && IngressBuilder.SpecLeaf(i, k.name, 15672, p.tail, v), p, v))
  {
    RabbitMQExtrasAre(k, spec);
    IngressBuilder.IngressLeaves(spec.ingress.value, k.name, RabbitMQ.FIELD_MANAGER, k.name, 15672, p, v);
  }

  /** A ValkeyCluster's one extra is a Service in front of its data port. */
  lemma ValkeyExtra(k: CrKey, spec: CrSpec)
    requires k.kind.ValkeyCluster? && spec.ValkeySpec?
    ensures var es := ExtrasOf(AdapterFor, k, spec);
            |es| == 1 && ExtraIs(es[0], SERVICE, k.name + "-external", spec.expose.Some?)
  {
    ValkeyExtrasAre(k, spec);
  }

  lemma ValkeyExtraLeaves(k: CrKey, spec: CrSpec, p: Path, v: Value)
    requires k.kind.ValkeyCluster? && spec.ValkeySpec? && spec.expose.Some?
    ensures var e := spec.expose.value;
            var es := ExtrasOf(AdapterFor, k, spec);
            |es| == 1 && es[0].desired.Some? &&
            (LeafAt(es[0].desired.value, p) == Some(v)
             <==> ObjectLeaf("valkeycluster-operator", k.name, e.annotations,
                             p.Dot? && Valkey.ServiceLeaf(e, k.name, p.tail, v), p, v))
  {
    ValkeyExtrasAre(k, spec);
    Valkey.ExternalServiceLeaves(spec.expose.value, k.name, k.name, p, v);
  }

  /** A PrometheusInstance's extras are a web Service and an Ingress to it, both or neither. */
  lemma PrometheusExtra(k: CrKey, spec: CrSpec)
    requires k.kind.PrometheusInstance? && spec.PrometheusSpec?
    ensures var es := ExtrasOf(AdapterFor, k, spec);
            && |es| == 2
            && ExtraIs(es[0], SERVICE, k.name + "-web", spec.ingress.Some?)
            && ExtraIs(es[1], INGRESS, k.name + "-ingress", spec.ingress.Some?)
  {
    PrometheusExtrasAre(k, spec);
  }

  lemma PrometheusServiceLeaves(k: CrKey, spec: CrSpec, p: Path, v: Value)
    requires k.kind.PrometheusInstance? && spec.PrometheusSpec? && spec.ingress.Some?
    ensures var es := ExtrasOf(AdapterFor, k, spec);
            |es| == 2 && es[0].desired.Some? &&
            (LeafAt(es[0].desired.value, p) == Some(v)
             <==> ObjectLeaf("prometheusinstance-operator", k.name, map[],
                             p.Dot? && Prometheus.ServiceLeaf(k.name, p.tail, v), p, v))
  {
    PrometheusExtrasAre(k, spec);
    Prometheus.WebServiceLeaves(k.name, k.name, p, v);
  }

  lemma PrometheusIngressLeaves(k: CrKey, spec: CrSpec, p: Path, v: Value)
    requires k.kind.PrometheusInstance? && spec.PrometheusSpec? && spec.ingress.Some?
    ensures var i := spec.ingress.value;
            var es := ExtrasOf(AdapterFor, k, spec);
            |es| == 2 && es[1].desired.Some? &&
            (LeafAt(es[1].desired.value, p) == Some(v)
             <==> ObjectLeaf("prometheusinstance-operator", k.name, i.annotations,
                             p.Dot? && IngressBuilder.SpecLeaf(i, k.name + "-web", 9090, p.tail, v), p, v))
  {
    PrometheusExtrasAre(k, spec);
    IngressBuilder.IngressLeaves(spec.ingress.value, k.name, Prometheus.FIELD_MANAGER, k.name + "-web", 9090, p, v);
  }

  /** The other three kinds have none. */
  lemma NoExtras(k: CrKey, spec: CrSpec)
    requires k.kind.PostgresCluster? || k.kind.MariaDBCluster? || k.kind.GrafanaInstance?
    ensures ExtrasOf(AdapterFor, k, spec) == []
  {
  }

  /** Only MariaDB's schema rejects anything: Galera with an even count and no override. */
  lemma AcceptsIs(kind: Kind, f: Fields)
    ensures AdapterFor(kind).accepts(f)
            <==> (kind.MariaDBCluster? && Holds(f, P3(Spec, Galera, Enabled), Bool(true)) ==>
                    || Holds(f, P2(Spec, ReplicasAllowEvenNumber), Bool(true))
                    || (var p := P2(Spec, Replicas); p in f && f[p].Int? && f[p].i % 2 == 1))
  {
  }

  /** Every kind's documents are read back through the schema's own defaults. */
  lemma StoredIs(kind: Kind, spec: CrSpec)
    ensures AdapterFor(kind).stored(spec) == Codec.Decode(Codec.Default(Codec.Encode(spec)))
  {
  }

  // ---------------------------------------------------------------- on the cluster

  /** The manager owns that leaf of the object, and it has that value. */
  predicate OwnsLeaf(x: Option<Obj>, manager: string, p: Path, v: Value) {
    x.Some? && p in x.value.entries && manager in x.value.entries[p].owners && x.value.entries[p].value == v
  }

  lemma SyncedLeaf(a: Adapter, x: Option<Obj>, want: Fields, p: Path, v: Value)
    requires InSync(a, x, want)
    ensures OwnsLeaf(x, a.fieldManager, p, v) <==> LeafAt(want, p) == Some(v)
  {
    LeafAtIs(want, p);
    assert p in OwnedBy(x.value.entries, a.fieldManager) <==> p in want.Keys;
  }

  /** After any run and one successful reconcile, what this operator owns on the target is, leaf
      by leaf, what the table of its kind says of the stored spec. */
  lemma ReconciledLeaves(ls: seq<Label>, k: CrKey, plan: seq<Outcome>, p: Path, v: Value)
    requires Reconcilable(AdapterFor, ls, k) && FaultFree(AdapterFor, k, plan)
    ensures var spec := Current(Run(AdapterFor, INIT, ls), k).value.spec;
            && Fits(k.kind, spec)
            && (OwnsLeaf(Reconciled(AdapterFor, ls, k, 0, plan), ManagerName(k.kind), p, v)
                <==> ObjectLeaf(ManagerName(k.kind), k.name, map[], p.Dot? && InSpec(k, spec, p.tail, v), p, v))
  {
    var spec := Current(Run(AdapterFor, INIT, ls), k).value.spec;
    OperatorIsLawful();
    CurrentFits(ls, k);
    ReconcileFollowsSpec(AdapterFor, ls, k, 0, plan);
    SyncedLeaf(AdapterFor(k.kind), Reconciled(AdapterFor, ls, k, 0, plan), Manifest(AdapterFor, k, spec), p, v);
    TargetIs(k);
    TargetLeaves(k, spec, p, v);
  }

  /** Likewise for each extra the stored spec asks for, by what `desired` holds (see the tables
      above); an extra it does not ask for is removed. */
  lemma ReconciledExtra(ls: seq<Label>, k: CrKey, plan: seq<Outcome>, i: nat, p: Path, v: Value)
    requires Reconcilable(AdapterFor, ls, k) && FaultFree(AdapterFor, k, plan)
    requires i < |ExtrasOf(AdapterFor, k, Current(Run(AdapterFor, INIT, ls), k).value.spec)|
    ensures var s := Run(AdapterFor, INIT, ls);
            var e := ExtrasOf(AdapterFor, k, Current(s, k).value.spec)[i];
            var o := ExtraKey(k, e);
            var x := Lookup(Attempt(AdapterFor, s, k, plan).objs, o);
            if e.desired.Some?
            then OwnsLeaf(x, ManagerName(k.kind), p, v) <==> LeafAt(e.desired.value, p) == Some(v)
            else Removed(Lookup(s.objs, o), x)
  {
    OperatorIsLawful();
    CurrentFits(ls, k);
    TargetIs(k);
    ExtraAfter(AdapterFor, ls, k, plan, i, p, v);
  }

  lemma ExtraAfter(reg: Registry, ls: seq<Label>, k: CrKey, plan: seq<Outcome>, i: nat, p: Path, v: Value)
    requires Lawful(reg) && Reconcilable(reg, ls, k) && FaultFree(reg, k, plan)
    requires Fits(k.kind, Current(Run(reg, INIT, ls), k).value.spec)
    requires i < |ExtrasOf(reg, k, Current(Run(reg, INIT, ls), k).value.spec)|
    ensures var s := Run(reg, INIT, ls);
            var e := ExtrasOf(reg, k, Current(s, k).value.spec)[i];
            var o := ExtraKey(k, e);
            var x := Lookup(Attempt(reg, s, k, plan).objs, o);
            if e.desired.Some?
            then OwnsLeaf(x, reg(k.kind).fieldManager, p, v) <==> LeafAt(e.desired.value, p) == Some(v)
            else Removed(Lookup(s.objs, o), x)
  {
    var spec := Current(Run(reg, INIT, ls), k).value.spec;
    var e := ExtrasOf(reg, k, spec)[i];
    assert ListsEverySlot(reg, k, spec);
    assert Owned(reg, k)[i + 1] == ExtraKey(k, e);
    ReconcileFollowsSpec(reg, ls, k, i + 1, plan);
    if e.desired.Some? {
      SyncedLeaf(reg(k.kind), Reconciled(reg, ls, k, i + 1, plan), e.desired.value, p, v);
    }
  }
}

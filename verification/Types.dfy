/**
  The vocabulary shared by the whole project: integers of the widths the operator
  uses, JSON values addressed by leaf paths, object keys, the six custom resource
  specs (api/v1alpha1), and what an adapter reports about its target.
 */
module Types {

  datatype Option<+T> = None | Some(value: T)

  type int32 = x: int | -0x8000_0000 <= x < 0x8000_0000

  type int64 = x: int | -0x8000_0000_0000_0000 <= x < 0x8000_0000_0000_0000

  /** Go's `int32(x)` on an int64: keep the low 32 bits, read as two's complement. */
  function ToInt32(x: int64): (r: int32)
    ensures (r - x) % 0x1_0000_0000 == 0
    ensures -0x8000_0000 <= x < 0x8000_0000 ==> r == x
  {
    (x + 0x8000_0000) % 0x1_0000_0000 - 0x8000_0000
  }

  /** A JSON value. Maps built by the operator are spread over leaf paths; only an empty
      map, and maps inside a list, stay whole. */
  datatype Value =
    | Int(i: int64)
    | Str(s: string)
    | Bool(b: bool)
    | List(items: seq<Value>)
    | Map(m: map<string, Value>)

  const EMPTY_MAP := Map(map[])

  /** A JSON path, outermost segment first. `Key` carries the names that are data (annotation
      keys) and every name this operator never spells out itself. The four labels are
      app.kubernetes.io/managed-by, paas.example.com/owner, valkey.io/cluster and
      operator.prometheus.io/name. */
  datatype Seg =
    | Metadata | Labels | Annotations | Spec | Status | Key(name: string)
    | ManagedByLabel | OwnerLabel | ValkeyClusterLabel | PrometheusNameLabel
    | Replicas | Instances | Shards | Image | ImageName | VersionTag | Retention
    | Storage | Size | StorageClass | StorageClassName | Persistence
    | Database | Owner | Username | Bootstrap | Initdb
    | PasswordSecretKeyRef | RootPasswordSecretKeyRef | SecretName | SecretKey | Generate
    | Galera | Enabled | ReplicasAllowEvenNumber
    | Service | Type | Managed | Services | Additional
    | Monitoring | EnablePodMonitor | Metrics | ServiceMonitor
    | Resources | Requests | Limits | Cpu | Memory
    | ServiceMonitorSelector | PodMonitorSelector
    | SecurityContext | FsGroup | RunAsGroup | RunAsNonRoot | RunAsUser
    | VolumeClaimTemplate | PersistentVolumeClaim | AccessModes
    | Deployment | Ingress | IngressClassName | Rules | Tls | Selector | Ports
    | Phase | ReadyInstances | ReadyShards | StateText | Stage | StageStatus
    | AvailableReplicas | Paused | Conditions

  datatype Path = End | Dot(head: Seg, tail: Path)

  function P1(a: Seg): Path { Dot(a, End) }
  function P2(a: Seg, b: Seg): Path { Dot(a, P1(b)) }
  function P3(a: Seg, b: Seg, c: Seg): Path { Dot(a, P2(b, c)) }
  function P4(a: Seg, b: Seg, c: Seg, d: Seg): Path { Dot(a, P3(b, c, d)) }

  /** Paths below `.status`, which belong to the vendor. */
  predicate InStatus(p: Path) {
    p.Dot? && p.head.Status?
  }

  /** An object's leaves: what an `unstructured.Unstructured` holds. */
  type Fields = map<Path, Value>

  predicate WithoutStatus(f: Fields) {
    forall p :: p in f ==> !InStatus(p)
  }

  datatype Gvk = Gvk(group: string, version: string, kind: string)

  datatype ObjKey = ObjKey(gvk: Gvk, namespace: string, name: string)

  datatype Kind =
    | PostgresCluster | MariaDBCluster | RabbitMQCluster
    | ValkeyCluster | GrafanaInstance | PrometheusInstance

  datatype CrKey = CrKey(kind: Kind, namespace: string, name: string)

  datatype StorageSpec = StorageSpec(size: string, storageClass: string)

  datatype DatabaseSpec = DatabaseSpec(name: string, owner: string)

  datatype ResourceClaim = ResourceClaim(name: string, request: string)

  /** corev1.ResourceRequirements: resource name to quantity, quantities as opaque text. No
      adapter renders the claims. */
  datatype ResourceSpec = ResourceSpec(
    requests: map<string, string>, limits: map<string, string>, claims: seq<ResourceClaim>)

  const NO_RESOURCES := ResourceSpec(map[], map[], [])

  datatype ExposeSpec = ExposeSpec(serviceType: string, annotations: map<string, string>)

  datatype IngressSpec = IngressSpec(
    host: string, ingressClassName: string, tlsSecretName: string, annotations: map<string, string>)

  /** The `.spec` of each custom resource, as the Go struct holds it after decoding. */
  datatype CrSpec =
    | PostgresSpec(instances: int32, image: string, storage: StorageSpec, database: DatabaseSpec,
                   resources: ResourceSpec, enablePodMonitor: bool, expose: Option<ExposeSpec>)
    | MariaDBSpec(replicas: int32, image: string, storage: StorageSpec, database: DatabaseSpec,
                  resources: ResourceSpec, enablePodMonitor: bool, expose: Option<ExposeSpec>)
    | RabbitMQSpec(replicas: int32, image: string, storage: StorageSpec,
                   resources: ResourceSpec, ingress: Option<IngressSpec>)
    | ValkeySpec(shards: int32, replicas: int32, image: string, persistence: StorageSpec,
                 resources: ResourceSpec, expose: Option<ExposeSpec>)
    | GrafanaSpec(version: string, replicas: int32, volume: Option<StorageSpec>, ingress: Option<IngressSpec>)
    | PrometheusSpec(version: string, replicas: int32, retention: string, volume: Option<StorageSpec>,
                     resources: ResourceSpec, ingress: Option<IngressSpec>)

  predicate Fits(kind: Kind, spec: CrSpec) {
    match kind
    case PostgresCluster => spec.PostgresSpec?
    case MariaDBCluster => spec.MariaDBSpec?
    case RabbitMQCluster => spec.RabbitMQSpec?
    case ValkeyCluster => spec.ValkeySpec?
    case GrafanaInstance => spec.GrafanaSpec?
    case PrometheusInstance => spec.PrometheusSpec?
  }

  /** reconciler.TargetStatus. */
  datatype TargetStatus = TargetStatus(phase: string, ready: bool, observedCount: int32, readyCount: int32)

  /** reconciler.ExtraResource: `desired` is None when the object must be absent. */
  datatype Extra = Extra(gvk: Gvk, name: string, desired: Option<Fields>)
}

# A verified model of the PaaS operator's reconciler

The operator turns six custom resources (PostgresCluster, MariaDBCluster,
RabbitMQCluster, ValkeyCluster, GrafanaInstance, PrometheusInstance) into
objects of vendor operators. One generic reconciler drives all of them through
a finalizer, Server-Side Apply of a target and a few extra objects, and status
mirroring; six adapters say what the target looks like. This project models
that reconciler and its adapters in Dafny and proves what holds over every run.

`dafny verify dfyconfig.toml` checks everything.

## How the model is laid out

- `Types`: JSON as leaf paths and values, int32/int64 with Go's truncation, the
  six specs.
- `Objects`, `Manifests`: maps within maps as the code builds them, the leaf
  paths they amount to, the blocks the adapters share, typed reads.
- `ServerSideApply`: forced apply on a field-ownership store, and what a
  history of applies and foreign writes leaves behind.
- `StatusMirror`, `ConditionScan`: `.status` with its conditions, and the loop
  that reads a vendor's condition list.
- `Postgres`, `MariaDB`, `RabbitMQ`, `Valkey`, `Grafana`, `Prometheus`,
  `IngressBuilder`: the adapters. `Manifest`/`Desired` gives the leaves of the
  object, `BuildManifest`/`Build` nests it map by map as the code does.
- `Codec`: what JSON encoding with `omitempty` and CRD defaulting make of a
  spec.
- `Adapters`: the adapter interface as a record and the laws (`Lawful`) the
  reconciler needs; `Operator` assembles the six and proves the laws.
- `Protocol`: the reconciler as a transition system, one API call a step, among
  users, vendors, failures, lost replies, stale reads and crashes.
- `Safety`, `Edits`, `Readiness`, `Events`: results over all runs.
- `Convergence`, `Rounds`, `StaleReads`: whole reconciles, crash-restart,
  convergence, also on stale reads.
- `Answers`: what a reconcile returns, for every schedule, read off what went
  wrong in it and what is stored at its end.
- `Histories`: the life of one object in a run, as a history of writes.
- `Independence`, `KeySpace`: interleavings of two resources.
- `Controller`: the same reconciler as a class with methods, loops and early
  returns, proved to follow the transition system under every schedule.
- `Polling`: the same runs with a clock; how stale a stored status can get, when
  the next look is due, and that the polling settles down.
- `OperatorResults`, `StatusLag`, `GaleraRuns`: what the generic results say with
  these adapters.
- `Wiring`, `StoredStatus`: the operator's inputs and outputs leaf by leaf, with
  all names, ports and paths written out: every leaf of every object it applies,
  and every field of every status it stores.

The generic results are stated for any registry of adapters that is `Lawful`;
`Operator.OperatorIsLawful` makes them apply here.

## What is assumed of the environment

- One reconcile in flight per custom resource, one leader
  (`config/manager/manager.yaml:64`).
- Reads of the custom resource may be stale but never go backwards, also across
  a restart. Reads of targets are current.
- The generation counts changes of the stored document, the deletion included.
- Update and Status().Update fail on a stale resourceVersion; Patch and Delete
  carry no precondition. A request that changes nothing makes no new version.
- A call takes effect before it returns or not at all; its reply can be lost.
- Users do not strip `paas.example.com/cleanup` and do not write the Ready
  condition; other controllers may write conditions of other types.
- Server-Side Apply follows the Kubernetes documentation page "Server-Side
  Apply", section "Field management": a leaf that only this manager owned and no
  longer asks for is removed.

## Where the code does less than its documentation says

- A successful Delete means absent or terminating, not gone. `Released`,
  `SettledMeans` and `ReleasedByOne` say so.
- `TargetStatus.Ready` is documented as "counts equal and positive"
  (`internal/reconciler/reconciler.go:54-55`). `ReadyAgainstItsDoc` gives the
  exact condition for every adapter, `MoreReadyThanThere` and
  `GrafanaIgnoresCounts` targets that miss it.
- `monitoring.enablePodMonitor` is documented as enabled by default
  (`api/v1alpha1/postgrescluster_types.go:78`), but the default sits inside
  `monitoring`: without that block it stays off (`PodMonitorOnlyIfAsked`,
  `NoMonitoringByDefault`).
- With zero replicas of Grafana or Prometheus the first finalizer write stores
  one replica (`ZeroReplicasAreLost`).
- Ready=True at a generation does not mean the vendor has seen that generation
  (`ReadyForUnseenSpec` says exactly when, `LagHappens` gives the run).
- A PrometheusInstance and a RabbitMQCluster of equal name and namespace own the
  same Ingress (`SharedIngressClash`, `SerializableIff`), and while either asks
  for it they never both come to rest (`NeverAtRest`).

A fixpoint (`Settled`) of a resource whose manifest the vendor rejects is the
state in which every reconcile stops at the Patch; `SettledMeans` is about the
accepted ones.

## Model

| member | source | states |
|---|---|---|
| Safety.NoOrphans | internal/reconciler/reconciler.go:147-226 | after any run, every custom resource an object was applied for since the object was created still exists, as the same incarnation, with our finalizer, unless the object is terminating |
| Safety.GoneLeavesNothing | internal/reconciler/reconciler.go:158-185 | once a custom resource is gone, everything ever applied for it is absent or terminating, also what was applied for others as well |
| Safety.DeletionIsOneWay | internal/reconciler/reconciler.go:158-199 | after a deletionTimestamp was read, no continuation re-adds the finalizer or applies anything for that incarnation |
| Safety.StatusAlwaysConsistent | internal/mariadb/mariadb.go:209-237 | in every version ever stored, ready agrees with the one Ready condition and types are unique |
| Safety.StepKeepsInv | internal/reconciler/reconciler.go:142-243 | every step of anyone keeps the invariant behind the safety results |
| Safety.CallKeepsLane | internal/reconciler/reconciler.go:142-243 | each API call keeps the version log one-way and read-protected, and only dropping the finalizer can end an incarnation's protection |
| Safety.AllReleased | internal/reconciler/reconciler.go:158-185 | before the finalizer is dropped every object ever applied for the resource is absent, terminating, or a later object never applied for it |
| Edits.OperatorWritesNewest | internal/reconciler/reconciler.go:178-234 | every write of a custom resource is based on its newest version; what a finalizer write (generation included) and a status write may change; only dropping the last finalizer makes the resource go away; ObservedGeneration is the stored generation; other conditions are kept |
| Edits.SpecIsTheUsers | internal/reconciler/reconciler.go:193-198 | over any run the stored spec is the one users asked for last, if what they ask for survives encoding |
| Edits.FirstReconcileReencodes | internal/reconciler/reconciler.go:193-198 | otherwise the first reconcile replaces it |
| Readiness.ReadyWasReported | internal/reconciler/reconciler.go:209-234 | in every run, every version that says ready was preceded by a status write of this kind (ReadyIsGrounded) |
| Readiness.ReadyIsGrounded | internal/reconciler/reconciler.go:209-234 | for every status write that says ready: a vendor wrote into the status of the very object this reconcile patched, before the Patch and after that object was last created |
| Readiness.StatusWasReported | internal/reconciler/reconciler.go:258-268 | whatever status an object carries, a vendor reported into it and it has been there ever since |
| Readiness.CallWithoutStatus | internal/reconciler/reconciler.go:258-268 | no call of any reconciler puts status into an object |
| Events.EventsBalance | internal/reconciler/reconciler.go:201-219 | TargetCreated events plus unheard plus unseen creations are all creations; equal exactly when neither mishap occurs |
| Convergence.AttemptIsRound | internal/reconciler/reconciler.go:142-243 | a reconcile under any failures ends in a full round or a round cut short; a fault-free one in exactly the round |
| Convergence.AttemptAnswers | internal/reconciler/reconciler.go:142-243 | what a fault-free reconcile returns, by the managed state it found |
| Convergence.DriveIsRun | internal/reconciler/reconciler.go:142-243 | every reconcile call with any interference is a run of the transition system |
| Answers.AnswersFit | internal/reconciler/reconciler.go:142-243 | for every schedule and in terms of the labels used: a reconcile returns an error iff it did not get to its end, crashed, or one of its own calls was not done, wrote a stale version or was refused by the vendor; otherwise the answer is the one for the version read, and what is stored at the end bears it out (finalizer there, finalizer gone, readiness with its 300 or 15 seconds) |
| Answers.UsedIsRun | internal/reconciler/reconciler.go:142-243 | the call is the run of exactly the labels it used (UsedIsPrefix: a prefix of the schedule), cut off by a crash if it never returned |
| Rounds.Converges | internal/reconciler/reconciler.go:158-243 | every schedule of reconciles on fresh reads, two of them fault-free (one if the finalizer is there), ends in the same fixpoint |
| Rounds.SettledIsQuiet | internal/reconciler/reconciler.go:142-243 | at a fixpoint a reconcile, failing or crashing anywhere, stores no version and moves no object |
| Rounds.DriveStoresOne | internal/reconciler/reconciler.go:178-234 | an undisturbed reconcile stores at most one version, and only one that differs from the newest |
| Rounds.ConvergesInFlight | internal/reconciler/reconciler.go:158-243 | the same fixpoint condition when a reconcile is in flight at the start and ends in any way, on stale reads, amid interference, failing or crashing |
| StaleReads.ConvergesOnAnyReads | internal/reconciler/reconciler.go:147-243 | every schedule of reconciles reading any version not older than the last one read ends at a fixpoint if two fault-free ones on fresh reads (one if the finalizer is there) stand anywhere in it |
| Rounds.AttemptProgress | internal/reconciler/reconciler.go:158-243 | the measure (finalizer write due, owned objects out of date, status out of date): failing or crashing never raises it nor moves the destination, a fault-free reconcile lowers it until it is nothing |
| Rounds.ScheduleDecreases | internal/reconciler/reconciler.go:158-243 | with the failures still to come in front, every reconcile lowers the pair lexicographically |
| Rounds.DoneIffSettled | internal/reconciler/reconciler.go:158-243 | the measure is zero exactly at the fixpoints of a reconcile |
| Rounds.CrashRestart | internal/reconciler/reconciler.go:158-243 | stopping at any call and running once more equals one uninterrupted reconcile, and exactly when it is one ahead |
| Rounds.SettledMeans | internal/reconciler/reconciler.go:193-234 | at the fixpoint the manager owns exactly the manifest's paths, extras are there iff asked for, and the status has the readiness, phase and both counts extracted from the target, and the Ready condition for the stored generation |
| Rounds.ReleasedByOne | internal/reconciler/reconciler.go:158-185 | one deletion round, whatever the spec (a rejected one too), removes only our finalizer, leaves the status, and removes every owned object: gone, or the same object terminating if someone else's finalizer holds it |
| Rounds.RoundAfterCut | internal/reconciler/reconciler.go:287-334 | a round cut short anywhere, also amid the extras, does not change where the next one ends |
| Rounds.WorkedTwice | internal/reconciler/reconciler.go:287-321 | doing part of the owned objects again is doing the larger part once |
| Independence.Serializable | internal/reconciler/reconciler.go:142-243 | any interleaving of two resources with disjoint objects equals one after the other |
| Independence.StepsCommute | internal/reconciler/reconciler.go:254-334 | any two steps of such resources commute |
| KeySpace.DisjointUnlessSharedIngress | internal/prometheus/prometheus.go:186-219 | two resources share an object iff they are Prometheus and RabbitMQ of equal name and namespace |
| KeySpace.AloneWithoutPair | internal/prometheus/prometheus.go:186-219 | a resource is alone on all its objects in every run that does not reconcile the other one of such a pair |
| KeySpace.OperatorSerializable | internal/valkey/valkey.go:143-175 | all other pairs are serializable |
| KeySpace.SharedIngressClash | internal/rabbitmq/rabbitmq.go:136-147 | for all such specs, in a run from the start: the next call of the one then the other removes the Ingress, the other order keeps it |
| KeySpace.SerializableIff | internal/prometheus/prometheus.go:186-219 | two resources are serializable in every run iff they are not that pair |
| KeySpace.NeverAtRest | internal/ingress/ingress.go:66-72 | after any run in which both of the pair are at a fixpoint and the Ingress is not terminating, neither asks for it |
| ServerSideApply.HistoryIndependence | internal/reconciler/reconciler.go:258-268 | after any applies and foreign writes the object is the foreign part plus the latest intent, nothing of earlier ones |
| ServerSideApply.AppliedOwnership | internal/reconciler/reconciler.go:258-268 | after an apply the manager owns exactly the intent's paths with its values |
| ServerSideApply.ApplyIdempotent | internal/reconciler/reconciler.go:258-268 | applying again changes neither values nor owners |
| ServerSideApply.ApplyFrame | internal/reconciler/reconciler.go:258-268 | foreign paths, status included, survive untouched |
| ServerSideApply.AppliedLeaf | internal/reconciler/reconciler.go:258-268 | the value and the owners of every single leaf after an apply: shared if the value was there already, won otherwise, given up or removed if not asked for |
| ServerSideApply.CoOwnersKeepTheirLeaf | internal/reconciler/reconciler.go:258-268 | through any history that does not dispute its value, a leaf another manager owns keeps value and owners, and this manager owns it too iff its latest intent asks for it |
| ServerSideApply.SharedThenGivenUp | internal/reconciler/reconciler.go:258-268 | asking for a value someone else owns adds this manager to the owners, and giving it up again leaves the leaf to the others |
| ServerSideApply.OverwrittenLeaf | internal/reconciler/reconciler.go:258-268 | a leaf another manager overwrote is theirs alone; the next apply takes it back if it asks for another value, shares it if it asks for theirs, and otherwise leaves it to them |
| ServerSideApply.AskedPathsFollowLatest | internal/reconciler/reconciler.go:208-213 | a path ever asked for is on the object iff the latest intent asks for it |
| Histories.ObjectIsPlayed | internal/reconciler/reconciler.go:208-213 | after any run an owned object is what the Patches and foreign writes since its creation make of it, if no other resource reconciled in that run shares it |
| Histories.RunForgets | internal/reconciler/reconciler.go:208-213 | so after any run it is its foreign part plus the intent of the latest Patch |
| Histories.ReconcileForgets | internal/reconciler/reconciler.go:208-226 | after any run, one successful reconcile leaves target and extras as their foreign part plus what the current spec asks for, if no other resource reconciled in that run shares the object |
| Histories.ReconcileFollowsSpec | internal/reconciler/reconciler.go:208-226 | after any run, whoever shares the objects, one successful reconcile leaves every asked object owned on exactly the asked paths and every other one removed (gone, or unchanged and terminating if held) |
| StatusMirror.MirrorLaws | internal/cnpg/cnpg.go:186-214 | mirroring stores the extracted readiness and phase and the chosen two counts in their fields, makes the status consistent, keeps other conditions, and is idempotent |
| StatusMirror.SetConditionLaws | internal/valkey/valkey.go:213-224 | setting a condition keeps types unique and all other types' conditions |
| StoredStatus.ReconcileStores | internal/cnpg/cnpg.go:160-214 | for each of the six kinds, after any run and one successful reconcile: the stored count, ready count, readiness, phase and Ready condition, each as an expression over the target's own leaves |
| StoredStatus.StoredInTime | internal/prometheus/prometheus.go:225-252 | in every timed run the stored status has those values for the target as it was at most 15 seconds (not ready) or 5 minutes (ready) ago |
| Operator.OperatorIsLawful | internal/reconciler/reconciler.go:76-119 | the six adapters meet every law the reconciler needs |
| Operator.ExtrasListSlots | internal/reconciler/reconciler.go:109-119 | the extras' identities depend on the target name only, never on the spec |
| Operator.KeysDistinct | internal/prometheus/prometheus.go:186-219 | a resource's target and extras are different objects |
| Operator.ManifestsWriteNoStatus | internal/grafana/grafana.go:69-144 | no manifest writes below status |
| Operator.NotReadyUnreported | internal/rabbitmq/rabbitmq.go:156-195 | without vendor status no adapter reports ready |
| Operator.OperatorLeavesNoOrphans | internal/reconciler/reconciler.go:158-226 | the no-orphans result for this operator |
| Codec.FinalizerWritePreservesSpec | config/crd/bases/paas.example.com_grafanainstances.yaml:107-112 | for every admitted document, encode, default and decode give the spec back iff it is not zero replicas of Grafana or Prometheus |
| Codec.DecodeIsWhatItShows | api/v1alpha1/valkeycluster_types.go:40-68 | decoding gives the one spec whose fields are, key by key, those of the document, an absent key being the zero value |
| Codec.EncodeIsTersest | api/v1alpha1/postgrescluster_types.go:55-84 | encoding writes the one document that shows the spec and has no optional key for a zero value |
| Codec.DefaultFills | config/crd/bases/paas.example.com_valkeyclusters.yaml:73-171 | defaulting fills exactly the absent counts, service types and monitoring switches, with the schema's values |
| Codec.AdmissionIs | config/crd/bases/paas.example.com_valkeyclusters.yaml:73-171 | which documents are admitted: the minimum of each count, the two service types |
| Codec.ExplicitFalseIsDropped | api/v1alpha1/postgrescluster_types.go:75-84 | the stored document can change while the spec does not |
| Codec.RecodedOnce | api/v1alpha1/postgrescluster_types.go:55-84 | the operator's writes change a document at most once |
| Codec.PodMonitorOnlyIfAsked | api/v1alpha1/postgrescluster_types.go:75-84 | for every Postgres and MariaDB document monitoring is on iff the block is given and does not switch it off |
| Codec.NoMonitoringByDefault | api/v1alpha1/postgrescluster_types.go:75-84 | a document without the block stays off, one with an empty block is on |
| OperatorResults.OperatorKeepsSpecs | api/v1alpha1/grafanainstance_types.go:41-45 | without zero replicas the stored spec stays the users' over every run |
| OperatorResults.ZeroReplicasAreLost | api/v1alpha1/prometheusinstance_types.go:50-54 | zero replicas become one at the first reconcile |
| OperatorResults.CountRoundTrip | internal/grafana/grafana.go:72-171 | after apply, RabbitMQ and Grafana read back the spec's replica count for every int32 and every previous target |
| OperatorResults.ReadyAgainstItsDoc | internal/reconciler/reconciler.go:53-61 | for every adapter and target, Ready means what it is documented to mean iff a condition on the target's own fields holds |
| OperatorResults.MoreReadyThanThere | internal/cnpg/cnpg.go:156-180 | targets of the three counting adapters that are ready off their documentation |
| OperatorResults.GrafanaIgnoresCounts | internal/grafana/grafana.go:150-173 | Grafana targets that are off it both ways |
| OperatorResults.OldSpecsLeaveNoTrace | internal/mariadb/mariadb.go:106-137 | after any run and one successful reconcile, scaling to one replica or dropping expose has removed the fields earlier Patches put there |
| OperatorResults.TargetFollowsSpec | internal/reconciler/reconciler.go:208-213 | for every kind: a path ever asked for is on the target iff the reconciled spec asks for it |
| OperatorResults.OwnedFollowsSpec | internal/reconciler/reconciler.go:208-226 | the same for every extra still asked for, where the resource is alone on it |
| OperatorResults.ExtrasFollowSpec | internal/reconciler/reconciler.go:287-321 | after any run and one successful reconcile, each Ingress and Service is there iff the current spec asks for it, whatever a resource sharing the Ingress did |
| OperatorResults.OperatorEventsBalance | internal/reconciler/reconciler.go:201-219 | the books of creation events balance for every resource of this operator |
| StatusLag.StatusLagsSpec | internal/reconciler/reconciler.go:229-230 | an apply leaves what the vendor reports as it was; for four kinds the whole extracted status |
| StatusLag.ReadinessLags | internal/reconciler/reconciler.go:229-230 | for all six kinds the readiness extracted after an apply is the one reported before it, and for RabbitMQ the new count is positive |
| StatusLag.ReadyForUnseenSpec | internal/reconciler/reconciler.go:229-234 | after any run, an edit and one reconcile store Ready=True for the new generation iff the target was reported ready before the edit (and, for RabbitMQ, the new count is positive), with no vendor step in between, for all six kinds |
| StatusLag.LagHappens | internal/reconciler/reconciler.go:229-234 | for every kind and every two accepted specs there is such a run from the start |
| GaleraRuns.EvenChangesNothing | internal/reconciler/reconciler.go:209-213 | after any past, once an even count was read, while it stays even and nobody sets the vendor's even-count override, no step of any reconcile changes the target except by deleting it, records an event or touches the status |
| GaleraRuns.EvenReplicasStall | internal/mariadb/mariadb.go:106-110 | while only even counts were ever asked for no run applies the target, records an event or writes the status, as long as nobody sets the vendor's override |
| GaleraRuns.EvenIsRejected | crd-mariadb-operator-v26.6.0.yaml:6581-6586 | a merged target with an even count fails the vendor's rule |
| MariaDB.MeetsGaleraRule | crd-mariadb-operator-v26.6.0.yaml:6581-6586 | for every admitted count the manifest meets the rule iff the count is odd |
| MariaDB.ManifestReplicates | internal/mariadb/mariadb.go:89-110 | the Galera switch is in the manifest exactly above one replica |
| MariaDB.BuildManifest | internal/mariadb/mariadb.go:81-159 | the maps nested step by step have exactly the manifest's leaves: no empty map but the wanted serviceMonitor |
| MariaDB.ManifestLeaves | internal/mariadb/mariadb.go:81-159 | every path of the applied object: which spec field it carries, when it is absent, and that there is no other path |
| MariaDB.ExtractStatus | internal/mariadb/mariadb.go:166-205 | the scanning code computes the specified status |
| MariaDB.ExtractReads | internal/mariadb/mariadb.go:166-205 | the four extracted values over the target's leaves: ready iff the first well-formed condition of type "Ready" has status "True" and the count is positive; the phase is that condition's reason, or "Unknown" |
| Postgres.BuildManifest | internal/cnpg/cnpg.go:76-155 | the maps nested step by step have exactly the manifest's leaves: no empty block |
| Postgres.ManifestLeaves | internal/cnpg/cnpg.go:76-155 | every path of the applied object: which spec field it carries, when it is absent, and that there is no other path |
| Postgres.ManagedIffExposed | internal/cnpg/cnpg.go:110-134 | the managed services are asked for iff the spec says expose |
| RabbitMQ.BuildManifest | internal/rabbitmq/rabbitmq.go:92-131 | the maps nested step by step have exactly the manifest's leaves: no empty block |
| RabbitMQ.ManifestLeaves | internal/rabbitmq/rabbitmq.go:92-131 | every path of the applied object: which spec field it carries, when it is absent, and that there is no other path |
| RabbitMQ.ExtractStatus | internal/rabbitmq/rabbitmq.go:156-195 | the scanning code computes the specified status |
| RabbitMQ.ExtractReads | internal/rabbitmq/rabbitmq.go:156-195 | the same by the condition of type "AllReplicasReady" and the count under spec |
| Valkey.BuildManifest | internal/valkey/valkey.go:98-138 | the maps nested step by step have exactly the manifest's leaves: no empty block |
| Valkey.ManifestLeaves | internal/valkey/valkey.go:98-138 | every path of the applied object: which spec field it carries, when it is absent, and that there is no other path |
| Valkey.BuildService | internal/valkey/valkey.go:143-175 | the nested external Service has exactly the desired leaves |
| Valkey.ExternalServiceLeaves | internal/valkey/valkey.go:143-175 | every leaf of the external Service |
| Grafana.BuildManifest | internal/grafana/grafana.go:69-144 | the maps nested step by step have exactly the manifest's leaves: no empty block |
| Grafana.ManifestLeaves | internal/grafana/grafana.go:69-144 | every path of the applied object: which spec field it carries, when it is absent, and that there is no other path |
| Prometheus.BuildManifest | internal/prometheus/prometheus.go:106-180 | the maps nested step by step have exactly the manifest's leaves: no empty map but the two wanted selectors |
| Prometheus.ManifestLeaves | internal/prometheus/prometheus.go:106-180 | every path of the applied object: which spec field it carries, when it is absent, and that there is no other path |
| Prometheus.BuildService | internal/prometheus/prometheus.go:186-219 | the nested web Service has exactly the desired leaves |
| Prometheus.WebServiceLeaves | internal/prometheus/prometheus.go:186-219 | every leaf of the web Service |
| IngressBuilder.Build | internal/ingress/ingress.go:29-80 | the nested Ingress has exactly the desired leaves, no empty annotations |
| IngressBuilder.IngressLeaves | internal/ingress/ingress.go:29-80 | every leaf of an Ingress: the rule with its host, path and backend, class and TLS only where given |
| Wiring.TargetIs | internal/cnpg/cnpg.go:47-55 | for each kind the target's group, version, kind and name, and the field manager |
| Wiring.TargetLeaves | internal/cnpg/cnpg.go:76-155 | every leaf of the target a custom resource of any kind asks for |
| Wiring.RabbitMQExtra | internal/rabbitmq/rabbitmq.go:136-147 | the one extra, an Ingress named after the target, wanted iff the spec has an ingress |
| Wiring.RabbitMQExtraLeaves | internal/rabbitmq/rabbitmq.go:136-147 | every leaf of it: to the target's own Service, port 15672 |
| Wiring.ValkeyExtra | internal/valkey/valkey.go:143-175 | the one extra, a Service, wanted iff the spec says expose |
| Wiring.ValkeyExtraLeaves | internal/valkey/valkey.go:143-175 | every leaf of it: type, selector, port 6379 |
| Wiring.PrometheusExtra | internal/prometheus/prometheus.go:186-219 | the two extras, a web Service and an Ingress, both or neither |
| Wiring.PrometheusServiceLeaves | internal/prometheus/prometheus.go:186-219 | every leaf of the web Service, port 9090 |
| Wiring.PrometheusIngressLeaves | internal/prometheus/prometheus.go:186-219 | every leaf of the Ingress: to the web Service, port 9090 |
| Wiring.NoExtras | internal/reconciler/reconciler.go:109-119 | the other three kinds have none |
| Wiring.AcceptsIs | crd-mariadb-operator-v26.6.0.yaml:6581-6586 | only MariaDB targets are refused: Galera with an even count and no override |
| Wiring.ReconciledLeaves | internal/reconciler/reconciler.go:208-213 | after any run and one successful reconcile, the leaves this operator owns on the target are, path by path and value by value, those the tables give for the stored spec |
| Wiring.ReconciledExtra | internal/reconciler/reconciler.go:287-321 | the same for every extra the spec asks for; the others are removed |
| Manifests.CopyAnnotations | internal/cnpg/cnpg.go:112-118 | the copy loop copies every annotation and nothing else |
| Manifests.AnnotationsOf | internal/mariadb/mariadb.go:127-134 | the same loop into a nested map, whose leaves are exactly the annotations |
| Manifests.ResourceList | internal/cnpg/cnpg.go:57-72 | nil iff neither cpu nor memory is there, otherwise exactly their leaves |
| Manifests.ResourcesOf | internal/cnpg/cnpg.go:98-107 | requests and limits appear only where something is rendered |
| Objects.PutNode | internal/cnpg/cnpg.go:98-134 | setting a new key to a map adds exactly its leaves below that key |
| ConditionScan.ScanConditions | internal/mariadb/mariadb.go:174-192 | the loop's result is decided by the first well-formed entry of the wanted type alone: ready iff its status is "True", phase its non-empty reason, otherwise "Unknown" |
| ConditionScan.ScanReports | internal/mariadb/mariadb.go:174-192 | that verdict spelled out over the entries' own "type", "status" and "reason" |
| ConditionScan.ScanIsLookup | internal/rabbitmq/rabbitmq.go:164-182 | the scan is that declarative lookup, Unknown and not ready without such an entry |
| ConditionScan.ScanPermutation | internal/rabbitmq/rabbitmq.go:164-182 | the order of the list does not matter when the entries of the type agree, as with unique types |
| Controller.GenericReconciler.Reconcile | internal/reconciler/reconciler.go:142-243 | for every cluster and schedule: the imperative reconcile uses up a prefix of the schedule and leaves the cluster at the end of exactly that run; it returns an error iff it did not get to its end or one of its calls crashed, failed, lost its reply, wrote a stale version or was refused; Nothing, Requeue and the delay fit the version read and the one stored |
| Controller.GenericReconciler.ReconcileDeletion | internal/reconciler/reconciler.go:158-185 | the deletion path, call by call; it returns an error unless the stored version no longer holds our finalizer |
| Controller.GenericReconciler.ApplyManifest | internal/reconciler/reconciler.go:208-219 | target apply and event, call by call |
| Controller.GenericReconciler.ExtraOne | internal/reconciler/reconciler.go:287-304 | one extra applied or pruned |
| Controller.GenericReconciler.MirrorStatus | internal/reconciler/reconciler.go:228-242 | status write, call by call; it returns an error, or 300 or 15 seconds by the readiness now stored |
| Polling.BoundedStaleness | internal/reconciler/reconciler.go:228-242 | in every timed run the stored status of a live resource has the readiness, phase, both counts and Ready condition extracted from its target as it was at most 15 seconds ago if not ready and 5 minutes if ready, unless its last reconcile was refused |
| Polling.ReconcileMirrors | internal/reconciler/reconciler.go:228-242 | a reconcile that changes nothing has stored what the target shows, field by field, and asks to come back by it |
| Polling.NextLook | internal/reconciler/reconciler.go:228-242 | in every timed run the next reconcile is due exactly at once after a change, the backoff after a refusal, 300 or 15 seconds after by the stored readiness, or at an earlier pending request |
| Polling.SettlesDown | internal/reconciler/reconciler.go:142-243 | in every timed run a reconcile right after two others changes nothing and leaves nothing due at once |

## Left out

- RecodedOnce: takes an explicitly empty map or list (`requests: {}`) as an absent one; Go tells them apart once, writing `resources: {}` before dropping it.
- `cmd/main.go`, webhooks, metrics, TLS, probes and leader election: setup; one leader is assumed.
- The constructors in `internal/controller` and the generated deep copies: wiring only.
- Log lines and the text of status messages: no state depends on them.
- Transition times of conditions: clocks are not part of the model outside `Polling`.
- Parsing and printing of resource quantities: kept as opaque text.
- Nested list merging of Server-Side Apply: lists built by the adapters are single leaves.
- Sharing of `cr` and `desired` through pointers: the code updates them in place, the model reassigns local values, so aliasing is not captured.
- A request that takes effect after its call has already returned an error: excluded by assumption, since a Patch arriving after the deletion path would leave an orphan.
- The vendor operators' own behaviour: arbitrary writes, finalizers and deletions by others.
- Call failures inside `Polling`: there a reconcile takes no time and no call fails; a manifest the vendor refuses is retried after any delay, and the bound is not claimed until a reconcile goes through.

/**
  What the generic results and the adapters together say about specs, counts, the meaning of
  readiness, the traces of old specs and events.
 */
module OperatorResults {
  import opened Types
  import opened ServerSideApply
  import opened Adapters
  import opened Protocol
  import opened Safety
  import opened Convergence
  import opened Histories
  import opened Edits
  import opened Events
  import opened Operator
  import opened Manifests
  import KeySpace
  import Codec
  import MariaDB
  import RabbitMQ
  import Grafana
  import Postgres

  // ---------------------------------------------------------------- specs

  /** Some stored document the API server admits decodes to this spec. */
  ghost predicate AdmittedSpec(spec: CrSpec) {
    exists w :: Codec.Admitted(w) && Codec.Decode(w) == spec
  }

  /** While no user asks for zero replicas of Grafana or Prometheus, the stored spec after any
      run is the one asked for last. */
  lemma OperatorKeepsSpecs(ls: seq<Label>, k: CrKey)
    requires forall i :: 0 <= i < |ls| && ls[i].User? && ls[i].k == k ==>
               && (ls[i].uop.Create? ==> AdmittedSpec(ls[i].uop.spec) && !Codec.ZeroReplicasDropped(ls[i].uop.spec))
               && (ls[i].uop.Edit? ==> AdmittedSpec(ls[i].uop.spec) && !Codec.ZeroReplicasDropped(ls[i].uop.spec))
    ensures Current(Run(AdapterFor, INIT, ls), k).Some? ==>
              Asked(AdapterFor, INIT, ls, k, None) == Some(Current(Run(AdapterFor, INIT, ls), k).value.spec)
  {
    OperatorIsLawful();
    forall spec | AdmittedSpec(spec) && !Codec.ZeroReplicasDropped(spec) ensures Codec.Stored(spec) == spec {
      var w :| Codec.Admitted(w) && Codec.Decode(w) == spec;
      Codec.FinalizerWritePreservesSpec(w);
    }
    SpecIsTheUsers(AdapterFor, ls, k);
  }

  /** And any admitted spec with zero replicas of those kinds is changed to one replica by the
      first reconcile. */
  lemma ZeroReplicasAreLost(k: CrKey, spec: CrSpec, form: nat)
    requires Fits(k.kind, spec) && AdmittedSpec(spec) && Codec.ZeroReplicasDropped(spec)
    ensures var ls := [User(k, UserOp.Create(spec, form, {})), Operator(k, Latest, Done), Operator(k, Latest, Done)];
            && Asked(AdapterFor, INIT, ls, k, None) == Some(spec)
            && Current(Run(AdapterFor, INIT, ls), k).Some?
            && Current(Run(AdapterFor, INIT, ls), k).value.spec == Codec.WithOneReplica(spec) != spec
  {
    var w :| Codec.Admitted(w) && Codec.Decode(w) == spec;
    Codec.FinalizerWritePreservesSpec(w);
    FirstReconcileReencodes(AdapterFor, k, spec, form);
  }

  // ---------------------------------------------------------------- counts

  /** Values on paths the manifest does not ask for are what they were. */
  lemma ForeignValueKept(cur: Obj, manager: string, intent: Fields, applier: Applier, p: Path)
    requires p !in intent && (p in cur.entries ==> manager !in cur.entries[p].owners)
    ensures Agree(Values(ApplyObj(Some(cur), manager, intent, applier).entries), Values(cur.entries), p)
  {
    ApplyFrame(cur.entries, manager, intent, p);
  }

  lemma AppliedValue(cur: Option<Obj>, manager: string, intent: Fields, applier: Applier, p: Path)
    requires p in intent
    ensures var f := Values(ApplyObj(cur, manager, intent, applier).entries); p in f && f[p] == intent[p]
  {
    AppliedOwnership(if cur.Some? then cur.value.entries else map[], manager, intent);
  }

  /** The object a Patch of the target leaves. */
  function Patched(k: CrKey, spec: CrSpec, cur: Option<Obj>, applier: Applier): Fields {
    Values(ApplyObj(cur, AdapterFor(k.kind).fieldManager, Manifest(AdapterFor, k, spec), applier).entries)
  }

  lemma RabbitMQCount(f: Fields, replicas: int32)
    requires RabbitMQ.REPLICAS in f && f[RabbitMQ.REPLICAS] == Int(replicas)
    ensures RabbitMQ.Extract(f).observedCount == replicas
  {
  }

  lemma GrafanaCount(f: Fields, replicas: int32)
    requires Grafana.REPLICAS in f && f[Grafana.REPLICAS] == Int(replicas)
    ensures Grafana.Extract(f).observedCount == replicas
  {
  }

  /** For every int32 count in the spec, and whatever the target held before, the count read
      back after the apply is the spec's: through the int64 widening, the forced merge and
      the int32 narrowing. */
  lemma CountRoundTrip(k: CrKey, spec: CrSpec, cur: Option<Obj>, applier: Applier)
    requires Fits(k.kind, spec) && (spec.RabbitMQSpec? || spec.GrafanaSpec?)
    ensures AdapterFor(k.kind).extract(Patched(k, spec, cur, applier)).observedCount == spec.replicas
  {
    var m := Manifest(AdapterFor, k, spec);
    if spec.RabbitMQSpec? {
      RabbitMQ.ManifestReplicas(spec, k.name);
      AppliedValue(cur, RabbitMQ.FIELD_MANAGER, m, applier, RabbitMQ.REPLICAS);
      RabbitMQCount(Patched(k, spec, cur, applier), spec.replicas);
    } else {
      Grafana.ManifestReplicas(spec, k.name);
      AppliedValue(cur, Grafana.FIELD_MANAGER, m, applier, Grafana.REPLICAS);
      GrafanaCount(Patched(k, spec, cur, applier), spec.replicas);
    }
  }

  // ---------------------------------------------------------------- Ready against its documentation

  /** The documented meaning of TargetStatus.Ready (reconciler.go:54-55): the two counts are
      equal and positive. */
  predicate ReadyAsDocumented(ts: TargetStatus) {
    ts.ready <==> ts.observedCount == ts.readyCount && ts.observedCount > 0
  }

  function CountAt(f: Fields, name: Seg): int32 {
    ToInt32(Int64At(f, P2(Status, name)))
  }

  function GrafanaWanted(f: Fields): int32 {
    ToInt32(if Grafana.REPLICAS in f && f[Grafana.REPLICAS].Int? then f[Grafana.REPLICAS].i else 1)
  }

  predicate GrafanaComplete(f: Fields) {
    StringAt(f, P2(Status, Stage)) == "complete" && StringAt(f, P2(Status, StageStatus)) == "success"
  }

  /** When Ready means what it is documented to mean, by what the target says: always for
      MariaDB and RabbitMQ; for the counting adapters exactly unless the vendor reports more
      units ready than it has; for Grafana exactly when its stage agrees with its counts. */
  lemma ReadyAgainstItsDoc(kind: Kind, f: Fields)
    ensures ReadyAsDocumented(AdapterFor(kind).extract(f)) <==>
              match kind
              case PostgresCluster => !(CountAt(f, ReadyInstances) > CountAt(f, Instances) > 0)
              case ValkeyCluster => !(CountAt(f, ReadyShards) > CountAt(f, Shards) > 0)
              case PrometheusInstance => !(CountAt(f, AvailableReplicas) > CountAt(f, Replicas) > 0)
              case GrafanaInstance => GrafanaComplete(f)
                  <==> GrafanaWanted(f) == CountAt(f, Replicas) && GrafanaWanted(f) > 0
              case _ => true
  {
    if kind.GrafanaInstance? {
      assert OrUnknown(StringAt(f, P2(Status, Stage))) == "complete" <==> StringAt(f, P2(Status, Stage)) == "complete";
    }
  }

  /** Targets that show the other case for the counting adapters: two units ready of one. */
  lemma MoreReadyThanThere()
    ensures var ts := AdapterFor(PostgresCluster).extract(map[P2(Status, Instances) := Int(1),
                                                              P2(Status, ReadyInstances) := Int(2)]);
            ts.ready && !ReadyAsDocumented(ts)
    ensures var ts := AdapterFor(ValkeyCluster).extract(map[P2(Status, Shards) := Int(1),
                                                            P2(Status, ReadyShards) := Int(2)]);
            ts.ready && !ReadyAsDocumented(ts)
    ensures var ts := AdapterFor(PrometheusInstance).extract(map[P2(Status, Replicas) := Int(1),
                                                                 P2(Status, AvailableReplicas) := Int(2)]);
            ts.ready && !ReadyAsDocumented(ts)
  {
  }

  /** ... and for Grafana, which is off both ways: complete with no replica, and all its
      replicas without a stage. */
  lemma GrafanaIgnoresCounts()
    ensures var ts := AdapterFor(GrafanaInstance).extract(map[P2(Status, Stage) := Str("complete"),
                                                              P2(Status, StageStatus) := Str("success")]);
            ts.ready && !ReadyAsDocumented(ts)
    ensures var ts := AdapterFor(GrafanaInstance).extract(map[P2(Status, Replicas) := Int(1)]);
            !ts.ready && !ReadyAsDocumented(ts)
  {
  }

  // ---------------------------------------------------------------- history

  /** There if asked for; otherwise absent or on its way out. */
  predicate ThereIff(x: Option<Obj>, asked: bool) {
    if asked then x.Some? else x.None? || x.value.terminating
  }

  function ObjectAfter(ls: seq<Label>, k: CrKey, plan: seq<Outcome>, o: ObjKey): Option<Obj> {
    Lookup(Attempt(AdapterFor, Run(AdapterFor, INIT, ls), k, plan).objs, o)
  }

  /** Extras track the spec: after any edit history, and whatever a resource sharing the Ingress
      did, a successful reconcile leaves the Ingress of a RabbitMQCluster or PrometheusInstance,
      the web Service of a PrometheusInstance and the external Service of a ValkeyCluster there
      exactly if the current spec asks for it. */
  lemma ExtrasFollowSpec(ls: seq<Label>, k: CrKey, plan: seq<Outcome>)
    requires Reconcilable(AdapterFor, ls, k) && FaultFree(AdapterFor, k, plan)
    ensures var spec := Current(Run(AdapterFor, INIT, ls), k).value.spec;
            match k.kind
            case RabbitMQCluster =>
              spec.RabbitMQSpec? && ThereIff(ObjectAfter(ls, k, plan, KeySpace.IngressKey(k)), spec.ingress.Some?)
            case PrometheusInstance =>
              && spec.PrometheusSpec?
              && ThereIff(ObjectAfter(ls, k, plan, KeySpace.IngressKey(k)), spec.ingress.Some?)
              && ThereIff(ObjectAfter(ls, k, plan, KeySpace.WebServiceKey(k)), spec.ingress.Some?)
            case ValkeyCluster =>
              spec.ValkeySpec? && ThereIff(ObjectAfter(ls, k, plan, KeySpace.ExternalServiceKey(k)), spec.expose.Some?)
            case _ => true
  {
    CurrentFits(ls, k);
    KeySpace.OwnedIs(k);
    ExtrasAsked(k, Current(Run(AdapterFor, INIT, ls), k).value.spec);
    match k.kind {
      case RabbitMQCluster => ThereAfter(ls, k, plan, 1);
      case PrometheusInstance =>
        ThereAfter(ls, k, plan, 1);
        ThereAfter(ls, k, plan, 2);
      case ValkeyCluster => ThereAfter(ls, k, plan, 1);
      case _ =>
    }
  }

  lemma ThereAfter(ls: seq<Label>, k: CrKey, plan: seq<Outcome>, i: nat)
    requires Reconcilable(AdapterFor, ls, k) && FaultFree(AdapterFor, k, plan) && i < |Owned(AdapterFor, k)|
    ensures ThereIff(ObjectAfter(ls, k, plan, Owned(AdapterFor, k)[i]),
                     WantedOn(AdapterFor, k, Current(Run(AdapterFor, INIT, ls), k).value.spec, i).Some?)
  {
    OperatorIsLawful();
    ReconcileFollowsSpec(AdapterFor, ls, k, i, plan);
  }

  /** Which extras a spec asks for. */
  lemma ExtrasAsked(k: CrKey, spec: CrSpec)
    requires Fits(k.kind, spec)
    ensures spec.RabbitMQSpec? ==> (WantedOn(AdapterFor, k, spec, 1).Some? <==> spec.ingress.Some?)
    ensures spec.PrometheusSpec? ==> (WantedOn(AdapterFor, k, spec, 1).Some? <==> spec.ingress.Some?)
    ensures spec.PrometheusSpec? ==> (WantedOn(AdapterFor, k, spec, 2).Some? <==> spec.ingress.Some?)
    ensures spec.ValkeySpec? ==> (WantedOn(AdapterFor, k, spec, 1).Some? <==> spec.expose.Some?)
  {
  }

  /** This object is the i-th the resource owns, no other resource of the run shares it, and
      other writers have stayed off the paths this operator asks for on it. */
  ghost predicate KeptApart(ls: seq<Label>, k: CrKey, i: nat)
    requires Current(Run(AdapterFor, INIT, ls), k).Some? && i < |Owned(AdapterFor, k)|
  {
    var want := WantedAfter(AdapterFor, ls, k, i);
    && AloneOn(AdapterFor, ls, k, Owned(AdapterFor, k)[i])
    && want.Some? && StayOff(AdapterFor, ls, k, Owned(AdapterFor, k)[i], [Reapply(want.value)])
  }

  /** Some Patch in the life of that object asked for this path. */
  ghost predicate OnceAsked(ls: seq<Label>, k: CrKey, i: nat, p: Path)
    requires i < |Owned(AdapterFor, k)|
  {
    Wanted(Story(AdapterFor, ls, k, Owned(AdapterFor, k)[i], |ls|), p)
  }

  /** Whatever the specs before it were, and wherever their reconciles failed: once the current
      spec is reconciled, a path ever asked for is on the target, and on every extra still asked
      for, iff this spec asks for it. By KeySpace.AloneWithoutPair a resource is alone on all its
      objects in every run that does not reconcile the other resource of an Ingress pair, and by
      KeySpace.TargetIsExclusive on its target in every run. */
  lemma OwnedFollowsSpec(ls: seq<Label>, k: CrKey, i: nat, plan: seq<Outcome>, p: Path)
    requires Reconcilable(AdapterFor, ls, k) && FaultFree(AdapterFor, k, plan)
    requires i < |Owned(AdapterFor, k)| && KeptApart(ls, k, i) && OnceAsked(ls, k, i, p)
    ensures var after := Reconciled(AdapterFor, ls, k, i, plan);
            after.Some? && (p in after.value.entries <==> p in WantedAfter(AdapterFor, ls, k, i).value)
  {
    OperatorIsLawful();
    PathsFollowSpec(AdapterFor, ls, k, i, plan, p);
  }

  /** On the target that needs no condition on other resources. */
  lemma TargetFollowsSpec(ls: seq<Label>, k: CrKey, plan: seq<Outcome>, p: Path)
    requires Reconcilable(AdapterFor, ls, k) && FaultFree(AdapterFor, k, plan) && OnceAsked(ls, k, 0, p)
    requires StayOff(AdapterFor, ls, k, TargetKey(AdapterFor, k),
                     [Reapply(Manifest(AdapterFor, k, Current(Run(AdapterFor, INIT, ls), k).value.spec))])
    ensures var after := Reconciled(AdapterFor, ls, k, 0, plan);
            var spec := Current(Run(AdapterFor, INIT, ls), k).value.spec;
            after.Some? && (p in after.value.entries <==> p in Manifest(AdapterFor, k, spec))
  {
    var spec := Current(Run(AdapterFor, INIT, ls), k).value.spec;
    KeySpace.TargetIsExclusive(k);
    assert Owned(AdapterFor, k)[0] == TargetKey(AdapterFor, k);
    assert WantedAfter(AdapterFor, ls, k, 0) == Some(Manifest(AdapterFor, k, spec));
    OwnedFollowsSpec(ls, k, 0, plan, p);
  }

  /** So scaling a MariaDB to one replica takes the Galera switch away, and dropping `expose`
      the service block (MariaDB) or the managed services (CloudNativePG). */
  lemma OldSpecsLeaveNoTrace(ls: seq<Label>, k: CrKey, plan: seq<Outcome>)
    requires Reconcilable(AdapterFor, ls, k) && FaultFree(AdapterFor, k, plan)
    requires StayOff(AdapterFor, ls, k, TargetKey(AdapterFor, k),
                     [Reapply(Manifest(AdapterFor, k, Current(Run(AdapterFor, INIT, ls), k).value.spec))])
    ensures var spec := Current(Run(AdapterFor, INIT, ls), k).value.spec;
            var after := Reconciled(AdapterFor, ls, k, 0, plan);
            && (k.kind.MariaDBCluster? && OnceAsked(ls, k, 0, MariaDB.GALERA_ENABLED) ==>
                  spec.MariaDBSpec? && after.Some?
                  && (MariaDB.GALERA_ENABLED in after.value.entries <==> spec.replicas > 1))
            && (k.kind.MariaDBCluster? && OnceAsked(ls, k, 0, MariaDB.SERVICE_TYPE) ==>
                  spec.MariaDBSpec? && after.Some?
                  && (MariaDB.SERVICE_TYPE in after.value.entries <==> spec.expose.Some?))
            && (k.kind.PostgresCluster? && OnceAsked(ls, k, 0, Postgres.ADDITIONAL_SERVICES) ==>
                  spec.PostgresSpec? && after.Some?
                    && (Postgres.ADDITIONAL_SERVICES in after.value.entries <==> spec.expose.Some?))
  {
    var spec := Current(Run(AdapterFor, INIT, ls), k).value.spec;
    CurrentFits(ls, k);
    forall p | OnceAsked(ls, k, 0, p)
      ensures Reconciled(AdapterFor, ls, k, 0, plan).Some?
      ensures p in Reconciled(AdapterFor, ls, k, 0, plan).value.entries <==> p in Manifest(AdapterFor, k, spec)
    {
      TargetFollowsSpec(ls, k, plan, p);
    }
    if k.kind.MariaDBCluster? {
      MariaDB.ManifestReplicates(spec, k.name, k.name);
      MariaDB.ServiceIffExposed(spec, k.name, k.name);
    } else if k.kind.PostgresCluster? {
      Postgres.ManagedIffExposed(spec, k.name, k.name);
    }
  }

  lemma CurrentFits(ls: seq<Label>, k: CrKey)
    requires Current(Run(AdapterFor, INIT, ls), k).Some?
    ensures Fits(k.kind, Current(Run(AdapterFor, INIT, ls), k).value.spec)
  {
    OperatorIsLawful();
    InitInv(AdapterFor);
    RunKeepsInv(AdapterFor, INIT, ls);
    assert LaneInv(k.kind, LaneOf(Run(AdapterFor, INIT, ls), k));
  }

  // ---------------------------------------------------------------- events

  /** The books of TargetCreated events balance for every resource of this operator, as long as
      nobody else creates its target. */
  lemma OperatorEventsBalance(ls: seq<Label>, k: CrKey)
    requires forall i :: 0 <= i < |ls| && ls[i].Vendor? && ls[i].o == TargetKey(AdapterFor, k) ==> !ls[i].vop.Create?
    ensures var c := Count(AdapterFor, INIT, ls, k); var events := LaneOf(Run(AdapterFor, INIT, ls), k).events;
            && events + c.unheard + c.unseen == c.created
            && (events == c.created <==> c.unheard == 0 && c.unseen == 0)
  {
    OperatorIsLawful();
    KeySpace.TargetIsExclusive(k);
    assert OwnedDistinct(AdapterFor, k) && Owned(AdapterFor, k)[0] == TargetKey(AdapterFor, k);
    EventsBalance(AdapterFor, ls, k);
  }
}

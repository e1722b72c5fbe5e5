/**
  What ends up in each custom resource's `.status`, read straight off the leaves of its target:
  the composition of ExtractStatus and ApplyStatus for all six kinds (for example
  internal/cnpg/cnpg.go:160-214).
 */
module StoredStatus {
  import opened Types
  import opened ServerSideApply
  import opened StatusMirror
  import opened Adapters
  import opened Protocol
  import opened Safety
  import opened Convergence
  import opened Rounds
  import opened Histories
  import opened Operator
  import opened ConditionScan
  import Polling
  import MariaDB
  import RabbitMQ

  /** An integer leaf as int32, 0 if there is none. */
  predicate CountIs(f: Fields, p: Path, n: int32) {
    if p in f && f[p].Int? then n == ToInt32(f[p].i) else n == 0
  }

  /** A string leaf, empty if there is none. */
  predicate TextIs(f: Fields, p: Path, text: string) {
    if p in f && f[p].Str? then text == f[p].s else text == ""
  }

  /** The string leaf, or "Unknown" without one. */
  predicate PhaseIs(f: Fields, p: Path, phase: string) {
    if p in f && f[p].Str? && f[p].s != "" then phase == f[p].s else phase == "Unknown"
  }

  function Listed(f: Fields, p: Path): seq<Value> {
    if p in f && f[p].List? then f[p].items else []
  }

  /** A counting adapter: as many ready as there are, and at least one. */
  predicate Counting(f: Fields, st: CrStatus, count: Path, ready: Path) {
    && CountIs(f, count, st.count) && CountIs(f, ready, st.readyCount)
    && (st.ready <==> st.count > 0 && st.readyCount >= st.count)
  }

  /** An adapter that goes by a condition. */
  ghost predicate Conditional(f: Fields, st: CrStatus, count: Path, ctype: string) {
    && CountIs(f, count, st.count)
    && exists holds: bool ::
         && Reports(Listed(f, P2(Status, Conditions)), ctype, st.phase, holds)
         && st.readyCount == (if holds then st.count else 0)
         && (st.ready <==> holds && st.count > 0)
  }

  predicate GrafanaPhase(f: Fields, phase: string) {
    var p, q := P2(Status, Stage), P2(Status, StageStatus);
    var stage := if p in f && f[p].Str? && f[p].s != "" then f[p].s else "Unknown";
    var stageStatus := if q in f && f[q].Str? then f[q].s else "";
    phase == stage + "/" + stageStatus
  }

  predicate SaysText(f: Fields, p: Path, text: string) {
    p in f && f[p] == Str(text)
  }

  predicate PrometheusPhase(f: Fields, st: CrStatus) {
    if P2(Status, Paused) in f && f[P2(Status, Paused)] == Bool(true) then st.phase == "Paused"
    else if st.count > 0 then st.phase == "Progressing"
    else st.phase == "Unknown"
  }

  /** The four fields, by kind. A GrafanaInstance stores one count only, the ready one. */
  ghost predicate Mirrored(kind: Kind, f: Fields, st: CrStatus) {
    match kind
    case PostgresCluster =>
      Counting(f, st, P2(Status, Instances), P2(Status, ReadyInstances)) && PhaseIs(f, P2(Status, Phase), st.phase)
    case MariaDBCluster => Conditional(f, st, P2(Status, Replicas), "Ready")
    case RabbitMQCluster => Conditional(f, st, P2(Spec, Replicas), "AllReplicasReady")
    case ValkeyCluster =>
      Counting(f, st, P2(Status, Shards), P2(Status, ReadyShards)) && PhaseIs(f, P2(Status, StateText), st.phase)
    case GrafanaInstance =>
      && CountIs(f, P2(Status, Replicas), st.count) && st.readyCount == 0
      && GrafanaPhase(f, st.phase)
      && (st.ready <==> SaysText(f, P2(Status, Stage), "complete") && SaysText(f, P2(Status, StageStatus), "success"))
    case PrometheusInstance =>
      Counting(f, st, P2(Status, Replicas), P2(Status, AvailableReplicas)) && PrometheusPhase(f, st)
  }

  function ReasonFor(kind: Kind, ready: bool): string {
    match kind
    case GrafanaInstance => if ready then "GrafanaReady" else "GrafanaNotReady"
    case PrometheusInstance => if ready then "PrometheusReady" else "PrometheusNotReady"
    case _ => if ready then "ClusterReady" else "ClusterNotReady"
  }

  /** The Ready condition of that kind at that generation. */
  predicate Conditioned(kind: Kind, st: CrStatus, generation: nat) {
    Condition("Ready", if st.ready then "True" else "False", ReasonFor(kind, st.ready), generation) in st.conditions
  }

  // ---------------------------------------------------------------- one adapter at a time

  /** The status says what this extraction does, counts as this kind stores them. */
  predicate Stores(kind: Kind, ts: TargetStatus, st: CrStatus) {
    && st.ready == ts.ready && st.phase == ts.phase
    && st.count == AdapterFor(kind).counts(ts).0 && st.readyCount == AdapterFor(kind).counts(ts).1
  }

  lemma CountersStore(kind: Kind, f: Fields, st: CrStatus)
    requires kind.PostgresCluster? || kind.ValkeyCluster? || kind.PrometheusInstance?
    requires Stores(kind, AdapterFor(kind).extract(f), st)
    ensures Mirrored(kind, f, st)
  {
  }

  lemma GrafanaStores(f: Fields, st: CrStatus)
    requires Stores(GrafanaInstance, AdapterFor(GrafanaInstance).extract(f), st)
    ensures Mirrored(GrafanaInstance, f, st)
  {
  }

  lemma MariaDBStores(f: Fields, st: CrStatus)
    requires Stores(MariaDBCluster, MariaDB.Extract(f), st)
    ensures Mirrored(MariaDBCluster, f, st)
  {
    var holds := MariaDB.ExtractReads(f);
    assert Reports(Listed(f, P2(Status, Conditions)), "Ready", st.phase, holds);
  }

  lemma RabbitMQStores(f: Fields, st: CrStatus)
    requires Stores(RabbitMQCluster, RabbitMQ.Extract(f), st)
    ensures Mirrored(RabbitMQCluster, f, st)
  {
    var holds := RabbitMQ.ExtractReads(f);
    assert Reports(Listed(f, P2(Status, Conditions)), "AllReplicasReady", st.phase, holds);
  }

  lemma EveryKindStores(kind: Kind, f: Fields, st: CrStatus)
    requires Stores(kind, AdapterFor(kind).extract(f), st)
    ensures Mirrored(kind, f, st)
  {
    match kind {
      case MariaDBCluster => MariaDBStores(f, st);
      case RabbitMQCluster => RabbitMQStores(f, st);
      case GrafanaInstance => GrafanaStores(f, st);
      case _ => CountersStore(kind, f, st);
    }
  }

  lemma ConditionStored(kind: Kind, ts: TargetStatus, st: CrStatus, generation: nat)
    requires st.ready == ts.ready && ReadyCondition(ts, AdapterFor(kind).reasons, generation) in st.conditions
    ensures Conditioned(kind, st, generation)
  {
  }

  // ---------------------------------------------------------------- main results

  /** After any run and one successful reconcile, the stored readiness, phase, both counts and
      the Ready condition are those of the target's own leaves, for the stored generation. */
  lemma ReconcileStores(before: seq<Label>, k: CrKey, plan: seq<Outcome>)
    requires Reconcilable(AdapterFor, before, k) && FaultFree(AdapterFor, k, plan)
    ensures var t := Attempt(AdapterFor, Run(AdapterFor, INIT, before), k, plan);
            && Current(t, k).Some? && TargetKey(AdapterFor, k) in t.objs
            && var cr := Current(t, k).value;
            && Mirrored(k.kind, Values(t.objs[TargetKey(AdapterFor, k)].entries), cr.status)
            && Conditioned(k.kind, cr.status, cr.generation)
  {
    OperatorIsLawful();
    LiveAttempt(AdapterFor, before, k, plan);
    RunKeepsInv(AdapterFor, INIT, before);
    var s := Run(AdapterFor, INIT, before);
    RoundStores(k, s, Current(s, k).value);
  }

  /** What such a reconcile leaves of the target and the resource. */
  lemma LiveAttempt(reg: Registry, before: seq<Label>, k: CrKey, plan: seq<Outcome>)
    requires Lawful(reg) && Reconcilable(reg, before, k) && FaultFree(reg, k, plan)
    ensures Inv(reg, INIT) && LaneInv(k.kind, LaneOf(Run(reg, INIT, before), k))
    ensures var s := Run(reg, INIT, before);
            var t := Attempt(reg, s, k, plan);
            var cr := Current(s, k).value;
            var x := AppliedTarget(reg, k, cr, s.objs);
            && Lookup(t.objs, TargetKey(reg, k)) == Some(x)
            && Current(t, k) == Some(StatusMirrored(reg(k.kind), cr, Values(x.entries)))
  {
    var s := Run(reg, INIT, before);
    InitInv(reg);
    RunKeepsInv(reg, INIT, before);
    assert LaneInv(k.kind, LaneOf(s, k)) && OwnedDistinct(reg, k);
    AttemptIsRound(reg, k, s, plan);
    WorkedOwn(reg, k, JobOf(Current(s, k).value), s.objs, |Owned(reg, k)|, 0);
    assert Owned(reg, k)[0] == TargetKey(reg, k);
  }

  lemma RoundStores(k: CrKey, s: State, cr: Cr)
    requires LaneInv(k.kind, LaneOf(s, k)) && Current(s, k) == Some(cr)
    ensures var f := Values(AppliedTarget(AdapterFor, k, cr, s.objs).entries);
            var st := StatusMirrored(AdapterFor(k.kind), cr, f).status;
            Mirrored(k.kind, f, st) && Conditioned(k.kind, st, cr.generation)
  {
    var a := AdapterFor(k.kind);
    var f := Values(AppliedTarget(AdapterFor, k, cr, s.objs).entries);
    var ts := a.extract(f);
    var st := StatusMirrored(a, cr, f).status;
    ViewWellformed(k, s);
    MirrorLaws(cr.status, ts, a.reasons, a.counts(ts), cr.generation);
    EveryKindStores(k.kind, f, st);
    ConditionStored(k.kind, ts, st, cr.generation);
  }

  /** And in every timed run the stored status shows the leaves of the target as they were at
      most 15 seconds (not ready) or 5 minutes (ready) ago. */
  lemma StoredInTime(k: CrKey, es: seq<Polling.Moment>)
    requires Polling.Tended(Polling.Timeline(AdapterFor, k, es), k)
    ensures var c := Polling.Timeline(AdapterFor, k, es);
            var st := Current(c.s, k).value.status;
            exists j :: 0 <= j <= |es| &&
              var past := Polling.Timeline(AdapterFor, k, es[..j]);
              && past.now <= c.now <= past.now + (if st.ready then 300 else 15)
              && TargetKey(AdapterFor, k) in past.s.objs
              && Mirrored(k.kind, Values(past.s.objs[TargetKey(AdapterFor, k)].entries), st)
  {
    OperatorIsLawful();
    Polling.BoundedStaleness(AdapterFor, k, es);
    var c := Polling.Timeline(AdapterFor, k, es);
    var st := Current(c.s, k).value.status;
    var j :| 0 <= j <= |es|
      && var past := Polling.Timeline(AdapterFor, k, es[..j]);
         Polling.Mirrors(AdapterFor, k, st, past.s) && past.now <= c.now <= past.now + (if st.ready then 300 else 15);
    var past := Polling.Timeline(AdapterFor, k, es[..j]);
    EveryKindStores(k.kind, Values(past.s.objs[TargetKey(AdapterFor, k)].entries), st);
  }
}

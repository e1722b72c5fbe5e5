/**
  Ready=True at a generation does not mean that the vendor has seen that generation: the
  status mirrored right after a new spec is applied is the one reported before it
  (internal/reconciler/reconciler.go:229-234).
 */
module StatusLag {
  import opened Types
  import opened ServerSideApply
  import opened StatusMirror
  import opened Adapters
  import opened Protocol
  import opened Safety
  import opened Convergence
  import opened Rounds
  import opened Operator
  import opened OperatorResults
  import opened Manifests
  import opened ConditionScan
  import MariaDB
  import RabbitMQ
  import KeySpace

  // ---------------------------------------------------------------- one apply

  /** The kinds whose ExtractStatus looks at nothing but `.status`. */
  predicate ReadsStatusOnly(kind: Kind) {
    kind.PostgresCluster? || kind.MariaDBCluster? || kind.ValkeyCluster? || kind.PrometheusInstance?
  }

  /** What the vendor's status alone says about readiness. RabbitMQ's adapter also wants a
      positive count in the target's spec. */
  predicate ReportsReady(kind: Kind, f: Fields) {
    if kind.RabbitMQCluster? then Scan(ListAt(f, P2(Status, Conditions)), "AllReplicasReady").ready
    else AdapterFor(kind).extract(f).ready
  }

  lemma StatusDecides(kind: Kind, f: Fields, g: Fields)
    requires forall p :: InStatus(p) ==> Agree(f, g, p)
    ensures ReportsReady(kind, f) == ReportsReady(kind, g)
    ensures ReadsStatusOnly(kind) ==> AdapterFor(kind).extract(f) == AdapterFor(kind).extract(g)
  {
    forall a: Seg
      ensures Int64At(f, P2(Status, a)) == Int64At(g, P2(Status, a))
      ensures StringAt(f, P2(Status, a)) == StringAt(g, P2(Status, a))
      ensures TrueAt(f, P2(Status, a)) == TrueAt(g, P2(Status, a))
      ensures ListAt(f, P2(Status, a)) == ListAt(g, P2(Status, a))
    {
      assert InStatus(P2(Status, a));
    }
  }

  /** This operator owns nothing in the object's status. */
  ghost predicate StatusForeign(e: Entries, manager: string) {
    forall p :: p in e && InStatus(p) ==> manager !in e[p].owners
  }

  lemma StatusSurvives(k: CrKey, spec: CrSpec, cur: Obj, applier: Applier)
    requires Fits(k.kind, spec) && StatusForeign(cur.entries, AdapterFor(k.kind).fieldManager)
    ensures forall p :: InStatus(p) ==> Agree(Patched(k, spec, Some(cur), applier), Values(cur.entries), p)
  {
    ManifestsWriteNoStatus(k, spec);
    forall p | InStatus(p) ensures Agree(Patched(k, spec, Some(cur), applier), Values(cur.entries), p) {
      ForeignValueKept(cur, AdapterFor(k.kind).fieldManager, Manifest(AdapterFor, k, spec), applier, p);
    }
  }

  /** Applying any spec at all leaves what the vendor reports as it was; for the kinds that
      read nothing but `.status` the whole extracted status is the one from before. */
  lemma StatusLagsSpec(k: CrKey, spec: CrSpec, cur: Obj, applier: Applier)
    requires Fits(k.kind, spec) && StatusForeign(cur.entries, AdapterFor(k.kind).fieldManager)
    ensures ReportsReady(k.kind, Patched(k, spec, Some(cur), applier)) == ReportsReady(k.kind, Values(cur.entries))
    ensures ReadsStatusOnly(k.kind) ==>
              AdapterFor(k.kind).extract(Patched(k, spec, Some(cur), applier))
                == AdapterFor(k.kind).extract(Values(cur.entries))
  {
    StatusSurvives(k, spec, cur, applier);
    StatusDecides(k.kind, Patched(k, spec, Some(cur), applier), Values(cur.entries));
  }

  predicate CountPositive(spec: CrSpec) {
    spec.RabbitMQSpec? ==> spec.replicas > 0
  }

  lemma RabbitMQReady(f: Fields, replicas: int32)
    requires RabbitMQ.REPLICAS in f && f[RabbitMQ.REPLICAS] == Int(replicas)
    ensures RabbitMQ.Extract(f).ready <==> ReportsReady(RabbitMQCluster, f) && replicas > 0
  {
  }

  /** So for every kind the readiness stored after the apply is the reported one, and for
      RabbitMQ the new spec's count has to be positive as well. */
  lemma ReadinessLags(k: CrKey, spec: CrSpec, cur: Obj, applier: Applier)
    requires Fits(k.kind, spec) && StatusForeign(cur.entries, AdapterFor(k.kind).fieldManager)
    ensures AdapterFor(k.kind).extract(Patched(k, spec, Some(cur), applier)).ready
            <==> ReportsReady(k.kind, Values(cur.entries)) && CountPositive(spec)
  {
    StatusLagsSpec(k, spec, cur, applier);
    if spec.RabbitMQSpec? {
      RabbitMQ.ManifestReplicas(spec, k.name);
      AppliedValue(Some(cur), RabbitMQ.FIELD_MANAGER, Manifest(AdapterFor, k, spec), applier, RabbitMQ.REPLICAS);
      RabbitMQReady(Patched(k, spec, Some(cur), applier), spec.replicas);
    }
  }

  // ---------------------------------------------------------------- over runs

  /** Everyone else writes to the object under a field manager of their own. */
  predicate OwnName(l: Label, o: ObjKey, manager: string) {
    l.Vendor? && l.o == o ==>
      match l.vop
      case Create(_, writer) => writer != manager
      case Change(Put(writer, _, _)) => writer != manager
      case _ => true
  }

  lemma ApplyKeepsForeign(e: Entries, by_: string, intent: Fields, manager: string)
    requires StatusForeign(e, manager) && WithoutStatus(intent)
    ensures StatusForeign(Apply(e, by_, intent), manager)
  {
  }

  lemma CallKeepsForeign(reg: Registry, k: CrKey, lane: Lane, cur: Option<Obj>, read: Read, out: Outcome,
                         manager: string)
    requires Lawful(reg) && LaneInv(k.kind, lane) && (cur.Some? ==> StatusForeign(cur.value.entries, manager))
    ensures var x := Call(reg, k, lane, cur, read, out).1; x.Some? ==> StatusForeign(x.value.entries, manager)
  {
    if !lane.pc.Idle? {
      assert lane.log[lane.cursor] == Some(lane.pc.cr);
      var e := if cur.Some? then cur.value.entries else map[];
      var by_ := reg(k.kind).fieldManager;
      assert WithoutStatus(Manifest(reg, k, lane.pc.cr.spec));
      ApplyKeepsForeign(e, by_, Manifest(reg, k, lane.pc.cr.spec), manager);
      if lane.pc.Extras? && lane.pc.next < |ExtrasOf(reg, k, lane.pc.cr.spec)| {
        var want := ExtrasOf(reg, k, lane.pc.cr.spec)[lane.pc.next].desired;
        if want.Some? { ApplyKeepsForeign(e, by_, want.value, manager); }
      }
    }
  }

  lemma StepKeepsForeign(reg: Registry, s: State, l: Label, o: ObjKey, manager: string)
    requires Lawful(reg) && Inv(reg, s) && OwnName(l, o, manager)
    requires o in s.objs ==> StatusForeign(s.objs[o].entries, manager)
    ensures o in Step(reg, s, l).objs ==> StatusForeign(Step(reg, s, l).objs[o].entries, manager)
  {
    if l.Operator? {
      var lane := LaneOf(s, l.k);
      assert LaneInv(l.k.kind, lane);
      if Focus(reg, l.k, lane.pc) == o { CallKeepsForeign(reg, l.k, lane, Lookup(s.objs, o), l.read, l.out, manager); }
    }
  }

  lemma {:induction false} RunKeepsForeign(reg: Registry, s: State, ls: seq<Label>, o: ObjKey, manager: string)
    requires Lawful(reg) && Inv(reg, s) && (forall l :: l in ls ==> OwnName(l, o, manager))
    requires o in s.objs ==> StatusForeign(s.objs[o].entries, manager)
    ensures o in Run(reg, s, ls).objs ==> StatusForeign(Run(reg, s, ls).objs[o].entries, manager)
    decreases |ls|
  {
    if ls != [] {
      StepKeepsForeign(reg, s, ls[0], o, manager);
      StepKeepsInv(reg, s, ls[0]);
      RunKeepsForeign(reg, Step(reg, s, ls[0]), ls[1..], o, manager);
    }
  }

  /** The stored status says so, also in its Ready condition, and for exactly the stored
      generation. */
  ghost predicate SaysAtGeneration(cr: Cr, ready: bool) {
    && cr.status.ready == ready
    && exists c ::
         && c in cr.status.conditions && c.ctype == READY
         && c.status == (if ready then "True" else "False") && c.observedGeneration == cr.generation
  }

  /** The vendor reports the target ready. */
  predicate Reported(s: State, k: CrKey) {
    var target := TargetKey(AdapterFor, k);
    target in s.objs && ReportsReady(k.kind, Values(s.objs[target].entries))
  }

  /** A target that is only now created is not ready. */
  lemma FreshIsNotReady(k: CrKey, spec: CrSpec, applier: Applier)
    requires Fits(k.kind, spec)
    ensures !AdapterFor(k.kind).extract(Patched(k, spec, None, applier)).ready
  {
    ManifestsWriteNoStatus(k, spec);
    NotReadyUnreported(k.kind, Patched(k, spec, None, applier));
  }

  /** After any run, edit a resource and reconcile it once: for the generation the edit made it
      says Ready=True exactly if its vendor reported the target ready before the edit (and, for
      a RabbitMQCluster, the new count is positive). The vendor has not taken a single step
      since. */
  lemma ReadyForUnseenSpec(before: seq<Label>, k: CrKey, spec: CrSpec, form: nat, plan: seq<Outcome>)
    requires FaultFree(AdapterFor, k, plan) && Fits(k.kind, spec)
    requires forall l :: l in before ==> OwnName(l, TargetKey(AdapterFor, k), AdapterFor(k.kind).fieldManager)
    requires var s := Run(AdapterFor, INIT, before);
             && LaneOf(s, k).pc.Idle? && Current(s, k).Some? && LiveWithFinalizer(Current(s, k).value)
             && Accepted(AdapterFor, k, WithSpec(Current(s, k).value, spec, form), s.objs)
    ensures var s := Run(AdapterFor, INIT, before);
            var t := Attempt(AdapterFor, Step(AdapterFor, s, User(k, Edit(spec, form))), k, plan);
            && Current(t, k).Some? && Current(t, k).value.spec == spec
            && Current(t, k).value.generation
               == WithSpec(Current(s, k).value, spec, form).generation
            && SaysAtGeneration(Current(t, k).value, Reported(s, k) && CountPositive(spec))
  {
    var s := Run(AdapterFor, INIT, before);
    OperatorIsLawful();
    InitInv(AdapterFor);
    RunKeepsInv(AdapterFor, INIT, before);
    RunKeepsForeign(AdapterFor, INIT, before, TargetKey(AdapterFor, k), AdapterFor(k.kind).fieldManager);
    EditStep(AdapterFor, k, s, spec, form);
    var u := Step(AdapterFor, s, User(k, Edit(spec, form)));
    StepKeepsInv(AdapterFor, s, User(k, Edit(spec, form)));
    var cr := WithSpec(Current(s, k).value, spec, form);
    MergedReadiness(k, s, spec, Applier(k, cr.uid));
    ReconcileSays(k, u, cr, plan);
  }

  lemma EditStep(reg: Registry, k: CrKey, s: State, spec: CrSpec, form: nat)
    requires Fits(k.kind, spec) && Current(s, k).Some?
    ensures var u := Step(reg, s, User(k, Edit(spec, form)));
            && Current(u, k) == Some(WithSpec(Current(s, k).value, spec, form))
            && u.objs == s.objs && LaneOf(u, k).pc == LaneOf(s, k).pc
  {
  }

  lemma MergedReadiness(k: CrKey, s: State, spec: CrSpec, applier: Applier)
    requires Fits(k.kind, spec)
    requires var target := TargetKey(AdapterFor, k);
             target in s.objs ==> StatusForeign(s.objs[target].entries, AdapterFor(k.kind).fieldManager)
    ensures AdapterFor(k.kind).extract(Patched(k, spec, Lookup(s.objs, TargetKey(AdapterFor, k)), applier)).ready
            <==> Reported(s, k) && CountPositive(spec)
  {
    var target := TargetKey(AdapterFor, k);
    if target in s.objs {
      ReadinessLags(k, spec, s.objs[target], applier);
    } else {
      FreshIsNotReady(k, spec, applier);
    }
  }

  /** A successful reconcile of that version says what the merged target does. */
  lemma ReconcileSays(k: CrKey, s: State, cr: Cr, plan: seq<Outcome>)
    requires Inv(AdapterFor, s) && LaneOf(s, k).pc.Idle? && FaultFree(AdapterFor, k, plan)
    requires Current(s, k) == Some(cr) && LiveWithFinalizer(cr) && Accepted(AdapterFor, k, cr, s.objs)
    ensures var v := Current(Attempt(AdapterFor, s, k, plan), k);
            var merged := Patched(k, cr.spec, Lookup(s.objs, TargetKey(AdapterFor, k)), Applier(k, cr.uid));
            && v.Some? && v.value == cr.(status := v.value.status)
            && SaysAtGeneration(v.value, AdapterFor(k.kind).extract(merged).ready)
  {
    assert LaneInv(k.kind, LaneOf(s, k));
    OperatorIsLawful();
    AttemptIsRound(AdapterFor, k, s, plan);
    MirroredReady(k, s, cr);
  }

  lemma MirroredReady(k: CrKey, s: State, cr: Cr)
    requires LaneInv(k.kind, LaneOf(s, k)) && Current(s, k) == Some(cr) && LiveWithFinalizer(cr)
    requires Accepted(AdapterFor, k, cr, s.objs)
    ensures var v := Round(AdapterFor, k, ViewOf(s, k)).cr;
            var merged := Patched(k, cr.spec, Lookup(s.objs, TargetKey(AdapterFor, k)), Applier(k, cr.uid));
            && v.Some? && v.value == cr.(status := v.value.status)
            && SaysAtGeneration(v.value, AdapterFor(k.kind).extract(merged).ready)
  {
    var a := AdapterFor(k.kind);
    var ts := a.extract(Values(AppliedTarget(AdapterFor, k, cr, s.objs).entries));
    ViewWellformed(k, s);
    MirrorLaws(cr.status, ts, a.reasons, a.counts(ts), cr.generation);
    assert ReadyCondition(ts, a.reasons, cr.generation).observedGeneration == cr.generation;
  }

  // ---------------------------------------------------------------- a run in which it happens

  datatype Report = Report(path: Path, value: Value)

  /** Two writes by which each vendor reports its object ready. */
  function ReadyReport(kind: Kind): (Report, Report) {
    match kind
    case PostgresCluster => (Report(P2(Status, Instances), Int(1)), Report(P2(Status, ReadyInstances), Int(1)))
    case MariaDBCluster => (Report(P2(Status, Replicas), Int(1)),
                            Report(P2(Status, Conditions), ConditionTrue("Ready")))
    case RabbitMQCluster => (Report(P2(Status, Phase), Str("")),
                             Report(P2(Status, Conditions), ConditionTrue("AllReplicasReady")))
    case ValkeyCluster => (Report(P2(Status, Shards), Int(1)), Report(P2(Status, ReadyShards), Int(1)))
    case GrafanaInstance => (Report(P2(Status, Stage), Str("complete")),
                             Report(P2(Status, StageStatus), Str("success")))
    case PrometheusInstance => (Report(P2(Status, Replicas), Int(1)), Report(P2(Status, AvailableReplicas), Int(1)))
  }

  function ConditionTrue(ctype: string): Value {
    List([Map(map["type" := Str(ctype), "status" := Str("True")])])
  }

  predicate Carries(f: Fields, r: Report) {
    r.path in f && f[r.path] == r.value
  }

  lemma ConditionHolds(ctype: string)
    ensures Scan(ConditionTrue(ctype).items, ctype).ready
  {
    assert OfType(ConditionTrue(ctype).items[0], ctype);
  }

  lemma ReportIsReady(kind: Kind, f: Fields)
    requires Carries(f, ReadyReport(kind).0) && Carries(f, ReadyReport(kind).1)
    ensures ReportsReady(kind, f)
  {
    if kind.MariaDBCluster? { ConditionHolds("Ready"); }
    if kind.RabbitMQCluster? { ConditionHolds("AllReplicasReady"); }
  }

  predicate OddCount(spec: CrSpec) {
    spec.MariaDBSpec? ==> spec.replicas % 2 == 1
  }

  lemma OddIsAccepted(k: CrKey, cr: Cr, objs: map<ObjKey, Obj>)
    requires Fits(k.kind, cr.spec) && OddCount(cr.spec)
    ensures Accepted(AdapterFor, k, cr, objs)
  {
    if cr.spec.MariaDBSpec? {
      MariaDB.ManifestReplicates(cr.spec, k.name, k.name);
      AppliedValue(Lookup(objs, TargetKey(AdapterFor, k)), MariaDB.FIELD_MANAGER, Manifest(AdapterFor, k, cr.spec),
                   Applier(k, cr.uid), MariaDB.REPLICAS);
    }
  }

  function Telling(k: CrKey, r: Report): Label {
    Vendor(TargetKey(AdapterFor, k), Change(Put("vendor", r.path, r.value)))
  }

  /** Both reports are in the target's status after the vendor wrote them. */
  lemma Told(k: CrKey, s: State)
    requires TargetKey(AdapterFor, k) in s.objs
    ensures var t := Run(AdapterFor, s, [Telling(k, ReadyReport(k.kind).0), Telling(k, ReadyReport(k.kind).1)]);
            && t.lanes == s.lanes && TargetKey(AdapterFor, k) in t.objs
            && ReportsReady(k.kind, Values(t.objs[TargetKey(AdapterFor, k)].entries))
  {
    var r := ReadyReport(k.kind);
    RunTwo(AdapterFor, s, Telling(k, r.0), Telling(k, r.1));
    var t := Run(AdapterFor, s, [Telling(k, r.0), Telling(k, r.1)]);
    var f := Values(t.objs[TargetKey(AdapterFor, k)].entries);
    assert Carries(f, r.0) && Carries(f, r.1);
    ReportIsReady(k.kind, f);
  }

  lemma ManagersDiffer(kind: Kind)
    ensures AdapterFor(kind).fieldManager != "vendor"
  {
    assert |"vendor"| == 6;
  }

  /** A reconcile with nobody else writing, as steps of a run. */
  lemma AttemptSteps(s: State, k: CrKey, plan: seq<Outcome>) returns (ls: seq<Label>)
    ensures Attempt(AdapterFor, s, k, plan) == Run(AdapterFor, s, ls) && (forall l :: l in ls ==> !l.Vendor?)
  {
    DriveIsRun(AdapterFor, s, k, Calls(k, plan));
    ls :| Attempt(AdapterFor, s, k, plan) == Run(AdapterFor, s, ls)
      && (forall l :: l in ls ==> l in Calls(k, plan) || l == Crash(k));
  }

  /** After that run the resource is live with our finalizer and this spec, idle, and has a
      target. */
  ghost predicate Running(ls: seq<Label>, k: CrKey, spec: CrSpec) {
    var s := Run(AdapterFor, INIT, ls);
    && LaneOf(s, k).pc.Idle? && Current(s, k).Some? && LiveWithFinalizer(Current(s, k).value)
    && Current(s, k).value.spec == spec && TargetKey(AdapterFor, k) in s.objs
  }

  lemma ReconciledHasTarget(k: CrKey, s: State, cr: Cr, plan: seq<Outcome>)
    requires LaneInv(k.kind, LaneOf(s, k)) && LaneOf(s, k).pc.Idle? && FaultFree(AdapterFor, k, plan)
    requires Current(s, k) == Some(cr) && LiveWithFinalizer(cr) && Accepted(AdapterFor, k, cr, s.objs)
    ensures var t := Attempt(AdapterFor, s, k, plan);
            && LaneOf(t, k).pc.Idle? && Current(t, k).Some? && LiveWithFinalizer(Current(t, k).value)
            && Current(t, k).value.spec == cr.spec && TargetKey(AdapterFor, k) in t.objs
  {
    OperatorIsLawful();
    AttemptIsRound(AdapterFor, k, s, plan);
    assert OwnedDistinct(AdapterFor, k) && Owned(AdapterFor, k)[0] == TargetKey(AdapterFor, k);
    WorkedOwn(AdapterFor, k, JobOf(cr), s.objs, |Owned(AdapterFor, k)|, 0);
  }

  lemma FreshLane(k: CrKey, spec: CrSpec)
    requires Fits(k.kind, spec)
    ensures var s := Run(AdapterFor, INIT, [User(k, UserOp.Create(spec, 0, {FINALIZER}))]);
            && LaneOf(s, k) == Lane([Some(KeySpace.Created(INIT, k, spec))], 0, Idle, 0)
               && LaneInv(k.kind, LaneOf(s, k))
  {
    var create := User(k, UserOp.Create(spec, 0, {FINALIZER}));
    RunOne(AdapterFor, INIT, create);
    KeySpace.CreateStep(k, INIT, spec);
    OperatorIsLawful();
    InitInv(AdapterFor);
    StepKeepsInv(AdapterFor, INIT, create);
    assert LaneInv(k.kind, LaneOf(Run(AdapterFor, INIT, [create]), k));
  }

  /** Create a resource and reconcile it. */
  lemma StartUp(k: CrKey, spec: CrSpec, plan: seq<Outcome>) returns (ls: seq<Label>)
    requires Fits(k.kind, spec) && OddCount(spec) && FaultFree(AdapterFor, k, plan)
    ensures (forall l :: l in ls ==> !l.Vendor?) && Running(ls, k, spec)
  {
    var create := User(k, UserOp.Create(spec, 0, {FINALIZER}));
    var s := Run(AdapterFor, INIT, [create]);
    FreshLane(k, spec);
    var cr := KeySpace.Created(INIT, k, spec);
    OddIsAccepted(k, cr, s.objs);
    ReconciledHasTarget(k, s, cr, plan);
    var rest := AttemptSteps(s, k, plan);
    RunConcat(AdapterFor, INIT, [create], rest);
    ls := [create] + rest;
  }

  /** ... and let the vendor report it ready. */
  lemma ReportedReady(k: CrKey, spec: CrSpec, plan: seq<Outcome>) returns (ls: seq<Label>)
    requires Fits(k.kind, spec) && OddCount(spec) && FaultFree(AdapterFor, k, plan)
    ensures Running(ls, k, spec)
    ensures forall l :: l in ls ==> OwnName(l, TargetKey(AdapterFor, k), AdapterFor(k.kind).fieldManager)
    ensures Reported(Run(AdapterFor, INIT, ls), k)
  {
    var setup := StartUp(k, spec, plan);
    var told := [Telling(k, ReadyReport(k.kind).0), Telling(k, ReadyReport(k.kind).1)];
    Told(k, Run(AdapterFor, INIT, setup));
    ManagersDiffer(k.kind);
    RunConcat(AdapterFor, INIT, setup, told);
    ls := setup + told;
  }

  lemma RunThrough(before: seq<Label>, l: Label, rest: seq<Label>)
    ensures Run(AdapterFor, INIT, before + ([l] + rest))
            == Run(AdapterFor, Step(AdapterFor, Run(AdapterFor, INIT, before), l), rest)
  {
    var s := Run(AdapterFor, INIT, before);
    RunConcat(AdapterFor, INIT, before, [l] + rest);
    RunConcat(AdapterFor, s, [l], rest);
    RunOne(AdapterFor, s, l);
  }

  /** Edit such a resource and reconcile it: it says Ready=True without another vendor step. */
  lemma EditUnseen(before: seq<Label>, k: CrKey, first: CrSpec, second: CrSpec, plan: seq<Outcome>)
      returns (rest: seq<Label>)
    requires Running(before, k, first) && FaultFree(AdapterFor, k, plan)
    requires Fits(k.kind, second) && OddCount(second) && CountPositive(second)
    requires forall l :: l in before ==> OwnName(l, TargetKey(AdapterFor, k), AdapterFor(k.kind).fieldManager)
    requires Reported(Run(AdapterFor, INIT, before), k)
    ensures forall l :: l in rest ==> !l.Vendor?
    ensures var cr := Current(Run(AdapterFor, INIT, before + ([User(k, Edit(second, 0))] + rest)), k);
            cr.Some? && cr.value.spec == second && SaysAtGeneration(cr.value, true)
  {
    var s, edit := Run(AdapterFor, INIT, before), User(k, Edit(second, 0));
    OddIsAccepted(k, WithSpec(Current(s, k).value, second, 0), s.objs);
    ReadyForUnseenSpec(before, k, second, 0, plan);
    rest := AttemptSteps(Step(AdapterFor, s, edit), k, plan);
    RunThrough(before, edit, rest);
  }

  /** For every kind and every two specs the vendor accepts, there is a run from the start in
      which the resource says Ready=True for the generation of its second spec while the vendor
      took its last step before that spec was written. */
  lemma LagHappens(k: CrKey, first: CrSpec, second: CrSpec) returns (ls: seq<Label>, n: nat)
    requires Fits(k.kind, first) && Fits(k.kind, second) && first != second
    requires OddCount(first) && OddCount(second) && CountPositive(second)
    ensures n < |ls| && ls[n] == User(k, Edit(second, 0)) && (forall i :: n < i < |ls| ==> !ls[i].Vendor?)
    ensures Current(StateAt(AdapterFor, ls, n), k).Some? && Current(StateAt(AdapterFor, ls, n), k).value.spec == first
    ensures var cr := Current(Run(AdapterFor, INIT, ls), k);
            cr.Some? && cr.value.spec == second && SaysAtGeneration(cr.value, true)
  {
    var plan := seq(|Owned(AdapterFor, k)| + 3, _ => Done);
    var before := ReportedReady(k, first, plan);
    var rest := EditUnseen(before, k, first, second, plan);
    ls, n := before + ([User(k, Edit(second, 0))] + rest), |before|;
    assert ls[..n] == before;
    forall i | n < i < |ls| ensures !ls[i].Vendor? { assert ls[i] == rest[i - n - 1] && rest[i - n - 1] in rest; }
  }
}

/**
  Which custom resources share an object: exactly a PrometheusInstance and a RabbitMQCluster
  of the same name and namespace, over the Ingress `<name>-ingress`.
 */
module KeySpace {
  import opened Types
  import opened StatusMirror
  import opened Adapters
  import opened Protocol
  import opened Safety
  import opened Convergence
  import opened Rounds
  import opened Histories
  import opened Independence
  import opened Operator
  import opened Manifests
  import IngressBuilder
  import RabbitMQ
  import Valkey
  import Prometheus

  predicate SharedIngress(k: CrKey, k': CrKey) {
    && k.namespace == k'.namespace && k.name == k'.name
    && ((k.kind.PrometheusInstance? && k'.kind.RabbitMQCluster?)
        || (k.kind.RabbitMQCluster? && k'.kind.PrometheusInstance?))
  }

  lemma SuffixInjective(a: string, b: string, suffix: string)
    requires a + suffix == b + suffix
    ensures a == b
  {
    assert |a| == |b|;
    assert a == (a + suffix)[..|a|];
    assert b == (b + suffix)[..|b|];
  }

  lemma SuffixesDiffer(a: string, b: string)
    ensures a + "-web" != b + "-external"
  {
    assert (a + "-web")[|a + "-web"| - 1] == 'b';
    assert (b + "-external")[|b + "-external"| - 1] == 'l';
  }

  function IngressKey(k: CrKey): ObjKey {
    ObjKey(IngressBuilder.GVK, k.namespace, k.name + "-ingress")
  }

  function WebServiceKey(k: CrKey): ObjKey {
    ObjKey(Prometheus.SERVICE_GVK, k.namespace, k.name + "-web")
  }

  function ExternalServiceKey(k: CrKey): ObjKey {
    ObjKey(Valkey.SERVICE_GVK, k.namespace, k.name + "-external")
  }

  function TargetOf(k: CrKey): ObjKey { TargetKey(AdapterFor, k) }

  /** The owned objects, spelled out. */
  lemma OwnedIs(k: CrKey)
    ensures Owned(AdapterFor, k) ==
            match k.kind
            case RabbitMQCluster => [TargetOf(k), IngressKey(k)]
            case ValkeyCluster => [TargetOf(k), ExternalServiceKey(k)]
            case PrometheusInstance => [TargetOf(k), WebServiceKey(k), IngressKey(k)]
            case _ => [TargetOf(k)]
  {
    GroupsDiffer();
  }

  /** How an owned object of that kind is named after its resource. */
  function SuffixOf(k: CrKey, gvk: Gvk): string {
    if gvk == IngressBuilder.GVK then "-ingress"
    else if gvk == Valkey.SERVICE_GVK then if k.kind.PrometheusInstance? then "-web" else "-external"
    else ""
  }

  lemma OwnedName(k: CrKey, o: ObjKey)
    requires o in Owned(AdapterFor, k)
    ensures o.namespace == k.namespace && o.name == k.name + SuffixOf(k, o.gvk)
  {
    OwnedIs(k);
    GroupsDiffer();
    assert k.name + "" == k.name;
  }

  /** A name is recovered from the key of any owned object. */
  lemma SameObjectSameName(k: CrKey, k': CrKey, o: ObjKey)
    requires o in Owned(AdapterFor, k) && o in Owned(AdapterFor, k')
    ensures k.namespace == k'.namespace && k.name == k'.name
  {
    OwnedName(k, o);
    OwnedName(k', o);
    SuffixesDiffer(k.name, k'.name);
    SuffixesDiffer(k'.name, k.name);
    SuffixInjective(k.name, k'.name, SuffixOf(k, o.gvk));
  }

  lemma TargetsDiffer(k: CrKey, k': CrKey)
    requires k.kind != k'.kind
    ensures TargetOf(k) !in Owned(AdapterFor, k')
  {
    OwnedIs(k');
    GroupsDiffer();
  }

  /** Nobody else ever touches a resource's target. */
  lemma TargetIsExclusive(k: CrKey)
    ensures TargetOf(k) in Owned(AdapterFor, k)
    ensures forall k' :: k' != k ==> TargetOf(k) !in Owned(AdapterFor, k')
  {
    assert Owned(AdapterFor, k)[0] == TargetOf(k);
    forall k' | k' != k ensures TargetOf(k) !in Owned(AdapterFor, k') {
      if TargetOf(k) in Owned(AdapterFor, k') {
        SameObjectSameName(k, k', TargetOf(k));
        TargetsDiffer(k, k');
      }
    }
  }

  /** Two different custom resources own a common object iff they are that pair. */
  lemma DisjointUnlessSharedIngress(k: CrKey, k': CrKey)
    requires k != k'
    ensures Disjoint(AdapterFor, k, k') <==> !SharedIngress(k, k')
  {
    OwnedIs(k);
    OwnedIs(k');
    if SharedIngress(k, k') {
      assert IngressKey(k) in Owned(AdapterFor, k) && IngressKey(k) in Owned(AdapterFor, k');
    } else {
      forall o | o in Owned(AdapterFor, k) ensures o !in Owned(AdapterFor, k') {
        if o in Owned(AdapterFor, k') {
          SameObjectSameName(k, k', o);
          TargetsDiffer(k, k');
          TargetsDiffer(k', k);
          SuffixesDiffer(k.name, k.name);
          GroupsDiffer();
        }
      }
    }
  }

  /** In a run that does not reconcile the other resource of such a pair, a resource is alone on
      every object it owns. */
  lemma AloneWithoutPair(ls: seq<Label>, k: CrKey, o: ObjKey)
    requires o in Owned(AdapterFor, k) && forall l :: l in ls && l.Operator? ==> !SharedIngress(k, l.k)
    ensures AloneOn(AdapterFor, ls, k, o)
  {
    forall i | 0 <= i < |ls| && ls[i].Operator? && ls[i].k != k ensures o !in Owned(AdapterFor, ls[i].k) {
      assert ls[i] in ls;
      DisjointUnlessSharedIngress(k, ls[i].k);
    }
  }

  /** Every interleaving of two resources' steps after that run equals running all steps of
      one, then all of the other, in either order. */
  ghost predicate Serial(before: seq<Label>, ls: seq<Label>, k: CrKey, k': CrKey) {
    var s := Run(AdapterFor, INIT, before);
    && Run(AdapterFor, s, ls) == Run(AdapterFor, Run(AdapterFor, s, Only(ls, k)), Only(ls, k'))
    && Run(AdapterFor, s, ls) == Run(AdapterFor, Run(AdapterFor, s, Only(ls, k')), Only(ls, k))
  }

  ghost predicate AllAbout(ls: seq<Label>, k: CrKey, k': CrKey) {
    forall i :: 0 <= i < |ls| ==> About(ls[i], k) || About(ls[i], k')
  }

  /** So all other pairs are serializable, whatever their kinds, names and namespaces. */
  lemma OperatorSerializable(before: seq<Label>, ls: seq<Label>, k: CrKey, k': CrKey)
    requires k != k' && !SharedIngress(k, k') && AllAbout(ls, k, k')
    ensures Serial(before, ls, k, k')
  {
    OperatorIsLawful();
    DisjointUnlessSharedIngress(k, k');
    Serializable(AdapterFor, before, ls, k, k');
  }

  // ---------------------------------------------------------------- the pair that clashes

  function Next(k: CrKey): Label { Operator(k, Latest, Done) }

  function Created(s: State, k: CrKey, spec: CrSpec): Cr {
    Cr(|LaneOf(s, k).log|, 1, spec, 0, false, {FINALIZER}, NO_STATUS)
  }

  lemma CreateStep(k: CrKey, s: State, spec: CrSpec)
    requires Fits(k.kind, spec) && LaneOf(s, k) == EMPTY_LANE
    ensures var t := Step(AdapterFor, s, User(k, UserOp.Create(spec, 0, {FINALIZER})));
            && LaneOf(t, k) == Lane([Some(Created(s, k, spec))], 0, Idle, 0)
            && (forall k' :: k' != k ==> LaneOf(t, k') == LaneOf(s, k'))
            && t.objs == s.objs
  {
  }

  /** The call leaves other lanes and all objects but this one alone. */
  ghost predicate Touches(s: State, t: State, k: CrKey, o: ObjKey) {
    && (forall k' :: k' != k ==> LaneOf(t, k') == LaneOf(s, k'))
    && (forall x :: x != o ==> Lookup(t.objs, x) == Lookup(s.objs, x))
  }

  lemma NextTouches(k: CrKey, s: State)
    ensures Touches(s, Step(AdapterFor, s, Next(k)), k, Focus(AdapterFor, k, LaneOf(s, k).pc))
  {
  }

  /** Three calls take a resource that has our finalizer to its extras: read it, look for the
      target, apply the target. */
  lemma ReachExtras(k: CrKey, s: State, cr: Cr)
    requires LaneOf(s, k) == Lane([Some(cr)], 0, Idle, 0) && LiveWithFinalizer(cr) && !k.kind.MariaDBCluster?
    ensures var t := Run(AdapterFor, s, [Next(k), Next(k)] + [Next(k)]);
            && LaneOf(t, k).pc.Extras? && LaneOf(t, k).pc.cr == cr && LaneOf(t, k).pc.next == 0
            && Touches(s, t, k, TargetOf(k))
  {
    var a := Step(AdapterFor, s, Next(k));
    var b := Step(AdapterFor, a, Next(k));
    NextTouches(k, s);
    NextTouches(k, a);
    NextTouches(k, b);
    assert LaneOf(a, k).pc == ReadTarget(cr);
    assert LaneOf(b, k).pc.ApplyTarget? && LaneOf(b, k).pc.cr == cr;
    RunTwo(AdapterFor, s, Next(k), Next(k));
    RunConcat(AdapterFor, s, [Next(k), Next(k)], [Next(k)]);
    RunOne(AdapterFor, b, Next(k));
  }

  /** The PrometheusInstance stands before its Ingress and so does the RabbitMQCluster, nobody
      has made it yet. */
  ghost predicate FaceToFace(s: State, p: CrKey, r: CrKey, wants: CrSpec, drops: CrSpec) {
    && LaneOf(s, p).pc.Extras? && LaneOf(s, p).pc.next == 1 && LaneOf(s, p).pc.cr.spec == wants
    && LaneOf(s, r).pc.Extras? && LaneOf(s, r).pc.next == 0 && LaneOf(s, r).pc.cr.spec == drops
    && IngressKey(p) !in s.objs
  }

  /** A run from the start that leads there. */
  function Meeting(p: CrKey, r: CrKey, wants: CrSpec, drops: CrSpec): seq<Label> {
    [User(p, UserOp.Create(wants, 0, {FINALIZER})), User(r, UserOp.Create(drops, 0, {FINALIZER}))]
    + ([Next(p), Next(p)] + [Next(p)]) + [Next(p)] + ([Next(r), Next(r)] + [Next(r)])
  }

  lemma MeetingLeadsThere(p: CrKey, r: CrKey, wants: CrSpec, drops: CrSpec)
    requires SharedIngress(p, r) && wants.PrometheusSpec? && Fits(p.kind, wants) && Fits(r.kind, drops)
    ensures FaceToFace(Run(AdapterFor, INIT, Meeting(p, r, wants, drops)), p, r, wants, drops)
  {
    var a, b := User(p, UserOp.Create(wants, 0, {FINALIZER})), User(r, UserOp.Create(drops, 0, {FINALIZER}));
    var mine, theirs := [Next(p), Next(p)] + [Next(p)], [Next(r), Next(r)] + [Next(r)];
    RunConcat(AdapterFor, INIT, [a, b] + mine + [Next(p)], theirs);
    RunConcat(AdapterFor, INIT, [a, b] + mine, [Next(p)]);
    RunConcat(AdapterFor, INIT, [a, b], mine);
    RunTwo(AdapterFor, INIT, a, b);
    CreateStep(p, INIT, wants);
    CreateStep(r, Step(AdapterFor, INIT, a), drops);
    var s := Run(AdapterFor, INIT, [a, b]);
    ReachExtras(p, s, LaneOf(s, p).log[0].value);
    var t := Run(AdapterFor, s, mine);
    RunOne(AdapterFor, t, Next(p));
    ServiceStep(p, t);
    ReachExtras(r, Step(AdapterFor, t, Next(p)), LaneOf(s, r).log[0].value);
    IngressIsNoTarget(p, p);
    IngressIsNoTarget(p, r);
    assert Lookup(INIT.objs, IngressKey(p)) == None;
  }

  lemma IngressIsNoTarget(k: CrKey, k': CrKey)
    ensures IngressKey(k) != TargetOf(k') && IngressKey(k).gvk != Prometheus.SERVICE_GVK
  {
    GroupsDiffer();
  }

  lemma ServiceStep(p: CrKey, s: State)
    requires p.kind.PrometheusInstance? && LaneOf(s, p).pc.Extras? && LaneOf(s, p).pc.next == 0
             && LaneOf(s, p).pc.cr.spec.PrometheusSpec?
    ensures var t := Step(AdapterFor, s, Next(p)); var pc := LaneOf(t, p).pc;
            && pc.Extras? && pc.next == 1 && pc.cr == LaneOf(s, p).pc.cr
            && (forall k' :: k' != p ==> LaneOf(t, k') == LaneOf(s, k'))
            && Lookup(t.objs, IngressKey(p)) == Lookup(s.objs, IngressKey(p))
  {
    var pc := LaneOf(s, p).pc;
    IngressIsNoTarget(p, p);
    NextTouches(p, s);
    assert |ExtrasOf(AdapterFor, p, pc.cr.spec)| == 2;
    assert Focus(AdapterFor, p, pc).gvk == Prometheus.SERVICE_GVK;
  }

  /** A resource stands before its Ingress. */
  predicate AtIngress(s: State, k: CrKey) {
    && LaneOf(s, k).pc.Extras? && Fits(k.kind, LaneOf(s, k).pc.cr.spec)
    && ((k.kind.PrometheusInstance? && LaneOf(s, k).pc.next == 1)
        || (k.kind.RabbitMQCluster? && LaneOf(s, k).pc.next == 0))
  }

  /** What its next call makes of the Ingress. */
  lemma IngressStep(k: CrKey, s: State)
    requires AtIngress(s, k) && (IngressKey(k) in s.objs ==> !s.objs[IngressKey(k)].held)
    ensures var t := Step(AdapterFor, s, Next(k));
            && (IngressKey(k) in t.objs <==> LaneOf(s, k).pc.cr.spec.ingress.Some?)
            && (IngressKey(k) in t.objs ==> !t.objs[IngressKey(k)].held)
            && (forall k' :: k' != k ==> LaneOf(t, k') == LaneOf(s, k'))
  {
    var pc := LaneOf(s, k).pc;
    NextTouches(k, s);
    assert Focus(AdapterFor, k, pc) == IngressKey(k);
  }

  lemma InEitherOrder(p: CrKey, r: CrKey, s: State)
    requires SharedIngress(p, r) && AtIngress(s, p) && AtIngress(s, r) && IngressKey(p) !in s.objs
    ensures IngressKey(p) == IngressKey(r)
    ensures IngressKey(p) in Run(AdapterFor, s, [Next(p), Next(r)]).objs <==> LaneOf(s, r).pc.cr.spec.ingress.Some?
    ensures IngressKey(p) in Run(AdapterFor, s, [Next(r), Next(p)]).objs <==> LaneOf(s, p).pc.cr.spec.ingress.Some?
  {
    RunTwo(AdapterFor, s, Next(p), Next(r));
    RunTwo(AdapterFor, s, Next(r), Next(p));
    IngressStep(p, s);
    IngressStep(r, Step(AdapterFor, s, Next(p)));
    IngressStep(r, s);
    IngressStep(p, Step(AdapterFor, s, Next(r)));
  }

  /** The pair really clashes, in runs from the start and for all such specs: when only the
      PrometheusInstance asks for an Ingress, the RabbitMQCluster's next call removes it after
      the other's, and leaves it there before the other's. */
  lemma SharedIngressClash(p: CrKey, r: CrKey, wants: CrSpec, drops: CrSpec)
    requires SharedIngress(p, r) && Fits(p.kind, wants) && Fits(r.kind, drops)
    requires wants.PrometheusSpec? && wants.ingress.Some? && drops.ingress.None?
    ensures var s := Run(AdapterFor, INIT, Meeting(p, r, wants, drops));
            && IngressKey(p) == IngressKey(r)
            && IngressKey(p) !in Run(AdapterFor, s, [Next(p), Next(r)]).objs
            && IngressKey(p) in Run(AdapterFor, s, [Next(r), Next(p)]).objs
  {
    MeetingLeadsThere(p, r, wants, drops);
    var s := Run(AdapterFor, INIT, Meeting(p, r, wants, drops));
    InEitherOrder(p, r, s);
  }

  lemma OnlyTwo(k: CrKey, k': CrKey)
    requires k != k'
    ensures Only([Next(k), Next(k')], k) == [Next(k)] && Only([Next(k), Next(k')], k') == [Next(k')]
  {
    var ls := [Next(k), Next(k')];
    assert ls[1..] == [Next(k')] && [Next(k')][1..] == [];
    assert Only([Next(k')], k) == [] && Only([Next(k')], k') == [Next(k')];
  }

  /** Two next calls that end differently in the two orders are not serializable. */
  lemma OrdersDiffer(before: seq<Label>, p: CrKey, r: CrKey)
    requires p != r
    requires var s := Run(AdapterFor, INIT, before);
             && IngressKey(p) !in Run(AdapterFor, s, [Next(p), Next(r)]).objs
             && IngressKey(p) in Run(AdapterFor, s, [Next(r), Next(p)]).objs
    ensures !Serial(before, [Next(p), Next(r)], p, r)
  {
    OnlyTwo(p, r);
    RunConcat(AdapterFor, Run(AdapterFor, INIT, before), [Next(r)], [Next(p)]);
    assert [Next(r)] + [Next(p)] == [Next(r), Next(p)];
  }

  function WantsIngress(): CrSpec {
    PrometheusSpec("", 1, "", None, NO_RESOURCES, Some(IngressSpec("", "", "", map[])))
  }

  function DropsIngress(): CrSpec {
    RabbitMQSpec(1, "", StorageSpec("", ""), NO_RESOURCES, None)
  }

  /** Some run of the pair is not serializable. */
  lemma NotSerial(p: CrKey, r: CrKey) returns (before: seq<Label>, ls: seq<Label>)
    requires SharedIngress(p, r) && p.kind.PrometheusInstance?
    ensures AllAbout(ls, p, r) && !Serial(before, ls, p, r)
  {
    before, ls := Meeting(p, r, WantsIngress(), DropsIngress()), [Next(p), Next(r)];
    SharedIngressClash(p, r, WantsIngress(), DropsIngress());
    OrdersDiffer(before, p, r);
  }

  /** Exactly: two custom resources are serializable in every run iff they are not that pair. */
  lemma SerializableIff(k: CrKey, k': CrKey)
    requires k != k'
    ensures (forall before, ls :: AllAbout(ls, k, k') ==> Serial(before, ls, k, k')) <==> !SharedIngress(k, k')
  {
    if SharedIngress(k, k') {
      var p, r := if k.kind.PrometheusInstance? then k else k', if k.kind.PrometheusInstance? then k' else k;
      var before, ls := NotSerial(p, r);
      assert AllAbout(ls, k, k') && !Serial(before, ls, k, k');
    } else {
      forall before, ls | AllAbout(ls, k, k') ensures Serial(before, ls, k, k') {
        OperatorSerializable(before, ls, k, k');
      }
    }
  }

  // ---------------------------------------------------------------- the pair never rests

  /** The extra is there exactly if asked for, and then under that manager's label. */
  predicate AskedUnder(e: Extra, asked: bool, manager: string) {
    && (e.desired.Some? <==> asked)
    && (asked ==> MANAGED_BY in e.desired.value && e.desired.value[MANAGED_BY] == Str(manager))
  }

  lemma IngressManaged(i: IngressSpec, owner: string, manager: string, backend: string, port: int32)
    ensures var f := IngressBuilder.Desired(i, owner, manager, backend, port);
            MANAGED_BY in f && f[MANAGED_BY] == Str(manager)
  {
    ManagedByAt(manager, owner, i.annotations, IngressBuilder.SpecFields(i, backend, port));
  }

  lemma PrometheusIngressIs(spec: CrSpec, name: string)
    requires spec.PrometheusSpec?
    ensures var es := Prometheus.ExtraResources(spec, name, name);
            && |es| == 2 && (es[1].desired.Some? <==> spec.ingress.Some?)
            && (spec.ingress.Some? ==>
                  es[1].desired.value == IngressBuilder.Desired(spec.ingress.value, name, Prometheus.FIELD_MANAGER,
                                                                Prometheus.ServiceName(name), Prometheus.WEB_PORT))
  {
  }

  lemma PrometheusAsks(spec: CrSpec, name: string)
    requires spec.PrometheusSpec?
    ensures var es := Prometheus.ExtraResources(spec, name, name);
            |es| == 2 && AskedUnder(es[1], spec.ingress.Some?, Prometheus.FIELD_MANAGER)
  {
    var e := Prometheus.ExtraResources(spec, name, name)[1];
    PrometheusIngressIs(spec, name);
    if spec.ingress.Some? {
      IngressManaged(spec.ingress.value, name, Prometheus.FIELD_MANAGER, Prometheus.ServiceName(name),
                     Prometheus.WEB_PORT);
      ManagedIsAsked(e, e.desired.value, Prometheus.FIELD_MANAGER);
    }
  }

  lemma ManagedIsAsked(e: Extra, f: Fields, manager: string)
    requires e.desired == Some(f) && MANAGED_BY in f && f[MANAGED_BY] == Str(manager)
    ensures AskedUnder(e, true, manager)
  {
  }

  lemma RabbitMQAsks(spec: CrSpec, name: string)
    requires spec.RabbitMQSpec?
    ensures var es := RabbitMQ.ExtraResources(spec, name, name);
            |es| == 1 && AskedUnder(es[0], spec.ingress.Some?, RabbitMQ.FIELD_MANAGER)
  {
    if spec.ingress.Some? {
      IngressManaged(spec.ingress.value, name, RabbitMQ.FIELD_MANAGER, name, RabbitMQ.MANAGEMENT_PORT);
    }
  }

  /** Where the Ingress stands among the extras of either kind. */
  function IngressSlot(k: CrKey): nat {
    if k.kind.PrometheusInstance? then 1 else 0
  }

  /** What each of the pair asks of the Ingress. */
  lemma AsksIngress(k: CrKey, spec: CrSpec)
    requires Fits(k.kind, spec) && (k.kind.PrometheusInstance? || k.kind.RabbitMQCluster?)
    ensures var es := ExtrasOf(AdapterFor, k, spec); var i := IngressSlot(k);
            && i < |es| && ExtraKey(k, es[i]) == IngressKey(k)
            && AskedUnder(es[i], spec.ingress.Some?, AdapterFor(k.kind).fieldManager)
  {
    if k.kind.PrometheusInstance? {
      PrometheusAsks(spec, k.name);
      PrometheusSlots(spec, k.name);
    } else {
      RabbitMQAsks(spec, k.name);
      RabbitMQSlots(spec, k.name);
    }
  }

  /** At a fixpoint of one of them, the Ingress carries its manager's label if it asks for one,
      and is absent or terminating otherwise. */
  lemma RestingIngress(before: seq<Label>, k: CrKey)
    requires k.kind.PrometheusInstance? || k.kind.RabbitMQCluster?
    requires var s := Run(AdapterFor, INIT, before);
             && Current(s, k).Some? && !Current(s, k).value.deleting && Settled(AdapterFor, k, ViewOf(s, k))
    ensures var s := Run(AdapterFor, INIT, before);
            var spec := Current(s, k).value.spec;
            var x := Lookup(s.objs, IngressKey(k));
            && Fits(k.kind, spec)
            && if spec.ingress.Some?
               then x.Some? && MANAGED_BY in x.value.entries
                    && x.value.entries[MANAGED_BY].value == Str(AdapterFor(k.kind).fieldManager)
               else x.None? || x.value.terminating
  {
    var s := Run(AdapterFor, INIT, before);
    var spec := Current(s, k).value.spec;
    OperatorIsLawful();
    InitInv(AdapterFor);
    RunKeepsInv(AdapterFor, INIT, before);
    assert LaneInv(k.kind, LaneOf(s, k));
    ViewWellformed(k, s);
    SettledMeans(AdapterFor, k, ViewOf(s, k));
    AsksIngress(k, spec);
    var es := ExtrasOf(AdapterFor, k, spec);
    assert 0 <= IngressSlot(k) < |es| && ExtraKey(k, es[IngressSlot(k)]) == IngressKey(k);
  }

  /** The pair never comes to rest while either asks for the Ingress: after any run in which
      both are live and at a fixpoint of their reconciles, and the Ingress is not on its way
      out, neither spec asks for it. */
  lemma NeverAtRest(before: seq<Label>, p: CrKey, r: CrKey)
    requires SharedIngress(p, r) && p.kind.PrometheusInstance?
    requires var s := Run(AdapterFor, INIT, before);
             && Current(s, p).Some? && !Current(s, p).value.deleting && Settled(AdapterFor, p, ViewOf(s, p))
             && Current(s, r).Some? && !Current(s, r).value.deleting && Settled(AdapterFor, r, ViewOf(s, r))
             && (IngressKey(p) in s.objs ==> !s.objs[IngressKey(p)].terminating)
    ensures var s := Run(AdapterFor, INIT, before);
            var mine, theirs := Current(s, p).value.spec, Current(s, r).value.spec;
            && mine.PrometheusSpec? && theirs.RabbitMQSpec?
            && mine.ingress.None? && theirs.ingress.None?
  {
    RestingIngress(before, p);
    RestingIngress(before, r);
    ManagersDiffer();
  }

  lemma ManagersDiffer()
    ensures Str(AdapterFor(PrometheusInstance).fieldManager) != Str(AdapterFor(RabbitMQCluster).fieldManager)
  {
    assert |Prometheus.FIELD_MANAGER| != |RabbitMQ.FIELD_MANAGER|;
  }
}

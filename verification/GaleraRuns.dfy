/**
  The vendor's Galera rule over runs: a MariaDBCluster with an even replica count stalls, and
  nothing of it is touched until the count changes or it is deleted.
 */
module GaleraRuns {
  import opened Types
  import opened ServerSideApply
  import opened StatusMirror
  import opened Adapters
  import opened Protocol
  import opened Safety
  import opened Operator
  import opened OperatorResults
  import Independence
  import Codec
  import MariaDB
  import KeySpace

  predicate EvenMariaDB(spec: CrSpec) {
    spec.MariaDBSpec? && spec.replicas > 0 && spec.replicas % 2 == 0
  }

  predicate SetsAllowEven(op: VendorOp) {
    match op
    case Create(fields, _) => MariaDB.ALLOW_EVEN in fields
    case Change(Put(_, p, _)) => p == MariaDB.ALLOW_EVEN
    case _ => false
  }

  /** Users keep this MariaDBCluster at even counts, and nobody sets the vendor's override. */
  ghost predicate EvenRun(ls: seq<Label>, k: CrKey) {
    && (forall i :: 0 <= i < |ls| && ls[i].User? && ls[i].k == k ==>
          && (ls[i].uop.Create? && Fits(k.kind, ls[i].uop.spec) ==> EvenMariaDB(ls[i].uop.spec))
          && (ls[i].uop.Edit? && Fits(k.kind, ls[i].uop.spec) ==> EvenMariaDB(ls[i].uop.spec)))
    && (forall i :: 0 <= i < |ls| && ls[i].Vendor? && ls[i].o == TargetKey(AdapterFor, k) ==> !SetsAllowEven(ls[i].vop))
  }

  /** A merged target with the manifest of an even count fails the vendor's rule. */
  lemma EvenMergeRejected(m: Fields, replicas: int32, cur: Option<Obj>, manager: string, applier: Applier)
    requires MariaDB.Replicates(m, replicas) && replicas > 0 && replicas % 2 == 0
    requires cur.Some? ==> MariaDB.ALLOW_EVEN !in cur.value.entries
    ensures !MariaDB.GaleraRule(Values(ApplyObj(cur, manager, m, applier).entries))
  {
    AppliedValue(cur, manager, m, applier, MariaDB.REPLICAS);
    AppliedValue(cur, manager, m, applier, MariaDB.GALERA_ENABLED);
  }

  lemma EvenIsRejected(k: CrKey, spec: CrSpec, cur: Option<Obj>, applier: Applier)
    requires k.kind.MariaDBCluster? && EvenMariaDB(spec)
    requires cur.Some? ==> MariaDB.ALLOW_EVEN !in cur.value.entries
    ensures !AdapterFor(k.kind).accepts(
               Values(ApplyObj(cur, AdapterFor(k.kind).fieldManager, Manifest(AdapterFor, k, spec), applier).entries))
  {
    MariaDB.ManifestReplicates(spec, k.name, k.name);
    EvenMergeRejected(Manifest(AdapterFor, k, spec), spec.replicas, cur, AdapterFor(k.kind).fieldManager, applier);
  }

  lemma StoredStaysEven(spec: CrSpec)
    requires EvenMariaDB(spec)
    ensures EvenMariaDB(Codec.Stored(spec))
  {
  }

  /** Every call of a reconcile in hand of an even count: nothing gets past the manifest. */
  lemma EvenCall(k: CrKey, lane: Lane, cur: Option<Obj>, read: Read, out: Outcome)
    requires k.kind.MariaDBCluster? && LaneInv(k.kind, lane) && !lane.pc.Extras?
    requires lane.pc.ApplyTarget? ==> EvenMariaDB(lane.pc.cr.spec)
    requires cur.Some? ==> MariaDB.ALLOW_EVEN !in cur.value.entries
    ensures var r := Call(AdapterFor, k, lane, cur, read, out);
            && !r.0.pc.Extras? && r.0.events == lane.events
            && (r.1 == cur || r.1 == DeleteObj(cur))
  {
    if lane.pc.ApplyTarget? {
      assert lane.log[lane.cursor] == Some(lane.pc.cr);
      EvenIsRejected(k, lane.pc.cr.spec, cur, Applier(k, lane.pc.cr.uid));
    }
  }

  ghost predicate EvenFrom(log: Log, cursor: nat) {
    forall i :: cursor <= i < |log| && log[i].Some? ==> EvenMariaDB(log[i].value.spec)
  }

  /** The versions a reconcile can still act on ask for an even count; no earlier version's
      reconcile is past its manifest; the vendor's override is not set on the target. */
  ghost predicate EvenAhead(s: State, k: CrKey) {
    var lane := LaneOf(s, k);
    var target := TargetKey(AdapterFor, k);
    && EvenFrom(lane.log, lane.cursor)
    && !lane.pc.Extras?
    && (target in s.objs ==> MariaDB.ALLOW_EVEN !in s.objs[target].entries)
  }

  /** The target is as it was or was deleted, no event was recorded, the status is the same. */
  ghost predicate NothingApplied(s: State, t: State, k: CrKey) {
    var target := TargetKey(AdapterFor, k);
    && (Lookup(t.objs, target) == Lookup(s.objs, target) || Lookup(t.objs, target) == DeleteObj(Lookup(s.objs, target)))
    && LaneOf(t, k).events == LaneOf(s, k).events
    && (Current(s, k).Some? && Current(t, k).Some? ==> Current(t, k).value.status == Current(s, k).value.status)
  }

  lemma EvenCommit(log: Log, cursor: nat, next: Option<Cr>)
    requires EvenFrom(log, cursor) && (next.Some? ==> EvenMariaDB(next.value.spec))
    ensures EvenFrom(Commit(log, next), cursor)
  {
  }

  lemma EvenLog(s: State, l: Label, k: CrKey)
    requires k.kind.MariaDBCluster? && Inv(AdapterFor, s) && EvenAhead(s, k) && EvenRun([l], k)
    ensures var lane := LaneOf(s, k); var later := LaneOf(Step(AdapterFor, s, l), k).log;
            && EvenFrom(later, lane.cursor)
            && (l.Operator? && Last(lane.log).Some? && Last(later).Some? ==>
                  Last(later).value.status == Last(lane.log).value.status)
  {
    assert [l][0] == l;
    var lane := LaneOf(s, k);
    assert LaneInv(k.kind, lane);
    LogAfter(AdapterFor, s, l, k);
    if l.User? && l.k == k {
      EvenCommit(lane.log, lane.cursor, UserNext(k.kind, lane.log, l.uop));
    }
    if l.Operator? && l.k == k && !lane.pc.Idle? && WritesCr(AdapterFor, k, lane.pc)
      && Last(lane.log) == Some(lane.pc.cr) {
      EvenSubmitted(k, lane);
    }
  }

  /** What the operator submits of an even version is even, with the same status. */
  lemma EvenSubmitted(k: CrKey, lane: Lane)
    requires k.kind.MariaDBCluster? && LaneInv(k.kind, lane) && EvenFrom(lane.log, lane.cursor) && !lane.pc.Extras?
    requires WritesCr(AdapterFor, k, lane.pc) && Last(lane.log) == Some(lane.pc.cr)
    ensures var later := Commit(lane.log, Submitted(AdapterFor, k, lane.pc));
            && EvenFrom(later, lane.cursor)
            && (Last(later).Some? ==> Last(later).value.status == lane.pc.cr.status)
  {
    assert lane.log[lane.cursor] == Some(lane.pc.cr);
    StoredStaysEven(lane.pc.cr.spec);
    EvenCommit(lane.log, lane.cursor, Submitted(AdapterFor, k, lane.pc));
  }

  lemma CursorAdvances(reg: Registry, k: CrKey, lane: Lane, cur: Option<Obj>, read: Read, out: Outcome)
    requires lane.log == [] || lane.cursor < |lane.log|
    ensures lane.log == [] || lane.cursor <= Call(reg, k, lane, cur, read, out).0.cursor
  {
  }

  /** What a step of any reconciler does about the target and the lane. */
  lemma EvenOperator(s: State, l: Label, k: CrKey)
    requires k.kind.MariaDBCluster? && Inv(AdapterFor, s) && EvenAhead(s, k) && l.Operator?
    ensures var t := Step(AdapterFor, s, l); var was := Lookup(s.objs, TargetKey(AdapterFor, k));
            && !LaneOf(t, k).pc.Extras? && LaneOf(t, k).events == LaneOf(s, k).events
            && (Lookup(t.objs, TargetKey(AdapterFor, k)) == was
                || Lookup(t.objs, TargetKey(AdapterFor, k)) == DeleteObj(was))
  {
    OperatorIsLawful();
    Independence.FocusInReach(AdapterFor, s, l.k);
    if l.k == k {
      var lane := LaneOf(s, k);
      assert LaneInv(k.kind, lane);
      KeySpace.OwnedIs(k);
      if !lane.pc.Idle? { assert lane.log[lane.cursor] == Some(lane.pc.cr); }
      EvenCall(k, lane, Lookup(s.objs, Focus(AdapterFor, k, lane.pc)), l.read, l.out);
    } else {
      KeySpace.TargetIsExclusive(k);
    }
  }

  lemma EvenStep(s: State, l: Label, k: CrKey)
    requires k.kind.MariaDBCluster? && Inv(AdapterFor, s) && EvenAhead(s, k) && EvenRun([l], k)
    ensures EvenAhead(Step(AdapterFor, s, l), k)
    ensures l.Operator? ==> NothingApplied(s, Step(AdapterFor, s, l), k)
  {
    assert [l][0] == l;
    assert LaneInv(k.kind, LaneOf(s, k));
    EvenLog(s, l, k);
    if l.Operator? {
      if l.k == k {
        var lane := LaneOf(s, k);
        CursorAdvances(AdapterFor, k, lane, Lookup(s.objs, Focus(AdapterFor, k, lane.pc)), l.read, l.out);
      }
      EvenOperator(s, l, k);
      assert TargetKey(AdapterFor, k) in s.objs <==> Lookup(s.objs, TargetKey(AdapterFor, k)).Some?;
    }
  }

  lemma {:induction false} EvenStaysAhead(s: State, ls: seq<Label>, k: CrKey)
    requires k.kind.MariaDBCluster? && Inv(AdapterFor, s) && EvenAhead(s, k) && EvenRun(ls, k)
    ensures EvenAhead(Run(AdapterFor, s, ls), k) && Inv(AdapterFor, Run(AdapterFor, s, ls))
    decreases |ls|
  {
    if ls != [] {
      assert EvenRun([ls[0]], k) && EvenRun(ls[1..], k);
      OperatorIsLawful();
      EvenStep(s, ls[0], k);
      StepKeepsInv(AdapterFor, s, ls[0]);
      EvenStaysAhead(Step(AdapterFor, s, ls[0]), ls[1..], k);
    }
  }

  /** For a MariaDBCluster with any past, odd counts and an existing target included: from the
      moment the reconciler has read an even count, and for as long as users ask for
      nothing else, no step of any reconcile changes the target except by deleting it, records
      an event, or touches the stored status. */
  lemma EvenChangesNothing(before: seq<Label>, ls: seq<Label>, k: CrKey, l: Label)
    requires k.kind.MariaDBCluster? && l.Operator?
    requires EvenAhead(Run(AdapterFor, INIT, before), k) && EvenRun(ls, k)
    ensures var s := Run(AdapterFor, INIT, before + ls); NothingApplied(s, Step(AdapterFor, s, l), k)
  {
    OperatorIsLawful();
    InitInv(AdapterFor);
    RunKeepsInv(AdapterFor, INIT, before);
    RunConcat(AdapterFor, INIT, before, ls);
    var s := Run(AdapterFor, INIT, before);
    EvenStaysAhead(s, ls, k);
    assert EvenRun([l], k);
    EvenStep(Run(AdapterFor, s, ls), l, k);
  }

  ghost predicate StalledVersion(cr: Cr) {
    && EvenMariaDB(cr.spec)
    && cr.status == NO_STATUS.(conditions := cr.status.conditions)
    && forall c :: c in cr.status.conditions ==> c.ctype != READY
  }

  /** Nothing the operator did for this resource got past its manifest. */
  ghost predicate Stalled(s: State, k: CrKey) {
    var lane := LaneOf(s, k);
    var target := TargetKey(AdapterFor, k);
    && StalledVersions(lane.log)
    && !lane.pc.Extras? && lane.events == 0
    && (target in s.objs ==> s.objs[target].appliers == {} && MariaDB.ALLOW_EVEN !in s.objs[target].entries)
  }

  lemma SetConditionOthers(cs: seq<Condition>, c: Condition)
    requires c.ctype != READY && forall x :: x in cs ==> x.ctype != READY
    ensures forall x :: x in SetCondition(cs, c) ==> x.ctype != READY
  {
    if cs != [] && cs[0].ctype != c.ctype {
      SetConditionOthers(cs[1..], c);
      assert SetCondition(cs, c) == [cs[0]] + SetCondition(cs[1..], c);
    }
  }

  lemma StalledUser(k: CrKey, log: Log, op: UserOp)
    requires k.kind.MariaDBCluster?
    requires Last(log).Some? ==> StalledVersion(Last(log).value)
    requires op.Create? && Fits(k.kind, op.spec) ==> EvenMariaDB(op.spec)
    requires op.Edit? && Fits(k.kind, op.spec) ==> EvenMariaDB(op.spec)
    ensures UserNext(k.kind, log, op).Some? ==> StalledVersion(UserNext(k.kind, log, op).value)
  {
    if Last(log).Some? && op.SetOtherCondition? && op.condition.ctype != READY {
      SetConditionOthers(Last(log).value.status.conditions, op.condition);
    }
  }

  ghost predicate StalledVersions(log: Log) {
    forall i :: 0 <= i < |log| && log[i].Some? ==> StalledVersion(log[i].value)
  }

  lemma StalledCommit(log: Log, next: Option<Cr>)
    requires StalledVersions(log) && (next.Some? ==> StalledVersion(next.value))
    ensures StalledVersions(Commit(log, next))
  {
  }

  lemma StalledLog(s: State, l: Label, k: CrKey)
    requires k.kind.MariaDBCluster? && Inv(AdapterFor, s) && Stalled(s, k) && EvenRun([l], k)
    ensures StalledVersions(LaneOf(Step(AdapterFor, s, l), k).log)
  {
    assert [l][0] == l;
    var lane := LaneOf(s, k);
    assert LaneInv(k.kind, lane);
    LogAfter(AdapterFor, s, l, k);
    if l.User? && l.k == k {
      StalledUser(k, lane.log, l.uop);
      StalledCommit(lane.log, UserNext(k.kind, lane.log, l.uop));
    }
    if l.Operator? && l.k == k && !lane.pc.Idle? && WritesCr(AdapterFor, k, lane.pc)
      && Last(lane.log) == Some(lane.pc.cr) {
      StoredStaysEven(lane.pc.cr.spec);
      StalledCommit(lane.log, Submitted(AdapterFor, k, lane.pc));
    }
  }

  lemma StalledStep(s: State, l: Label, k: CrKey)
    requires k.kind.MariaDBCluster? && Inv(AdapterFor, s) && Stalled(s, k) && EvenRun([l], k)
    ensures Stalled(Step(AdapterFor, s, l), k)
  {
    assert [l][0] == l;
    StalledLog(s, l, k);
    EvenStep(s, l, k);
  }

  lemma {:induction false} StalledRun(s: State, ls: seq<Label>, k: CrKey)
    requires k.kind.MariaDBCluster? && Inv(AdapterFor, s) && Stalled(s, k) && EvenRun(ls, k)
    ensures Stalled(Run(AdapterFor, s, ls), k)
    decreases |ls|
  {
    if ls != [] {
      assert EvenRun([ls[0]], k) && EvenRun(ls[1..], k);
      OperatorIsLawful();
      StalledStep(s, ls[0], k);
      StepKeepsInv(AdapterFor, s, ls[0]);
      StalledRun(Step(AdapterFor, s, ls[0]), ls[1..], k);
    }
  }

  /** While a MariaDBCluster has only ever asked for even counts, no run, however long, ever gets its
      target applied or its status written: no object of it is the operator's, no
      TargetCreated event is recorded, and the stored status is the empty one (other
      controllers' conditions aside). */
  lemma EvenReplicasStall(ls: seq<Label>, k: CrKey)
    requires k.kind.MariaDBCluster? && EvenRun(ls, k)
    ensures var s := Run(AdapterFor, INIT, ls);
            && (forall o, a :: o in s.objs && a in s.objs[o].appliers ==> a.key != k)
            && LaneOf(s, k).events == 0
            && (Current(s, k).Some? ==>
                  !Current(s, k).value.status.ready && Current(s, k).value.status.phase == ""
                  && forall c :: c in Current(s, k).value.status.conditions ==> c.ctype != READY)
  {
    OperatorIsLawful();
    InitInv(AdapterFor);
    StalledRun(INIT, ls, k);
    RunKeepsInv(AdapterFor, INIT, ls);
    var s := Run(AdapterFor, INIT, ls);
    forall o, a | o in s.objs && a in s.objs[o].appliers ensures a.key != k {
      StalledObject(s, k, o);
    }
  }

  lemma StalledObject(s: State, k: CrKey, o: ObjKey)
    requires k.kind.MariaDBCluster? && Inv(AdapterFor, s) && Stalled(s, k)
    ensures o in s.objs ==> forall a :: a in s.objs[o].appliers ==> a.key != k
  {
    assert ObjOk(AdapterFor, s, o);
    KeySpace.OwnedIs(k);
  }
}

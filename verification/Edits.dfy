/**
  What the operator's own writes do to a custom resource: they are based on the newest
  version, and they leave the user's spec alone up to what encoding it again changes.
 */
module Edits {
  import opened Types
  import opened StatusMirror
  import opened Adapters
  import opened Protocol
  import opened Safety

  /** No lost updates: whenever a call of the reconciler makes a new version, the version it
      had read is the newest one. A finalizer write changes the finalizer and re-encodes that
      version's spec, making a new generation exactly if that changes the document, and only
      dropping the last finalizer makes the resource go away; a status
      write changes the status alone, keeps every condition of another type, and its Ready
      condition carries the stored generation. */
  lemma OperatorWritesNewest(reg: Registry, before: seq<Label>, k: CrKey, read: Read, out: Outcome)
    requires Lawful(reg)
    requires var s := Run(reg, INIT, before);
             LaneOf(Step(reg, s, Operator(k, read, out)), k).log != LaneOf(s, k).log
    ensures var s := Run(reg, INIT, before);
            var lane := LaneOf(s, k);
            var after := Current(Step(reg, s, Operator(k, read, out)), k);
            && !lane.pc.Idle? && Current(s, k) == Some(lane.pc.cr)
            && var was := lane.pc.cr;
            if lane.pc.Extras? then
              && after.Some? && after.value == was.(status := after.value.status)
              && Others(after.value.status.conditions, READY) == Others(was.status.conditions, READY)
              && (exists c :: c in after.value.status.conditions && c.ctype == READY)
              && (forall c :: c in after.value.status.conditions && c.ctype == READY ==>
                    c.observedGeneration == after.value.generation)
            else
              && (after.None? <==> was.deleting && was.finalizers == {FINALIZER})
              && (after.Some? ==>
                && after.value.uid == was.uid
                && after.value.finalizers - {FINALIZER} == was.finalizers - {FINALIZER}
                && (FINALIZER in after.value.finalizers <==> !was.deleting)
                && after.value.spec == reg(k.kind).stored(was.spec) && after.value.form == 0
                && after.value.generation
                   == was.generation + (if after.value.spec == was.spec && was.form == 0 then 0 else 1)
                && after.value.status == was.status && after.value.deleting == was.deleting)
  {
    var s := Run(reg, INIT, before);
    InitInv(reg);
    RunKeepsInv(reg, INIT, before);
    var lane := LaneOf(s, k);
    assert LaneInv(k.kind, lane);
    LogAfter(reg, s, Operator(k, read, out), k);
    if lane.pc.Extras? {
      var was := lane.pc.cr;
      var ts := reg(k.kind).extract(lane.pc.merged);
      MirrorLaws(was.status, ts, reg(k.kind).reasons, reg(k.kind).counts(ts), was.generation);
      var c := ReadyCondition(ts, reg(k.kind).reasons, was.generation);
      OnlyOne(StatusMirrored(reg(k.kind), was, lane.pc.merged).status.conditions, c);
    }
  }

  lemma OnlyOne(cs: seq<Condition>, c: Condition)
    requires UniqueTypes(cs) && c in cs
    ensures forall d :: d in cs && d.ctype == c.ctype ==> d == c
  {
  }

  // ---------------------------------------------------------------- the user's spec

  /** What users' requests make of a resource: a fresh incarnation, a new spec whose generation
      moves exactly if the document does, a deletion that waits for the finalizers; and never is
      the operator's finalizer stripped. */
  lemma RequestTakes(reg: Registry, s: State, k: CrKey, op: UserOp)
    ensures var was, now := Current(s, k), Current(Step(reg, s, User(k, op)), k);
            && (was.None? && op.Create? && Fits(k.kind, op.spec) ==>
                  && now.Some? && now.value.spec == op.spec && now.value.finalizers == op.finalizers
                  && now.value.uid == |LaneOf(s, k).log| && now.value.generation == 1
                  && !now.value.deleting && now.value.status == NO_STATUS)
            && (was.Some? && op.Edit? && Fits(k.kind, op.spec) ==>
                  && now.Some? && now.value.spec == op.spec && now.value.form == op.form
                  && now.value == was.value.(spec := op.spec, form := op.form, generation := now.value.generation)
                  && now.value.generation
                     == was.value.generation
                        + (if op.spec == was.value.spec && op.form == was.value.form then 0 else 1))
            && (was.Some? && !was.value.deleting && op.Delete? ==>
                  if was.value.finalizers == {} then now.None?
                  else now == Some(was.value.(deleting := true, generation := was.value.generation + 1)))
            && (was.Some? && FINALIZER in was.value.finalizers ==>
                  now.Some? && now.value.uid == was.value.uid && FINALIZER in now.value.finalizers)
  {
  }

  /** The spec the users last asked for, along a run: every accepted create or edit. */
  function Asked(reg: Registry, s: State, ls: seq<Label>, k: CrKey, sofar: Option<CrSpec>): Option<CrSpec>
    decreases |ls|
  {
    if ls == [] then sofar
    else Asked(reg, Step(reg, s, ls[0]), ls[1..], k, AskedBy(s, ls[0], k, sofar))
  }

  function AskedBy(s: State, l: Label, k: CrKey, sofar: Option<CrSpec>): Option<CrSpec> {
    if l.User? && l.k == k then
      match l.uop
      case Create(spec, _, _) => if Current(s, k).None? && Fits(k.kind, spec) then Some(spec) else sofar
      case Edit(spec, _) => if Current(s, k).Some? && Fits(k.kind, spec) then Some(spec) else sofar
      case _ => sofar
    else sofar
  }

  /** The users only ask for specs that survive being encoded and stored again. */
  ghost predicate AsksOnlyStable(reg: Registry, ls: seq<Label>, k: CrKey) {
    forall i :: 0 <= i < |ls| && ls[i].User? && ls[i].k == k ==>
      && (ls[i].uop.Create? ==> reg(k.kind).stored(ls[i].uop.spec) == ls[i].uop.spec)
      && (ls[i].uop.Edit? ==> reg(k.kind).stored(ls[i].uop.spec) == ls[i].uop.spec)
  }

  ghost predicate HoldsAsked(reg: Registry, s: State, k: CrKey, asked: Option<CrSpec>) {
    Current(s, k).Some? ==> asked == Some(Current(s, k).value.spec) && reg(k.kind).stored(asked.value) == asked.value
  }

  lemma StepHoldsAsked(reg: Registry, s: State, l: Label, k: CrKey, asked: Option<CrSpec>)
    requires Lawful(reg) && Inv(reg, s) && HoldsAsked(reg, s, k, asked) && AsksOnlyStable(reg, [l], k)
    ensures HoldsAsked(reg, Step(reg, s, l), k, AskedBy(s, l, k, asked))
  {
    assert [l][0] == l;
    assert LaneInv(k.kind, LaneOf(s, k));
    LogAfter(reg, s, l, k);
  }

  lemma {:induction false} RunHoldsAsked(reg: Registry, s: State, ls: seq<Label>, k: CrKey, asked: Option<CrSpec>)
    requires Lawful(reg) && Inv(reg, s) && HoldsAsked(reg, s, k, asked) && AsksOnlyStable(reg, ls, k)
    ensures HoldsAsked(reg, Run(reg, s, ls), k, Asked(reg, s, ls, k, asked))
    decreases |ls|
  {
    if ls != [] {
      assert AsksOnlyStable(reg, [ls[0]], k);
      assert AsksOnlyStable(reg, ls[1..], k);
      StepHoldsAsked(reg, s, ls[0], k, asked);
      StepKeepsInv(reg, s, ls[0]);
      RunHoldsAsked(reg, Step(reg, s, ls[0]), ls[1..], k, AskedBy(s, ls[0], k, asked));
    }
  }

  /** No lost user edits: if every spec the users ask for survives encoding, then after any
      run the stored spec is the one asked for last, whatever the operator wrote meanwhile. */
  lemma SpecIsTheUsers(reg: Registry, ls: seq<Label>, k: CrKey)
    requires Lawful(reg) && AsksOnlyStable(reg, ls, k)
    ensures Current(Run(reg, INIT, ls), k).Some? ==>
              Asked(reg, INIT, ls, k, None) == Some(Current(Run(reg, INIT, ls), k).value.spec)
  {
    InitInv(reg);
    RunHoldsAsked(reg, INIT, ls, k, None);
  }

  /** And exactly then: creating a resource and reconciling it once leaves what encoding makes
      of the spec, so a spec that does not survive it is changed behind the user's back. */
  lemma FirstReconcileReencodes(reg: Registry, k: CrKey, spec: CrSpec, form: nat)
    requires Fits(k.kind, spec)
    ensures var ls := [User(k, UserOp.Create(spec, form, {})), Operator(k, Latest, Done), Operator(k, Latest, Done)];
            && Asked(reg, INIT, ls, k, None) == Some(spec)
            && Current(Run(reg, INIT, ls), k).Some?
            && Current(Run(reg, INIT, ls), k).value.spec == reg(k.kind).stored(spec)
  {
    var a := User(k, UserOp.Create(spec, form, {}));
    var b := Operator(k, Latest, Done);
    var s1 := Step(reg, INIT, a);
    var s2 := Step(reg, s1, b);
    var s3 := Step(reg, s2, b);
    var ls := [a, b, b];
    assert ls[1..] == [b, b] && [b, b][1..] == [b] && [b][1..] == [];
    var cr := Cr(0, 1, spec, form, false, {}, NO_STATUS);
    assert LaneOf(s1, k) == Lane([Some(cr)], 0, Idle, 0);
    assert LaneOf(s2, k) == Lane([Some(cr)], 0, AddFinalizer(cr), 0);
    assert Run(reg, INIT, ls) == Run(reg, s1, [b, b]) == Run(reg, s2, [b]) == Run(reg, s3, []) == s3;
    assert Asked(reg, INIT, ls, k, None) == Asked(reg, s1, [b, b], k, Some(spec)) == Asked(reg, s2, [b], k, Some(spec))
           == Asked(reg, s3, [], k, Some(spec));
  }
}

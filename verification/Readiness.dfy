/**
  No invented readiness: a stored `ready: true` was read from a target into whose `.status` a
  vendor had written since that target was created.
 */
module Readiness {
  import opened Types
  import opened ServerSideApply
  import opened Adapters
  import opened Protocol
  import opened Safety

  predicate NoStatusIn(e: Entries) {
    forall p :: p in e ==> !InStatus(p)
  }

  predicate WritesStatus(op: VendorOp) {
    match op
    case Create(fields, _) => !WithoutStatus(fields)
    case Change(Put(_, p, _)) => InStatus(p)
    case _ => false
  }

  lemma ApplyWithoutStatus(cur: Option<Obj>, manager: string, intent: Fields, applier: Applier)
    requires WithoutStatus(intent) && (cur.Some? ==> NoStatusIn(cur.value.entries))
    ensures NoStatusIn(ApplyObj(cur, manager, intent, applier).entries)
    ensures WithoutStatus(Values(ApplyObj(cur, manager, intent, applier).entries))
  {
  }

  /** No call of any reconciler puts status into an object. */
  lemma CallWithoutStatus(reg: Registry, k: CrKey, lane: Lane, cur: Option<Obj>, read: Read, out: Outcome)
    requires Lawful(reg) && LaneInv(k.kind, lane) && (cur.Some? ==> NoStatusIn(cur.value.entries))
    ensures var r := Call(reg, k, lane, cur, read, out);
            && (r.1.Some? ==> NoStatusIn(r.1.value.entries))
            && (r.0.pc.Extras? && !lane.pc.Extras? ==> WithoutStatus(r.0.pc.merged))
            && (r.0.pc.Extras? && lane.pc.Extras? ==> r.0.pc.merged == lane.pc.merged)
  {
    if !lane.pc.Idle? {
      assert lane.log[lane.cursor] == Some(lane.pc.cr);
      var a := reg(k.kind);
      var spec := lane.pc.cr.spec;
      var applier := Applier(k, lane.pc.cr.uid);
      assert WithoutStatus(Manifest(reg, k, spec));
      ApplyWithoutStatus(cur, a.fieldManager, Manifest(reg, k, spec), applier);
      if lane.pc.Extras? && lane.pc.next < |ExtrasOf(reg, k, spec)| {
        var e := ExtrasOf(reg, k, spec)[lane.pc.next];
        if e.desired.Some? {
          assert WithoutStatus(e.desired.value);
          ApplyWithoutStatus(cur, a.fieldManager, e.desired.value, applier);
        }
      }
    }
  }

  // ---------------------------------------------------------------- where a status comes from

  /** The step with that number is a vendor's write into the object's status. */
  predicate Reports(ls: seq<Label>, i: nat, o: ObjKey) {
    i < |ls| && ls[i].Vendor? && ls[i].o == o && WritesStatus(ls[i].vop)
  }

  ghost predicate PresentFrom(reg: Registry, ls: seq<Label>, o: ObjKey, i: nat, n: nat)
    requires n <= |ls|
  {
    forall j :: i < j <= n ==> o in StateAt(reg, ls, j).objs
  }

  /** A step that puts status into an object is a vendor's report. */
  lemma StatusFromVendor(reg: Registry, s: State, l: Label, o: ObjKey)
    requires Lawful(reg) && Inv(reg, s)
    requires o in s.objs ==> NoStatusIn(s.objs[o].entries)
    requires o in Step(reg, s, l).objs && !NoStatusIn(Step(reg, s, l).objs[o].entries)
    ensures l.Vendor? && l.o == o && WritesStatus(l.vop)
  {
    if l.Operator? {
      var lane := LaneOf(s, l.k);
      var f := Focus(reg, l.k, lane.pc);
      assert LaneInv(l.k.kind, lane);
      if f == o { CallWithoutStatus(reg, l.k, lane, Lookup(s.objs, f), l.read, l.out); }
    }
  }

  /** Whatever status an object carries, a vendor reported into this very object: it has been
      there ever since. */
  lemma {:induction false} StatusWasReported(reg: Registry, ls: seq<Label>, o: ObjKey, n: nat)
    requires Lawful(reg) && n <= |ls|
    requires o in StateAt(reg, ls, n).objs && !NoStatusIn(StateAt(reg, ls, n).objs[o].entries)
    ensures exists i :: 0 <= i < n && Reports(ls, i, o) && PresentFrom(reg, ls, o, i, n)
  {
    InitInv(reg);
    if n > 0 {
      var s := StateAt(reg, ls, n - 1);
      StateAfter(reg, ls, n - 1);
      if o in s.objs && !NoStatusIn(s.objs[o].entries) {
        StatusWasReported(reg, ls, o, n - 1);
        var i :| 0 <= i < n - 1 && Reports(ls, i, o) && PresentFrom(reg, ls, o, i, n - 1);
        assert PresentFrom(reg, ls, o, i, n);
      } else {
        RunKeepsInv(reg, INIT, ls[..n - 1]);
        StatusFromVendor(reg, s, ls[n - 1], o);
        assert Reports(ls, n - 1, o) && PresentFrom(reg, ls, o, n - 1, n);
      }
    }
  }

  /** The step with that number is the Patch of the target whose merged object this reconcile
      still has in hand after `n` steps. */
  ghost predicate PatchedAt(reg: Registry, ls: seq<Label>, k: CrKey, p: nat, n: nat)
    requires p < n <= |ls|
  {
    var target := TargetKey(reg, k);
    && ls[p].Operator? && ls[p].k == k && LaneOf(StateAt(reg, ls, p), k).pc.ApplyTarget?
    && target in StateAt(reg, ls, p + 1).objs
    && (forall j :: p < j <= n ==>
          var pc := LaneOf(StateAt(reg, ls, j), k).pc;
          pc.Extras? && pc.merged == Values(StateAt(reg, ls, p + 1).objs[target].entries))
  }

  /** How a step can leave a reconcile among its extras: by the Patch, or from there with the
      same merged object. */
  lemma ExtrasStep(reg: Registry, s: State, l: Label, k: CrKey)
    requires LaneOf(Step(reg, s, l), k).pc.Extras?
    ensures var t := Step(reg, s, l); var target := TargetKey(reg, k);
            || (LaneOf(s, k).pc.Extras? && LaneOf(t, k).pc.merged == LaneOf(s, k).pc.merged)
            || (l.Operator? && l.k == k && LaneOf(s, k).pc.ApplyTarget?
                && target in t.objs && LaneOf(t, k).pc.merged == Values(t.objs[target].entries))
  {
    if l.Operator? && l.k == k {
      var lane := LaneOf(s, k);
      var f := Focus(reg, k, lane.pc);
      if lane.pc.ApplyTarget? {
        assert f == TargetKey(reg, k);
      } else {
        OnlyPatchEntersExtras(reg, k, lane, Lookup(s.objs, f), l.read, l.out);
      }
    }
  }

  lemma OnlyPatchEntersExtras(reg: Registry, k: CrKey, lane: Lane, cur: Option<Obj>, read: Read, out: Outcome)
    requires !lane.pc.ApplyTarget? && Call(reg, k, lane, cur, read, out).0.pc.Extras?
    ensures lane.pc.Extras? && Call(reg, k, lane, cur, read, out).0.pc.merged == lane.pc.merged
  {
  }

  lemma {:induction false} ExtrasWerePatched(reg: Registry, ls: seq<Label>, k: CrKey, n: nat)
    requires n <= |ls| && LaneOf(StateAt(reg, ls, n), k).pc.Extras?
    ensures exists p :: 0 <= p < n && PatchedAt(reg, ls, k, p, n)
  {
    if n > 0 {
      StateAfter(reg, ls, n - 1);
      var s := StateAt(reg, ls, n - 1);
      ExtrasStep(reg, s, ls[n - 1], k);
      if LaneOf(s, k).pc.Extras? && LaneOf(StateAt(reg, ls, n), k).pc.merged == LaneOf(s, k).pc.merged {
        ExtrasWerePatched(reg, ls, k, n - 1);
        var p :| 0 <= p < n - 1 && PatchedAt(reg, ls, k, p, n - 1);
        assert PatchedAt(reg, ls, k, p, n);
      } else {
        assert PatchedAt(reg, ls, k, n - 1, n);
      }
    }
  }

  // ---------------------------------------------------------------- main results

  /** The reconcile for `k` stands before a Status().Update that will say ready. */
  predicate AboutToSayReady(reg: Registry, s: State, k: CrKey) {
    && LaneOf(s, k).pc.Extras? && WritesCr(reg, k, LaneOf(s, k).pc)
    && reg(k.kind).extract(LaneOf(s, k).pc.merged).ready
  }

  /** Report, then Patch, then Status().Update: the status was read from the object that this
      reconcile patched at step `p`, a vendor wrote into the status of that same object at the
      earlier step `i`, and it has not been absent in between. */
  ghost predicate Grounded(reg: Registry, ls: seq<Label>, k: CrKey, n: nat)
    requires n <= |ls|
  {
    exists i, p :: 0 <= i < p < n && PatchedAt(reg, ls, k, p, n)
      && Reports(ls, i, TargetKey(reg, k)) && PresentFrom(reg, ls, TargetKey(reg, k), i, p + 1)
  }

  /** No invented readiness, write by write: every Status().Update that says ready is grounded
      in a vendor's report on that target. */
  lemma ReadyIsGrounded(reg: Registry, ls: seq<Label>, k: CrKey, n: nat)
    requires Lawful(reg) && n <= |ls| && AboutToSayReady(reg, StateAt(reg, ls, n), k)
    ensures Grounded(reg, ls, k, n)
  {
    var target := TargetKey(reg, k);
    ExtrasWerePatched(reg, ls, k, n);
    var p :| 0 <= p < n && PatchedAt(reg, ls, k, p, n);
    var merged := Values(StateAt(reg, ls, p + 1).objs[target].entries);
    assert LaneOf(StateAt(reg, ls, n), k).pc.merged == merged;
    assert !WithoutStatus(merged);
    StatusWasReported(reg, ls, target, p + 1);
    var i :| 0 <= i < p + 1 && Reports(ls, i, target) && PresentFrom(reg, ls, target, i, p + 1);
  }

  ghost predicate Unready(log: Log) {
    forall i :: 0 <= i < |log| && log[i].Some? ==> !log[i].value.status.ready
  }

  /** Only a Status().Update that says ready makes a ready version out of versions that are not. */
  lemma ReadyNeedsWrite(reg: Registry, s: State, l: Label, k: CrKey)
    requires LaneInv(k.kind, LaneOf(s, k)) && Unready(LaneOf(s, k).log) && !Unready(LaneOf(Step(reg, s, l), k).log)
    ensures AboutToSayReady(reg, s, k) && l.Operator? && l.k == k
  {
    LogAfter(reg, s, l, k);
  }

  /** The step with that number is a Status().Update that says ready, and it is grounded. */
  ghost predicate GroundedWrite(reg: Registry, ls: seq<Label>, k: CrKey, w: nat)
    requires w < |ls|
  {
    ls[w].Operator? && ls[w].k == k && AboutToSayReady(reg, StateAt(reg, ls, w), k) && Grounded(reg, ls, k, w)
  }

  lemma FirstReady(reg: Registry, ls: seq<Label>, k: CrKey, w: nat)
    requires Lawful(reg) && w < |ls|
    requires Unready(LaneOf(StateAt(reg, ls, w), k).log) && !Unready(LaneOf(StateAt(reg, ls, w + 1), k).log)
    ensures GroundedWrite(reg, ls, k, w)
  {
    var s := StateAt(reg, ls, w);
    StateAfter(reg, ls, w);
    InitInv(reg);
    RunKeepsInv(reg, INIT, ls[..w]);
    assert LaneInv(k.kind, LaneOf(s, k));
    ReadyNeedsWrite(reg, s, ls[w], k);
    ReadyIsGrounded(reg, ls, k, w);
  }

  /** So in every run, a version that says ready was preceded by such a grounded write. */
  lemma {:induction false} ReadyWasReported(reg: Registry, ls: seq<Label>, k: CrKey, n: nat)
    requires Lawful(reg) && n <= |ls| && !Unready(LaneOf(StateAt(reg, ls, n), k).log)
    ensures exists w :: 0 <= w < n && GroundedWrite(reg, ls, k, w)
  {
    if n > 0 {
      if Unready(LaneOf(StateAt(reg, ls, n - 1), k).log) {
        FirstReady(reg, ls, k, n - 1);
      } else {
        ReadyWasReported(reg, ls, k, n - 1);
      }
    }
  }
}

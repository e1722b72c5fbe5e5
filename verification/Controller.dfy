/**
  Reconcile as the Go code writes it (internal/reconciler/reconciler.go:142-351): a
  controller whose calls change the API server one by one, with early returns and loops over
  the extras, proved to do exactly what the transition system does under every schedule of
  outcomes and interference.
 */
module Controller {
  import opened Types
  import opened ServerSideApply
  import opened StatusMirror
  import opened Adapters
  import opened Protocol
  import opened Convergence
  import opened Answers

  /** The reply to an API call: whether it took effect, and whether an error came back. */
  datatype Reply = Reply(effect: bool, error: bool, read: Read)

  function PutLane(s: State, k: CrKey, lane: Lane): State {
    s.(lanes := s.lanes[k := lane])
  }

  function PutObj(s: State, o: ObjKey, x: Option<Obj>): State {
    s.(objs := Store(s.objs, o, x))
  }

  /** The state with the reconciler's own program counter for `k` set. */
  function AtPc(s: State, k: CrKey, pc: Pc): State {
    PutLane(s, k, LaneOf(s, k).(pc := pc))
  }

  /** Interference does not look at another reconcile's program counter. */
  lemma InterferenceIgnoresPc(reg: Registry, s: State, k: CrKey, pc: Pc, l: Label)
    requires !((l.Operator? || l.Crash?) && l.k == k)
    ensures AtPc(Step(reg, s, l), k, pc) == Step(reg, AtPc(s, k, pc), l)
  {
    if l.Vendor? {
    } else if l.k == k {
      var lane := LaneOf(s, k);
      var log := UserWrite(k.kind, lane.log, l.uop);
      assert s.lanes[k := lane.(log := log)][k := lane.(log := log, pc := pc)]
             == s.lanes[k := lane.(pc := pc)][k := lane.(log := log, pc := pc)];
    } else {
      OthersIgnorePc(reg, s, k, pc, l);
    }
  }

  lemma OthersIgnorePc(reg: Registry, s: State, k: CrKey, pc: Pc, l: Label)
    requires !l.Vendor? && l.k != k
    ensures AtPc(Step(reg, s, l), k, pc) == Step(reg, AtPc(s, k, pc), l)
  {
    var mine := LaneOf(s, k).(pc := pc);
    var t := Step(reg, s, l);
    assert LaneOf(AtPc(s, k, pc), l.k) == LaneOf(s, l.k) && LaneOf(t, k) == LaneOf(s, k);
    var theirs := LaneOf(t, l.k);
    assert t.lanes == s.lanes[l.k := theirs];
    assert s.lanes[l.k := theirs][k := mine] == s.lanes[k := mine][l.k := theirs];
  }

  /** If one call takes the machine from one program point to another, driving it continues
      there, or ends when the call was the last. */
  lemma DriveStep(reg: Registry, s: State, k: CrKey, pc: Pc, l: Label, rest: seq<Label>, s': State, pc': Pc)
    requires l.Operator? && l.k == k
    requires var lane := LaneOf(s, k).(pc := pc);
             var f := Focus(reg, k, pc);
             var r := Call(reg, k, lane, Lookup(s.objs, f), l.read, l.out);
             && r.0 == LaneOf(s', k).(pc := pc')
             && Store(s.objs, f, r.1) == s'.objs
             && PutLane(s', k, r.0).lanes == PutLane(s, k, r.0).lanes
    ensures Drive(reg, AtPc(s, k, pc), k, [l] + rest)
            == if pc'.Idle? then AtPc(s', k, pc') else Drive(reg, AtPc(s', k, pc'), k, rest)
    ensures DriveResult(reg, AtPc(s, k, pc), k, [l] + rest)
            == if pc'.Idle? then Returns(reg, k, LaneOf(s, k).(pc := pc), l.out)
               else DriveResult(reg, AtPc(s', k, pc'), k, rest)
    ensures Leftover(reg, AtPc(s, k, pc), k, [l] + rest)
            == if pc'.Idle? then rest else Leftover(reg, AtPc(s', k, pc'), k, rest)
  {
    assert ([l] + rest)[0] == l && ([l] + rest)[1..] == rest;
    assert LaneOf(AtPc(s, k, pc), k) == LaneOf(s, k).(pc := pc);
    var t := Step(reg, AtPc(s, k, pc), l);
    assert t.lanes == AtPc(s', k, pc').lanes;
    assert t == AtPc(s', k, pc');
  }

  /** What the driven reconcile says for itself. */
  lemma DriveAnswers(reg: Registry, s: State, k: CrKey, schedule: seq<Label>)
    requires LaneOf(s, k).pc.Idle?
    ensures var used := Used(reg, s, k, schedule);
            var end := Drive(reg, s, k, schedule);
            var res := DriveResult(reg, s, k, schedule);
            && schedule == used + Leftover(reg, s, k, schedule)
            && end == AtPc(Run(reg, s, used), k, Idle)
            && (res == Error <==> !Returned(reg, s, k, used) || InTrouble(reg, s, k, used))
            && (res != Error ==> Fitting(VersionRead(end, k), Current(end, k), res))
  {
    UsedIsPrefix(reg, s, k, schedule);
    UsedIsRun(reg, s, k, schedule);
    AnswersFit(reg, s, k, schedule);
    var t := Run(reg, s, Used(reg, s, k, schedule));
    DriveEndsIdle(reg, s, k, schedule);
    if Returned(reg, s, k, Used(reg, s, k, schedule)) { LaneStays(reg, s, k, Used(reg, s, k, schedule)); }
    assert Returned(reg, s, k, Used(reg, s, k, schedule)) ==> AtPc(t, k, Idle).lanes == t.lanes;
  }

  /** A run in which the reconcile made a call has the resource's lane on file. */
  lemma {:induction false} LaneStays(reg: Registry, s: State, k: CrKey, ls: seq<Label>)
    requires ls != [] && ls[|ls| - 1].Operator? && ls[|ls| - 1].k == k
    ensures k in Run(reg, s, ls).lanes
  {
    var n := |ls| - 1;
    assert ls == ls[..n] + [ls[n]];
    RunConcat(reg, s, ls[..n], [ls[n]]);
    RunOne(reg, Run(reg, s, ls[..n]), ls[n]);
  }

  class GenericReconciler {
    const reg: Registry
    var cluster: State            // the API server and every other reconcile
    var schedule: seq<Label>      // what is still to happen, in order

    constructor (reg: Registry, cluster: State, schedule: seq<Label>)
      ensures this.reg == reg && this.cluster == cluster && this.schedule == schedule
    {
      this.reg := reg;
      this.cluster := cluster;
      this.schedule := schedule;
    }

    /** Where the transition system ends up from here, if this reconcile stands at `pc`. */
    ghost function Outlook(k: CrKey, pc: Pc): State
      reads this
    {
      Drive(reg, AtPc(cluster, k, pc), k, schedule)
    }

    /** ... what it then returns, and which labels it leaves for later. */
    ghost function Verdict(k: CrKey, pc: Pc): (Result, seq<Label>)
      reads this
    {
      VerdictOn(AtPc(cluster, k, pc), k, schedule)
    }

    ghost function VerdictOn(s: State, k: CrKey, labels: seq<Label>): (Result, seq<Label>) {
      (DriveResult(reg, s, k, labels), Leftover(reg, s, k, labels))
    }

    /** Make the next API call: whatever the schedule puts before it happens first. Without a
        reply the process died here. The call's own effect is left to the caller. */
    method NextCall(k: CrKey, ghost pc: Pc) returns (reply: Option<Reply>, ghost l: Label)
      modifies this
      ensures reply.None? ==> old(Outlook(k, pc)) == AtPc(cluster, k, Idle) && old(Verdict(k, pc)) == (Error, schedule)
      ensures reply.Some? ==>
                && l.Operator? && l.k == k
                && reply.value == Reply(!l.out.Failed?, !l.out.Done?, l.read)
                && old(Outlook(k, pc)) == Drive(reg, AtPc(cluster, k, pc), k, [l] + schedule)
                && old(Verdict(k, pc)) == VerdictOn(AtPc(cluster, k, pc), k, [l] + schedule)
    {
      l := Label.Crash(k);
      while schedule != []
        invariant old(Outlook(k, pc)) == Outlook(k, pc) && old(Verdict(k, pc)) == Verdict(k, pc)
        decreases |schedule|
      {
        var next := schedule[0];
        assert schedule == [next] + schedule[1..];
        if next.Operator? && next.k == k {
          l := next;
          schedule := schedule[1..];
          reply := Some(Reply(!next.out.Failed?, !next.out.Done?, next.read));
          return;
        }
        if next.Crash? && next.k == k {
          assert Step(reg, AtPc(cluster, k, pc), next) == AtPc(cluster, k, Idle);
          schedule := schedule[1..];
          return None, l;
        }
        InterferenceIgnoresPc(reg, cluster, k, pc, next);
        cluster := Step(reg, cluster, next);
        schedule := schedule[1..];
      }
      assert Step(reg, AtPc(cluster, k, pc), Label.Crash(k)) == AtPc(cluster, k, Idle);
      reply := None;
    }

    /** Update or Status().Update: rejected with a conflict when the version in hand is stale. */
    method WriteVersion(k: CrKey, effect: bool, next: Option<Cr>) returns (conflict: bool)
      modifies this`cluster
      ensures conflict == (LaneOf(old(cluster), k).cursor + 1 != |LaneOf(old(cluster), k).log|)
      ensures cluster == PutLane(old(cluster), k,
                                 WriteCr(LaneOf(old(cluster), k), if effect then Done else Failed, next))
    {
      var lane := LaneOf(cluster, k);
      conflict := lane.cursor + 1 != |lane.log|;
      if effect && !conflict {
        lane := lane.(log := Commit(lane.log, next));
      }
      cluster := PutLane(cluster, k, lane);
    }

    /** The deletion path: delete the target, delete every extra, drop the finalizer. */
    method ReconcileDeletion(k: CrKey, cr: Cr) returns (res: Result)
      modifies this
      ensures AtPc(cluster, k, Idle) == old(Outlook(k, Deleting(cr, 0)))
      ensures (res, schedule) == old(Verdict(k, Deleting(cr, 0)))
      ensures res == Error || (res == Nothing && !Holding(Current(cluster, k)))
    {
      ghost var goal, verdict := Outlook(k, Deleting(cr, 0)), Verdict(k, Deleting(cr, 0));
      var failed := DeleteOne(k, cr, 0, TargetKey(reg, k));
      if failed { return Error; }
      var extras := ExtrasOf(reg, k, cr.spec);
      var i := 0;
      while i < |extras|
        invariant 0 <= i <= |extras|
        invariant Outlook(k, Deleting(cr, i + 1)) == goal && Verdict(k, Deleting(cr, i + 1)) == verdict
      {
        failed := DeleteOne(k, cr, i + 1, ExtraKey(k, extras[i]));
        if failed { return Error; }
        i := i + 1;
      }
      res := DropFinalizer(k, cr, i + 1);
    }

    method DropFinalizer(k: CrKey, cr: Cr, ghost n: nat) returns (res: Result)
      requires n > |ExtrasOf(reg, k, cr.spec)|
      modifies this
      ensures AtPc(cluster, k, Idle) == old(Outlook(k, Deleting(cr, n)))
      ensures (res, schedule) == old(Verdict(k, Deleting(cr, n)))
      ensures res == Error || (res == Nothing && !Holding(Current(cluster, k)))
    {
      ghost var pc := Deleting(cr, n);
      var reply, l := NextCall(k, pc);
      if reply.None? { return Error; }
      ghost var before := cluster;
      var submitted := cr.(finalizers := cr.finalizers - {FINALIZER});
      var conflict := WriteVersion(k, reply.value.effect, Settle(WithSpec(submitted, reg(k.kind).stored(cr.spec), 0)));
      StoreSame(before.objs, Focus(reg, k, pc));
      DriveStep(reg, before, k, pc, l, schedule, cluster, Idle);
      res := if reply.value.error || conflict then Error else Nothing;
    }

    /** deleteTarget and deleteExtra: an object already gone counts as deleted. */
    method DeleteOne(k: CrKey, ghost cr: Cr, ghost n: nat, o: ObjKey) returns (failed: bool)
      requires n <= |ExtrasOf(reg, k, cr.spec)| && o == Focus(reg, k, Deleting(cr, n))
      modifies this
      ensures if failed
              then AtPc(cluster, k, Idle) == old(Outlook(k, Deleting(cr, n)))
                   && old(Verdict(k, Deleting(cr, n))) == (Error, schedule)
              else Outlook(k, Deleting(cr, n + 1)) == old(Outlook(k, Deleting(cr, n)))
                   && Verdict(k, Deleting(cr, n + 1)) == old(Verdict(k, Deleting(cr, n)))
    {
      ghost var pc := Deleting(cr, n);
      var reply, l := NextCall(k, pc);
      if reply.None? { return true; }
      ghost var before := cluster;
      if reply.value.effect {
        cluster := PutObj(cluster, o, DeleteObj(Lookup(cluster.objs, o)));
      }
      failed := reply.value.error;
      StoreSame(before.objs, o);
      DriveStep(reg, before, k, pc, l, schedule, cluster, if failed then Idle else Deleting(cr, n + 1));
    }

    /** getTarget: is the target absent? */
    method LookForTarget(k: CrKey, cr: Cr) returns (absent: bool, failed: bool)
      modifies this
      ensures if failed
              then AtPc(cluster, k, Idle) == old(Outlook(k, ReadTarget(cr)))
                   && old(Verdict(k, ReadTarget(cr))) == (Error, schedule)
              else Outlook(k, ApplyTarget(cr, absent)) == old(Outlook(k, ReadTarget(cr)))
                   && Verdict(k, ApplyTarget(cr, absent)) == old(Verdict(k, ReadTarget(cr)))
    {
      var target := TargetKey(reg, k);
      var reply, l := NextCall(k, ReadTarget(cr));
      if reply.None? { return false, true; }
      StoreSame(cluster.objs, target);
      absent := target !in cluster.objs;
      failed := reply.value.error;
      DriveStep(reg, cluster, k, ReadTarget(cr), l, schedule, cluster,
                if failed then Idle else ApplyTarget(cr, absent));
    }

    /** applyTarget on the manifest, and the TargetCreated event; `desired` comes back as the
        merged object. */
    method ApplyManifest(k: CrKey, cr: Cr, absent: bool) returns (desired: Option<Fields>)
      modifies this
      ensures if desired.None?
              then AtPc(cluster, k, Idle) == old(Outlook(k, ApplyTarget(cr, absent)))
                   && old(Verdict(k, ApplyTarget(cr, absent))) == (Error, schedule)
              else Outlook(k, Extras(cr, desired.value, 0)) == old(Outlook(k, ApplyTarget(cr, absent)))
                   && Verdict(k, Extras(cr, desired.value, 0)) == old(Verdict(k, ApplyTarget(cr, absent)))
    {
      var a := reg(k.kind);
      var target := TargetKey(reg, k);
      ghost var pc := ApplyTarget(cr, absent);
      var reply, l := NextCall(k, pc);
      if reply.None? { return None; }
      ghost var before := cluster;
      StoreSame(before.objs, target);
      var merged := ApplyObj(Lookup(cluster.objs, target), a.fieldManager, Manifest(reg, k, cr.spec),
                             Applier(k, cr.uid));
      var accepted := a.accepts(Values(merged.entries));
      if reply.value.effect && accepted {
        cluster := PutObj(cluster, target, Some(merged));
      }
      if reply.value.error || !accepted {
        DriveStep(reg, before, k, pc, l, schedule, cluster, Idle);
        return None;
      }
      if absent {
        var lane := LaneOf(cluster, k);
        cluster := PutLane(cluster, k, lane.(events := lane.events + 1));
      }
      DriveStep(reg, before, k, pc, l, schedule, cluster, Extras(cr, Values(merged.entries), 0));
      return Some(Values(merged.entries));
    }

    /** ExtractStatus, ApplyStatus and Status().Update. */
    method MirrorStatus(k: CrKey, read: Cr, desired: Fields, ghost n: nat) returns (res: Result)
      requires n >= |ExtrasOf(reg, k, read.spec)|
      modifies this
      ensures AtPc(cluster, k, Idle) == old(Outlook(k, Extras(read, desired, n)))
              && (res, schedule) == old(Verdict(k, Extras(read, desired, n)))
      ensures (res == Error || res.RequeueAfter?) && StoredReadiness(k, res)
    {
      var a := reg(k.kind);
      var cr := read;
      ghost var pc := Extras(cr, desired, n);
      var reply, l := NextCall(k, pc);
      if reply.None? { return Error; }
      ghost var before := cluster;
      StoreSame(before.objs, Focus(reg, k, pc));
      var ts := a.extract(desired);
      cr := cr.(status := Mirror(cr.status, ts, a.reasons, a.counts(ts), cr.generation));
      var conflict := WriteVersion(k, reply.value.effect, Some(cr));
      DriveStep(reg, before, k, pc, l, schedule, cluster, Idle);
      if reply.value.error || conflict { return Error; }
      var delay := NOT_READY_INTERVAL;
      if ts.ready { delay := READY_INTERVAL; }
      res := RequeueAfter(delay);
    }

    /** A reconcile that asks to come back later has just stored the readiness it goes by: it
        comes back after 5 minutes if ready and after 15 seconds otherwise. */
    predicate StoredReadiness(k: CrKey, res: Result)
      reads this
    {
      res.RequeueAfter? ==>
        && Current(cluster, k).Some?
        && res.seconds == if Current(cluster, k).value.status.ready then 300 else 15
    }

    /** The normal path past the finalizer. */
    method ReconcileLive(k: CrKey, cr: Cr) returns (res: Result)
      modifies this
      ensures AtPc(cluster, k, Idle) == old(Outlook(k, ReadTarget(cr)))
      ensures (res, schedule) == old(Verdict(k, ReadTarget(cr)))
      ensures (res == Error || res.RequeueAfter?) && StoredReadiness(k, res)
    {
      ghost var goal, verdict := Outlook(k, ReadTarget(cr)), Verdict(k, ReadTarget(cr));
      // 2. Detect create-vs-update, for the event only.
      var absent, failed := LookForTarget(k, cr);
      if failed { return Error; }
      // 3. Apply the target.
      var desired := ApplyManifest(k, cr, absent);
      if desired.None? { return Error; }
      // 3b. Apply or prune the extras.
      var extras := ExtrasOf(reg, k, cr.spec);
      var i := 0;
      while i < |extras|
        invariant 0 <= i <= |extras|
        invariant Outlook(k, Extras(cr, desired.value, i)) == goal
                  && Verdict(k, Extras(cr, desired.value, i)) == verdict
      {
        failed := ExtraOne(k, cr, desired.value, i, extras[i]);
        if failed { return Error; }
        i := i + 1;
      }
      // 4. Mirror the target's status.
      res := MirrorStatus(k, cr, desired.value, i);
    }

    /** One turn of applyExtraResources. */
    method ExtraOne(k: CrKey, cr: Cr, ghost merged: Fields, ghost n: nat, extra: Extra) returns (failed: bool)
      requires n < |ExtrasOf(reg, k, cr.spec)| && extra == ExtrasOf(reg, k, cr.spec)[n]
      modifies this
      ensures if failed
              then AtPc(cluster, k, Idle) == old(Outlook(k, Extras(cr, merged, n)))
                   && old(Verdict(k, Extras(cr, merged, n))) == (Error, schedule)
              else Outlook(k, Extras(cr, merged, n + 1)) == old(Outlook(k, Extras(cr, merged, n)))
                   && Verdict(k, Extras(cr, merged, n + 1)) == old(Verdict(k, Extras(cr, merged, n)))
    {
      var a := reg(k.kind);
      var o := ExtraKey(k, extra);
      ghost var pc := Extras(cr, merged, n);
      var reply, l := NextCall(k, pc);
      if reply.None? { return true; }
      ghost var before := cluster;
      var cur := Lookup(cluster.objs, o);
      if reply.value.effect {
        if extra.desired.Some? {
          cluster := PutObj(cluster, o, Some(ApplyObj(cur, a.fieldManager, extra.desired.value, Applier(k, cr.uid))));
        } else {
          cluster := PutObj(cluster, o, DeleteObj(cur));
        }
      }
      failed := reply.value.error;
      StoreSame(before.objs, o);
      DriveStep(reg, before, k, pc, l, schedule, cluster, if failed then Idle else Extras(cr, merged, n + 1));
    }

    method EnsureFinalizer(k: CrKey, cr: Cr) returns (res: Result)
      modifies this
      ensures AtPc(cluster, k, Idle) == old(Outlook(k, AddFinalizer(cr)))
      ensures (res, schedule) == old(Verdict(k, AddFinalizer(cr)))
      ensures res == Error || (res == Requeue && Holding(Current(cluster, k)))
    {
      ghost var pc := AddFinalizer(cr);
      var reply, l := NextCall(k, pc);
      if reply.None? { return Error; }
      ghost var before := cluster;
      var submitted := cr.(finalizers := cr.finalizers + {FINALIZER});
      var conflict := WriteVersion(k, reply.value.effect, Settle(WithSpec(submitted, reg(k.kind).stored(cr.spec), 0)));
      StoreSame(before.objs, Focus(reg, k, pc));
      DriveStep(reg, before, k, pc, l, schedule, cluster, Idle);
      res := if reply.value.error || conflict then Error else Requeue;
    }

    /** Reconcile one custom resource. For every cluster and every schedule it leaves the
        cluster exactly where the transition system's reconcile ends, which is the run of the
        labels it `used`. It returns an error exactly when it did not get to its end or one of
        its calls went wrong, and otherwise an answer that fits the version it read and the one
        stored at the end. */
    method Reconcile(k: CrKey) returns (res: Result, ghost used: seq<Label>)
      modifies this
      ensures AtPc(cluster, k, Idle) == old(Outlook(k, Idle)) && (res, schedule) == old(Verdict(k, Idle))
      ensures old(schedule) == used + schedule
      ensures var start := old(AtPc(cluster, k, Idle));
              && AtPc(cluster, k, Idle) == AtPc(Run(reg, start, used), k, Idle)
              && (res == Error <==> !Returned(reg, start, k, used) || InTrouble(reg, start, k, used))
      ensures res != Error ==> Fitting(VersionRead(cluster, k), Current(cluster, k), res)
      ensures StoredReadiness(k, res)
    {
      used := Used(reg, AtPc(cluster, k, Idle), k, schedule);
      DriveAnswers(reg, AtPc(cluster, k, Idle), k, schedule);

      // Get the custom resource.
      var reply, l := NextCall(k, Idle);
      if reply.None? { return Error, used; }
      ghost var before := cluster;
      StoreSame(before.objs, Focus(reg, k, Idle));
      if reply.value.error {
        DriveStep(reg, before, k, Idle, l, schedule, cluster, Idle);
        return Error, used;
      }
      var lane := LaneOf(cluster, k);
      lane := lane.(cursor := ReadIndex(lane, reply.value.read));
      cluster := PutLane(cluster, k, lane);
      var found := At(lane.log, lane.cursor);
      DriveStep(reg, before, k, Idle, l, schedule, cluster, Dispatch(found));
      if found.None? { return Nothing, used; }
      var cr := found.value;

      // Deletion path.
      if cr.deleting {
        if FINALIZER in cr.finalizers {
          res := ReconcileDeletion(k, cr);
        } else {
          res := Nothing;
        }
        return;
      }

      // 1. Ensure the finalizer.
      if FINALIZER !in cr.finalizers {
        res := EnsureFinalizer(k, cr);
        return;
      }

      res := ReconcileLive(k, cr);
    }
  }
}

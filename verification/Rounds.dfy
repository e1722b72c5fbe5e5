/**
  Laws of whole reconciles: being cut short costs nothing (crash-restart idempotence), and
  every schedule with two fault-free reconciles in it ends in the same fixpoint.
 */
module Rounds {
  import opened Types
  import opened ServerSideApply
  import opened StatusMirror
  import opened Adapters
  import opened Protocol
  import opened Safety
  import opened Convergence

  // ---------------------------------------------------------------- the owned objects

  lemma AppliedTwice(cur: Option<Obj>, manager: string, intent: Fields, applier: Applier)
    ensures ApplyObj(Some(ApplyObj(cur, manager, intent, applier)), manager, intent, applier)
            == ApplyObj(cur, manager, intent, applier)
  {
    ApplyIdempotent(if cur.Some? then cur.value.entries else map[], manager, intent);
    var once := ApplyObj(cur, manager, intent, applier);
    assert once.appliers + {applier} == once.appliers;
  }

  lemma WorkIdempotent(reg: Registry, k: CrKey, job: Job, i: nat, cur: Option<Obj>)
    ensures Work(reg, k, job, i, Work(reg, k, job, i, cur)) == Work(reg, k, job, i, cur)
  {
    if job.Want? {
      var a := reg(k.kind);
      AppliedTwice(cur, a.fieldManager, Manifest(reg, k, job.spec), Applier(k, job.uid));
      if 0 < i <= |ExtrasOf(reg, k, job.spec)| {
        var x := ExtrasOf(reg, k, job.spec)[i - 1].desired;
        if x.Some? { AppliedTwice(cur, a.fieldManager, x.value, Applier(k, job.uid)); }
      }
    }
  }

  /** Each owned object is dealt with on its own; everything else is left alone. */
  lemma {:induction false} WorkedAt(reg: Registry, k: CrKey, job: Job, objs: map<ObjKey, Obj>, n: nat, o: ObjKey)
    requires n <= |Owned(reg, k)| && OwnedDistinct(reg, k)
    ensures forall i :: 0 <= i < n && Owned(reg, k)[i] == o ==>
              Lookup(Worked(reg, k, job, objs, n), o) == Work(reg, k, job, i, Lookup(objs, o))
    ensures (forall i :: 0 <= i < n ==> Owned(reg, k)[i] != o)
            ==> Lookup(Worked(reg, k, job, objs, n), o) == Lookup(objs, o)
  {
    if n > 0 {
      WorkedAt(reg, k, job, objs, n - 1, o);
      WorkedAt(reg, k, job, objs, n - 1, Owned(reg, k)[n - 1]);
      assert forall i :: 0 <= i < n - 1 ==> Owned(reg, k)[i] != Owned(reg, k)[n - 1];
    }
  }

  lemma WorkedOwn(reg: Registry, k: CrKey, job: Job, objs: map<ObjKey, Obj>, n: nat, i: nat)
    requires n <= |Owned(reg, k)| && i < |Owned(reg, k)| && OwnedDistinct(reg, k)
    ensures var cur := Lookup(objs, Owned(reg, k)[i]);
            Lookup(Worked(reg, k, job, objs, n), Owned(reg, k)[i]) == if i < n then Work(reg, k, job, i, cur) else cur
  {
    var own := Owned(reg, k);
    WorkedAt(reg, k, job, objs, n, own[i]);
    if i >= n { assert forall j :: 0 <= j < n ==> own[j] != own[i]; }
  }

  lemma SameLookups(a: map<ObjKey, Obj>, b: map<ObjKey, Obj>)
    requires forall o :: Lookup(a, o) == Lookup(b, o)
    ensures a == b
  {
    assert forall o :: o in a <==> Lookup(a, o).Some?;
    assert forall o :: o in b <==> Lookup(b, o).Some?;
    assert forall o :: o in a ==> Lookup(a, o) == Some(a[o]) == Lookup(b, o);
  }

  /** Doing part of the work twice is doing the larger part once. */
  lemma WorkedTwice(reg: Registry, k: CrKey, job: Job, objs: map<ObjKey, Obj>, a: nat, b: nat)
    requires a <= |Owned(reg, k)| && b <= |Owned(reg, k)| && OwnedDistinct(reg, k)
    ensures Worked(reg, k, job, Worked(reg, k, job, objs, a), b) == Worked(reg, k, job, objs, if a < b then b else a)
  {
    var c := if a < b then b else a;
    var once := Worked(reg, k, job, objs, a);
    var twice := Worked(reg, k, job, once, b);
    var all := Worked(reg, k, job, objs, c);
    forall o ensures Lookup(twice, o) == Lookup(all, o) {
      WorkedAt(reg, k, job, objs, a, o);
      WorkedAt(reg, k, job, once, b, o);
      WorkedAt(reg, k, job, objs, c, o);
      if i :| 0 <= i < c && Owned(reg, k)[i] == o {
        WorkIdempotent(reg, k, job, i, Lookup(objs, o));
        assert forall j :: 0 <= j < c && j != i ==> Owned(reg, k)[j] != o;
      }
    }
    SameLookups(twice, all);
  }

  /** Work already done on the target does not change what applying it gives. */
  lemma TargetAfterWork(reg: Registry, k: CrKey, cr: Cr, objs: map<ObjKey, Obj>, n: nat)
    requires n <= |Owned(reg, k)| && OwnedDistinct(reg, k)
    ensures AppliedTarget(reg, k, cr, Worked(reg, k, Want(cr.spec, cr.uid), objs, n)) == AppliedTarget(reg, k, cr, objs)
  {
    var job := Want(cr.spec, cr.uid);
    WorkedAt(reg, k, job, objs, n, TargetKey(reg, k));
    WorkIdempotent(reg, k, job, 0, Lookup(objs, TargetKey(reg, k)));
    assert Owned(reg, k)[0] == TargetKey(reg, k);
  }

  // ---------------------------------------------------------------- rounds

  predicate Settled(reg: Registry, k: CrKey, m: ClusterView) {
    Round(reg, k, m) == m
  }

  ghost predicate Wellformed(m: ClusterView) {
    m.cr.Some? ==> UniqueTypes(m.cr.value.status.conditions)
  }

  /** A round on a resource with our finalizer (live or deleting) settles it at once; on a
      live one without it, the next round does. */
  lemma RoundSettles(reg: Registry, k: CrKey, m: ClusterView)
    requires Lawful(reg) && Wellformed(m)
    ensures Wellformed(Round(reg, k, m))
    ensures !Dispatch(m.cr).AddFinalizer? ==> Settled(reg, k, Round(reg, k, m))
    ensures Dispatch(m.cr).AddFinalizer? ==> !Dispatch(Round(reg, k, m).cr).AddFinalizer?
  {
    assert OwnedDistinct(reg, k);
    match Dispatch(m.cr) {
      case ReadTarget(cr) =>
        if Accepted(reg, k, cr, m.objs) {
          var merged := Values(AppliedTarget(reg, k, cr, m.objs).entries);
          var ts := reg(k.kind).extract(merged);
          MirrorLaws(cr.status, ts, reg(k.kind).reasons, reg(k.kind).counts(ts), cr.generation);
          TargetAfterWork(reg, k, cr, m.objs, |Owned(reg, k)|);
          WorkedTwice(reg, k, JobOf(cr), m.objs, |Owned(reg, k)|, |Owned(reg, k)|);
        }
      case _ =>
    }
  }

  /** A round cut short does not change where the next full round ends. */
  lemma RoundAfterCut(reg: Registry, k: CrKey, m: ClusterView, t: ClusterView)
    requires Lawful(reg) && CutShort(reg, k, m, t)
    ensures Round(reg, k, t) == Round(reg, k, m)
  {
    var n :| 0 <= n <= |Owned(reg, k)| && CutShortAt(reg, k, m, t, n);
    if n > 0 {
      assert OwnedDistinct(reg, k);
      var cr := m.cr.value;
      WorkedTwice(reg, k, JobOf(cr), m.objs, n, |Owned(reg, k)|);
      if !cr.deleting { TargetAfterWork(reg, k, cr, m.objs, n); }
    }
  }

  /** Once settled, not even an interrupted reconcile moves anything. */
  lemma SettledStays(reg: Registry, k: CrKey, m: ClusterView, t: ClusterView)
    requires Lawful(reg) && Settled(reg, k, m) && CutShort(reg, k, m, t)
    ensures t == m
  {
    var n :| 0 <= n <= |Owned(reg, k)| && CutShortAt(reg, k, m, t, n);
    if n > 0 {
      assert OwnedDistinct(reg, k);
      WorkedTwice(reg, k, JobOf(m.cr.value), m.objs, |Owned(reg, k)|, n);
    }
  }

  /** Where the schedule is heading. */
  function Destination(reg: Registry, k: CrKey, m: ClusterView): ClusterView {
    Round(reg, k, Round(reg, k, m))
  }

  // ---------------------------------------------------------------- the measure

  /** How many of the first `n` owned objects are not yet in the form this job gives them. */
  function Undone(reg: Registry, k: CrKey, job: Job, objs: map<ObjKey, Obj>, n: nat): nat
    requires n <= |Owned(reg, k)|
  {
    if n == 0 then 0
    else
      var cur := Lookup(objs, Owned(reg, k)[n - 1]);
      Undone(reg, k, job, objs, n - 1) + if Work(reg, k, job, n - 1, cur) == cur then 0 else 1
  }

  /** What is left to do, read off the managed state: is a finalizer write due (adding ours, or
      dropping it from a deleting resource), how many owned objects are out of date, and does
      the stored status differ from the target's. A manifest the vendor rejects leaves
      nothing that a reconcile could do. */
  datatype Todo = Todo(finalizer: nat, objects: nat, status: nat)

  const DONE := Todo(0, 0, 0)

  function Remaining(reg: Registry, k: CrKey, m: ClusterView): Todo {
    match Dispatch(m.cr)
    case AddFinalizer(_) => Todo(1, 0, 0)
    case Deleting(_, _) => Todo(1, Undone(reg, k, Cleanup, m.objs, |Owned(reg, k)|), 0)
    case ReadTarget(cr) =>
      if Accepted(reg, k, cr, m.objs) then
        var mirrored := StatusMirrored(reg(k.kind), cr, Values(AppliedTarget(reg, k, cr, m.objs).entries));
        Todo(0, Undone(reg, k, JobOf(cr), m.objs, |Owned(reg, k)|), if cr == mirrored then 0 else 1)
      else DONE
    case _ => DONE
  }

  /** Lexicographic order: finalizer, then objects, then status. */
  predicate Less(a: Todo, b: Todo) {
    || a.finalizer < b.finalizer
    || (a.finalizer == b.finalizer && a.objects < b.objects)
    || (a.finalizer == b.finalizer && a.objects == b.objects && a.status < b.status)
  }

  /** No object is out of date exactly when the work changes none of them. */
  lemma {:induction false} UndoneIsChange(reg: Registry, k: CrKey, job: Job, objs: map<ObjKey, Obj>, n: nat)
    requires n <= |Owned(reg, k)| && OwnedDistinct(reg, k)
    ensures Undone(reg, k, job, objs, n) == 0 <==> Worked(reg, k, job, objs, n) == objs
  {
    if n > 0 {
      UndoneIsChange(reg, k, job, objs, n - 1);
      var o := Owned(reg, k)[n - 1];
      WorkedAt(reg, k, job, objs, n, o);
      StoreSame(objs, o);
      if Worked(reg, k, job, objs, n) == objs {
        forall x ensures Lookup(Worked(reg, k, job, objs, n - 1), x) == Lookup(objs, x) {
          WorkedAt(reg, k, job, objs, n - 1, x);
          WorkedAt(reg, k, job, objs, n, x);
        }
        SameLookups(Worked(reg, k, job, objs, n - 1), objs);
      }
    }
  }

  /** Part of the work never puts an object out of date, and all of it leaves none. */
  lemma {:induction false} UndoneAfterWork(reg: Registry, k: CrKey, job: Job, objs: map<ObjKey, Obj>, done: nat, n: nat)
    requires done <= |Owned(reg, k)| && n <= |Owned(reg, k)| && OwnedDistinct(reg, k)
    ensures Undone(reg, k, job, Worked(reg, k, job, objs, done), n) <= Undone(reg, k, job, objs, n)
    ensures n <= done ==> Undone(reg, k, job, Worked(reg, k, job, objs, done), n) == 0
  {
    if n > 0 {
      UndoneAfterWork(reg, k, job, objs, done, n - 1);
      WorkedOwn(reg, k, job, objs, done, n - 1);
      WorkIdempotent(reg, k, job, n - 1, Lookup(objs, Owned(reg, k)[n - 1]));
    }
  }

  /** Nothing is left to do exactly at the fixpoints of a reconcile. */
  lemma DoneIffSettled(reg: Registry, k: CrKey, m: ClusterView)
    requires Lawful(reg)
    ensures Remaining(reg, k, m) == DONE <==> Settled(reg, k, m)
  {
    assert OwnedDistinct(reg, k);
    var n := |Owned(reg, k)|;
    match Dispatch(m.cr) {
      case AddFinalizer(cr) => assert FINALIZER in FinalizerAdded(reg(k.kind), cr).finalizers;
      case Deleting(cr, _) => assert FINALIZER !in FinalizerDropped(reg(k.kind), cr).finalizers;
      case ReadTarget(cr) => UndoneIsChange(reg, k, JobOf(cr), m.objs, n);
      case _ =>
    }
  }

  /** A full round with anything left to do comes strictly closer. */
  lemma RoundDecreases(reg: Registry, k: CrKey, m: ClusterView)
    requires Lawful(reg) && Wellformed(m) && Remaining(reg, k, m) != DONE
    ensures Less(Remaining(reg, k, Round(reg, k, m)), Remaining(reg, k, m))
  {
    RoundSettles(reg, k, m);
    var t := Round(reg, k, m);
    match Dispatch(m.cr) {
      case AddFinalizer(cr) => assert FINALIZER in FinalizerAdded(reg(k.kind), cr).finalizers;
      case Deleting(cr, _) => DoneIffSettled(reg, k, t);
      case ReadTarget(cr) => DoneIffSettled(reg, k, t);
      case _ =>
    }
  }

  /** A round cut short anywhere never takes back anything. */
  lemma CutNeverRaises(reg: Registry, k: CrKey, m: ClusterView, t: ClusterView)
    requires Lawful(reg) && CutShort(reg, k, m, t)
    ensures !Less(Remaining(reg, k, m), Remaining(reg, k, t))
  {
    var n :| 0 <= n <= |Owned(reg, k)| && CutShortAt(reg, k, m, t, n);
    if n > 0 {
      assert OwnedDistinct(reg, k);
      var cr := m.cr.value;
      UndoneAfterWork(reg, k, JobOf(cr), m.objs, n, |Owned(reg, k)|);
      if !cr.deleting { TargetAfterWork(reg, k, cr, m.objs, n); }
    }
  }

  /** The measure of one reconcile: failing or crashing anywhere never raises what is left and
      never moves the destination, and a fault-free one lowers it strictly until it is nothing. */
  lemma AttemptProgress(reg: Registry, k: CrKey, s: State, plan: seq<Outcome>)
    requires Lawful(reg) && LaneInv(k.kind, LaneOf(s, k)) && LaneOf(s, k).pc.Idle?
    ensures var m := ViewOf(s, k); var t := ViewOf(Attempt(reg, s, k, plan), k);
            && Destination(reg, k, t) == Destination(reg, k, m)
            && !Less(Remaining(reg, k, m), Remaining(reg, k, t))
            && (FaultFree(reg, k, plan) && Remaining(reg, k, m) != DONE
                ==> Less(Remaining(reg, k, t), Remaining(reg, k, m)))
  {
    var m := ViewOf(s, k);
    var t := ViewOf(Attempt(reg, s, k, plan), k);
    ViewWellformed(k, s);
    AttemptIsRound(reg, k, s, plan);
    RoundSettles(reg, k, m);
    RoundSettles(reg, k, Round(reg, k, m));
    if t == Round(reg, k, m) {
      if Remaining(reg, k, m) == DONE { DoneIffSettled(reg, k, m); } else { RoundDecreases(reg, k, m); }
    } else {
      RoundAfterCut(reg, k, m, t);
      CutNeverRaises(reg, k, m, t);
    }
  }

  /** How many fault-free reconciles are enough, by what is left to do. */
  function RoundsLeft(reg: Registry, k: CrKey, m: ClusterView): nat {
    if Remaining(reg, k, m) == DONE then 0 else if Dispatch(m.cr).AddFinalizer? then 2 else 1
  }

  lemma AttemptApproaches(reg: Registry, k: CrKey, s: State, plan: seq<Outcome>)
    requires Lawful(reg) && LaneInv(k.kind, LaneOf(s, k)) && LaneOf(s, k).pc.Idle?
    ensures var m := ViewOf(s, k); var t := ViewOf(Attempt(reg, s, k, plan), k);
            && RoundsLeft(reg, k, t) <= RoundsLeft(reg, k, m)
            && (FaultFree(reg, k, plan) && RoundsLeft(reg, k, m) > 0 ==> RoundsLeft(reg, k, t) < RoundsLeft(reg, k, m))
  {
    var m := ViewOf(s, k);
    var t := ViewOf(Attempt(reg, s, k, plan), k);
    ViewWellformed(k, s);
    AttemptIsRound(reg, k, s, plan);
    RoundSettles(reg, k, m);
    DoneIffSettled(reg, k, m);
    DoneIffSettled(reg, k, t);
    if t != Round(reg, k, m) && Settled(reg, k, m) { SettledStays(reg, k, m, t); }
  }

  lemma ViewWellformed(k: CrKey, s: State)
    requires LaneInv(k.kind, LaneOf(s, k))
    ensures Wellformed(ViewOf(s, k))
  {
    var log := LaneOf(s, k).log;
    if log != [] && Last(log).Some? { assert Consistent(log[|log| - 1].value.status); }
  }

  /** Reconcile again and again, each time with its own luck. */
  function Attempts(reg: Registry, s: State, k: CrKey, plans: seq<seq<Outcome>>): State
    decreases |plans|
  {
    if plans == [] then s else Attempts(reg, Attempt(reg, s, k, plans[0]), k, plans[1..])
  }

  function CountFaultFree(reg: Registry, k: CrKey, plans: seq<seq<Outcome>>): nat {
    if plans == [] then 0 else (if FaultFree(reg, k, plans[0]) then 1 else 0) + CountFaultFree(reg, k, plans[1..])
  }

  function CountFaulty(reg: Registry, k: CrKey, plans: seq<seq<Outcome>>): nat {
    if plans == [] then 0 else (if FaultFree(reg, k, plans[0]) then 0 else 1) + CountFaulty(reg, k, plans[1..])
  }

  /** The measure of a whole schedule, failures still to come in front: every reconcile takes
      the schedule to a strictly smaller pair, unless it is fault-free with nothing left to
      do. */
  lemma ScheduleDecreases(reg: Registry, k: CrKey, s: State, plans: seq<seq<Outcome>>)
    requires Lawful(reg) && LaneInv(k.kind, LaneOf(s, k)) && LaneOf(s, k).pc.Idle? && plans != []
    ensures var t := Attempt(reg, s, k, plans[0]);
            var was, next := Remaining(reg, k, ViewOf(s, k)), Remaining(reg, k, ViewOf(t, k));
            var faults, left := CountFaulty(reg, k, plans), CountFaulty(reg, k, plans[1..]);
            || left < faults
            || (left == faults && Less(next, was))
            || (left == faults && next == was == DONE)
  {
    AttemptProgress(reg, k, s, plans[0]);
    AttemptIsRound(reg, k, s, plans[0]);
    DoneIffSettled(reg, k, ViewOf(s, k));
  }

  lemma {:induction false} ScheduleProgress(reg: Registry, k: CrKey, s: State, plans: seq<seq<Outcome>>)
    requires Lawful(reg) && LaneInv(k.kind, LaneOf(s, k)) && LaneOf(s, k).pc.Idle?
    ensures var m := ViewOf(s, k); var t := ViewOf(Attempts(reg, s, k, plans), k);
            && Destination(reg, k, t) == Destination(reg, k, m)
            && (RoundsLeft(reg, k, t) == 0
                || RoundsLeft(reg, k, t) + CountFaultFree(reg, k, plans) <= RoundsLeft(reg, k, m))
    decreases |plans|
  {
    if plans != [] {
      AttemptProgress(reg, k, s, plans[0]);
      AttemptApproaches(reg, k, s, plans[0]);
      AttemptIsRound(reg, k, s, plans[0]);
      ScheduleProgress(reg, k, Attempt(reg, s, k, plans[0]), plans[1..]);
    }
  }

  // ---------------------------------------------------------------- main results

  /** Convergence: from any reachable state, once others stop writing, every schedule of
      reconciles failing or crashing anywhere, with two fault-free ones among them, ends in
      the fixpoint that two rounds lead to, and stays there. One fault-free reconcile is
      enough when the resource already carries our finalizer, so a deleting resource is
      released by one. */
  lemma Converges(reg: Registry, before: seq<Label>, k: CrKey, plans: seq<seq<Outcome>>)
    requires Lawful(reg) && LaneOf(Run(reg, INIT, before), k).pc.Idle?
    ensures var s := Run(reg, INIT, before);
            var m := ViewOf(s, k);
            var t := ViewOf(Attempts(reg, s, k, plans), k);
            var enough := if Dispatch(m.cr).AddFinalizer? then 2 else 1;
            CountFaultFree(reg, k, plans) >= enough ==> Settled(reg, k, t) && t == Destination(reg, k, m)
  {
    var s := Run(reg, INIT, before);
    InitInv(reg);
    RunKeepsInv(reg, INIT, before);
    assert LaneInv(k.kind, LaneOf(s, k));
    ScheduleProgress(reg, k, s, plans);
    DoneIffSettled(reg, k, ViewOf(Attempts(reg, s, k, plans), k));
  }

  /** The same from a reconcile in flight: let it end in any way, on a stale version, amid
      interference, failing or crashing. Once others stop writing, as many fault-free
      reconciles as in `Converges` lead to a fixpoint. */
  lemma ConvergesInFlight(reg: Registry, before: seq<Label>, k: CrKey, schedule: seq<Label>, plans: seq<seq<Outcome>>)
    requires Lawful(reg)
    ensures var s := Drive(reg, Run(reg, INIT, before), k, schedule);
            var enough := if Dispatch(Current(s, k)).AddFinalizer? then 2 else 1;
            && LaneOf(s, k).pc.Idle?
            && (CountFaultFree(reg, k, plans) >= enough ==> Settled(reg, k, ViewOf(Attempts(reg, s, k, plans), k)))
  {
    DriveIsRun(reg, Run(reg, INIT, before), k, schedule);
    var ls :| Drive(reg, Run(reg, INIT, before), k, schedule) == Run(reg, Run(reg, INIT, before), ls);
    RunConcat(reg, INIT, before, ls);
    DriveEndsIdle(reg, Run(reg, INIT, before), k, schedule);
    Converges(reg, before + ls, k, plans);
  }

  /** Crash-restart idempotence: stop a reconcile at any call, then run one to the end. The
      result is that of one uninterrupted reconcile, on the normal and on the deletion path.
      Only when the interrupted one got its finalizer write through is the restart one
      reconcile ahead: it then equals two uninterrupted ones. */
  lemma CrashRestart(reg: Registry, before: seq<Label>, k: CrKey, plan: seq<Outcome>, full: seq<Outcome>)
    requires Lawful(reg) && LaneOf(Run(reg, INIT, before), k).pc.Idle? && FaultFree(reg, k, full)
    ensures var s := Run(reg, INIT, before);
            var interrupted := Attempt(reg, s, k, plan);
            var once := Attempt(reg, s, k, full);
            var restarted := ViewOf(Attempt(reg, interrupted, k, full), k);
            if Dispatch(Current(s, k)).AddFinalizer? && Current(interrupted, k) != Current(s, k)
            then restarted == ViewOf(Attempt(reg, once, k, full), k)
            else restarted == ViewOf(once, k)
  {
    var s := Run(reg, INIT, before);
    InitInv(reg);
    RunKeepsInv(reg, INIT, before);
    assert LaneInv(k.kind, LaneOf(s, k));
    var m := ViewOf(s, k);
    ViewWellformed(k, s);
    AttemptIsRound(reg, k, s, plan);
    AttemptIsRound(reg, k, s, full);
    AttemptIsRound(reg, k, Attempt(reg, s, k, plan), full);
    AttemptIsRound(reg, k, Attempt(reg, s, k, full), full);
    RoundSettles(reg, k, m);
    var t := ViewOf(Attempt(reg, s, k, plan), k);
    if CutShort(reg, k, m, t) {
      RoundAfterCut(reg, k, m, t);
    }
  }

  /** A new version differs from the one it replaces, and is put behind it. */
  predicate AtMostOneNew(was: Log, now: Log) {
    now == was || (|now| == |was| + 1 && now[..|was|] == was && Last(now) != Last(was))
  }

  /** An undisturbed reconcile stores at most one version, however it goes. */
  lemma {:induction false} DriveStoresOne(reg: Registry, k: CrKey, s: State, plan: seq<Outcome>)
    ensures AtMostOneNew(LaneOf(s, k).log, LaneOf(Drive(reg, s, k, Calls(k, plan)), k).log)
    decreases |plan|
  {
    if plan != [] {
      var l := Operator(k, Latest, plan[0]);
      var t := Step(reg, s, l);
      var lane := LaneOf(s, k);
      var f := Focus(reg, k, lane.pc);
      assert Calls(k, plan)[0] == l;
      assert Calls(k, plan)[1..] == Calls(k, plan[1..]);
      if !lane.pc.Idle? && WritesCr(reg, k, lane.pc) {
        WritingCall(reg, k, lane, Lookup(s.objs, f), Latest, plan[0]);
      } else {
        if !lane.pc.Idle? { QuietCall(reg, k, lane, Lookup(s.objs, f), Latest, plan[0]); }
        if !LaneOf(t, k).pc.Idle? { DriveStoresOne(reg, k, t, plan[1..]); }
      }
    }
  }

  /** Once settled, a reconcile, however it goes, stores no version and moves no object: the
      operator does not wake itself up. */
  lemma SettledIsQuiet(reg: Registry, k: CrKey, s: State, plan: seq<Outcome>)
    requires Lawful(reg) && LaneInv(k.kind, LaneOf(s, k)) && LaneOf(s, k).pc.Idle?
    requires Settled(reg, k, ViewOf(s, k))
    ensures var t := Attempt(reg, s, k, plan);
            LaneOf(t, k).log == LaneOf(s, k).log && t.objs == s.objs
  {
    var t := Attempt(reg, s, k, plan);
    AttemptIsRound(reg, k, s, plan);
    if CutShort(reg, k, ViewOf(s, k), ViewOf(t, k)) { SettledStays(reg, k, ViewOf(s, k), ViewOf(t, k)); }
    DriveStoresOne(reg, k, s, plan);
  }

  /** What being settled means for a live resource whose manifest the vendor accepts: our
      finalizer is on it; on the target this manager owns exactly the manifest's paths with
      the manifest's values; every extra the spec asks for is applied likewise, every other
      one is absent or terminating; and the stored status mirrors the target, for the stored
      generation. */
  lemma SettledMeans(reg: Registry, k: CrKey, m: ClusterView)
    requires Lawful(reg) && Settled(reg, k, m) && m.cr.Some? && !m.cr.value.deleting
    requires Fits(k.kind, m.cr.value.spec) && Wellformed(m)
    requires Accepted(reg, k, m.cr.value, m.objs)
    ensures FINALIZER in m.cr.value.finalizers
    ensures var a := reg(k.kind); var spec := m.cr.value.spec;
            && InSync(a, Lookup(m.objs, TargetKey(reg, k)), Manifest(reg, k, spec))
            && (forall i :: 0 <= i < |ExtrasOf(reg, k, spec)| ==>
                  var e := ExtrasOf(reg, k, spec)[i];
                  var x := Lookup(m.objs, ExtraKey(k, e));
                  if e.desired.Some? then InSync(a, x, e.desired.value) else x.None? || x.value.terminating)
    ensures var a := reg(k.kind); var cr := m.cr.value;
            TargetKey(reg, k) in m.objs &&
            var ts := a.extract(Values(m.objs[TargetKey(reg, k)].entries));
            && cr.status.ready == ts.ready && cr.status.phase == ts.phase
            && cr.status.count == a.counts(ts).0 && cr.status.readyCount == a.counts(ts).1
            && ReadyCondition(ts, a.reasons, cr.generation) in cr.status.conditions
  {
    var a := reg(k.kind);
    var cr := m.cr.value;
    var job := Want(cr.spec, cr.uid);
    var n := |Owned(reg, k)|;
    assert FINALIZER in FinalizerAdded(a, cr).finalizers;
    assert FINALIZER !in cr.finalizers ==> Round(reg, k, m).cr == Some(FinalizerAdded(a, cr));
    assert OwnedDistinct(reg, k) && ListsEverySlot(reg, k, cr.spec);
    assert m.objs == Worked(reg, k, job, m.objs, n);
    assert Owned(reg, k)[0] == TargetKey(reg, k);
    WorkedAt(reg, k, job, m.objs, n, TargetKey(reg, k));
    InSyncAfterApply(a, Lookup(m.objs, TargetKey(reg, k)), Manifest(reg, k, cr.spec), Applier(k, cr.uid));
    forall i | 0 <= i < |ExtrasOf(reg, k, cr.spec)|
      ensures var e := ExtrasOf(reg, k, cr.spec)[i];
              var x := Lookup(m.objs, ExtraKey(k, e));
              if e.desired.Some? then InSync(a, x, e.desired.value) else x.None? || x.value.terminating
    {
      var e := ExtrasOf(reg, k, cr.spec)[i];
      assert Owned(reg, k)[i + 1] == ExtraKey(k, e);
      WorkedAt(reg, k, job, m.objs, n, ExtraKey(k, e));
      if e.desired.Some? {
        InSyncAfterApply(a, Lookup(m.objs, ExtraKey(k, e)), e.desired.value, Applier(k, cr.uid));
      }
    }
    var ts := a.extract(Values(AppliedTarget(reg, k, cr, m.objs).entries));
    MirrorLaws(cr.status, ts, a.reasons, a.counts(ts), cr.generation);
  }

  /** The manager owns exactly the wanted paths of the object, with the wanted values. */
  ghost predicate InSync(a: Adapter, x: Option<Obj>, want: Fields) {
    && x.Some?
    && OwnedBy(x.value.entries, a.fieldManager) == want.Keys
    && forall p :: p in want ==> p in x.value.entries && x.value.entries[p].value == want[p]
  }

  lemma InSyncAfterApply(a: Adapter, cur: Option<Obj>, want: Fields, applier: Applier)
    ensures InSync(a, Some(ApplyObj(cur, a.fieldManager, want, applier)), want)
  {
    AppliedOwnership(if cur.Some? then cur.value.entries else map[], a.fieldManager, want);
  }

  /** What a successful Delete makes of an object: gone, or, if someone else's finalizer holds
      it, the same object but terminating. */
  predicate Removed(was: Option<Obj>, x: Option<Obj>) {
    if was.Some? && was.value.held then
      && x.Some? && x.value.terminating && x.value.held
      && x.value.entries == was.value.entries && x.value.appliers == was.value.appliers
    else x.None?
  }

  /** A deleting resource after one fault-free reconcile: our finalizer is gone and the others
      stay, the status is as it was, the resource itself is gone if there are no others, every
      object it owns is removed, and every other object is left alone. */
  lemma ReleasedByOne(reg: Registry, k: CrKey, m: ClusterView)
    requires Lawful(reg) && m.cr.Some? && m.cr.value.deleting && FINALIZER in m.cr.value.finalizers
    ensures var t := Round(reg, k, m); var cr := m.cr.value; var rest := cr.finalizers - {FINALIZER};
            && (if rest == {} then t.cr.None?
                else
                  && t.cr.Some? && t.cr.value.finalizers == rest && t.cr.value.deleting
                  && t.cr.value.uid == cr.uid && t.cr.value.status == cr.status)
            && (forall o :: o in Owned(reg, k) ==> Removed(Lookup(m.objs, o), Lookup(t.objs, o)))
            && (forall o :: o !in Owned(reg, k) ==> Lookup(t.objs, o) == Lookup(m.objs, o))
  {
    assert OwnedDistinct(reg, k);
    forall o ensures o in Owned(reg, k) ==> Removed(Lookup(m.objs, o), Lookup(Round(reg, k, m).objs, o))
             ensures o !in Owned(reg, k) ==> Lookup(Round(reg, k, m).objs, o) == Lookup(m.objs, o)
    {
      WorkedAt(reg, k, Cleanup, m.objs, |Owned(reg, k)|, o);
    }
  }
}

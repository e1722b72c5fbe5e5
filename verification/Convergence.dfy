/**
  Whole reconciles. While nobody else writes, a Reconcile that runs to the end acts on the
  managed state (the custom resource and the objects) as one function, `Round`. From it:
  crash-restart idempotence, and convergence of every schedule of failing and fault-free
  reconciles.
 */
module Convergence {
  import opened Types
  import opened ServerSideApply
  import opened Adapters
  import opened Protocol
  import opened Safety

  /** One call of Reconcile under a schedule of labels: its own API calls, with whatever
      happens in between. It ends when it returns or the process crashes; a schedule that
      ends first is a crash. */
  function Drive(reg: Registry, s: State, k: CrKey, schedule: seq<Label>): State
    decreases |schedule|
  {
    if schedule == [] then Step(reg, s, Crash(k))
    else
      var t := Step(reg, s, schedule[0]);
      if (schedule[0].Operator? || schedule[0].Crash?) && schedule[0].k == k && LaneOf(t, k).pc.Idle? then t
      else Drive(reg, t, k, schedule[1..])
  }

  /** Whatever a Reconcile call does, with any interference, is a run of the protocol, made of
      steps of the schedule and at most a crash. */
  lemma {:induction false} DriveIsRun(reg: Registry, s: State, k: CrKey, schedule: seq<Label>)
    ensures exists ls ::
              && Drive(reg, s, k, schedule) == Run(reg, s, ls)
              && (forall l :: l in ls ==> l in schedule || l == Crash(k))
    decreases |schedule|
  {
    if schedule == [] {
      RunOne(reg, s, Crash(k));
      assert Drive(reg, s, k, schedule) == Run(reg, s, [Crash(k)]);
    } else {
      var t := Step(reg, s, schedule[0]);
      if (schedule[0].Operator? || schedule[0].Crash?) && schedule[0].k == k && LaneOf(t, k).pc.Idle? {
        RunOne(reg, s, schedule[0]);
        assert Drive(reg, s, k, schedule) == Run(reg, s, [schedule[0]]);
      } else {
        DriveIsRun(reg, t, k, schedule[1..]);
        var ls :| Drive(reg, t, k, schedule[1..]) == Run(reg, t, ls)
            && (forall l :: l in ls ==> l in schedule[1..] || l == Crash(k));
        assert ([schedule[0]] + ls)[1..] == ls;
        assert Run(reg, s, [schedule[0]] + ls) == Run(reg, t, ls);
      }
    }
  }

  // ---------------------------------------------------------------- what Reconcile returns

  /** ctrl.Result together with the error return. */
  datatype Result =
    | Error
    | Nothing
    | Requeue
    | RequeueAfter(seconds: nat)

  const NOT_READY_INTERVAL := 15
  const READY_INTERVAL := 300

  function Interval(ready: bool): nat {
    if ready then READY_INTERVAL else NOT_READY_INTERVAL
  }

  /** What Reconcile returns when this call is its last. */
  function Returns(reg: Registry, k: CrKey, lane: Lane, out: Outcome): Result {
    var written := out.Done? && lane.cursor + 1 == |lane.log|;
    match lane.pc
    case Idle => if out.Done? then Nothing else Error
    case AddFinalizer(_) => if written then Requeue else Error
    case Extras(cr, merged, n) =>
      if n >= |ExtrasOf(reg, k, cr.spec)| && written
      then RequeueAfter(Interval(reg(k.kind).extract(merged).ready))
      else Error
    case Deleting(cr, n) => if n > |ExtrasOf(reg, k, cr.spec)| && written then Nothing else Error
    case _ => Error
  }

  /** What the Reconcile call of `Drive` returns; an error stands for a crash. */
  function DriveResult(reg: Registry, s: State, k: CrKey, schedule: seq<Label>): Result
    decreases |schedule|
  {
    if schedule == [] then Error
    else
      var t := Step(reg, s, schedule[0]);
      if (schedule[0].Operator? || schedule[0].Crash?) && schedule[0].k == k && LaneOf(t, k).pc.Idle? then
        if schedule[0].Operator? then Returns(reg, k, LaneOf(s, k), schedule[0].out) else Error
      else DriveResult(reg, t, k, schedule[1..])
  }

  lemma {:induction false} DriveEndsIdle(reg: Registry, s: State, k: CrKey, schedule: seq<Label>)
    ensures LaneOf(Drive(reg, s, k, schedule), k).pc.Idle?
    decreases |schedule|
  {
    if schedule != [] {
      DriveEndsIdle(reg, Step(reg, s, schedule[0]), k, schedule[1..]);
    }
  }

  function Calls(k: CrKey, plan: seq<Outcome>): seq<Label> {
    seq(|plan|, i requires 0 <= i < |plan| => Operator(k, Latest, plan[i]))
  }

  /** A Reconcile call with nobody else writing and fresh reads: `plan` gives the outcome of
      each API call, and where it ends the process crashes. */
  function Attempt(reg: Registry, s: State, k: CrKey, plan: seq<Outcome>): State {
    Drive(reg, s, k, Calls(k, plan))
  }

  /** No call fails and the process lives long enough. */
  predicate FaultFree(reg: Registry, k: CrKey, plan: seq<Outcome>) {
    |plan| >= |Owned(reg, k)| + 3 && forall i :: 0 <= i < |plan| ==> plan[i].Done?
  }

  // ---------------------------------------------------------------- the managed state

  datatype ClusterView = ClusterView(cr: Option<Cr>, objs: map<ObjKey, Obj>)

  function ViewOf(s: State, k: CrKey): ClusterView {
    ClusterView(Current(s, k), s.objs)
  }

  datatype Job = Want(spec: CrSpec, uid: nat) | Cleanup

  /** What a reconcile does to the i-th owned object. */
  function Work(reg: Registry, k: CrKey, job: Job, i: nat, cur: Option<Obj>): Option<Obj> {
    match job
    case Cleanup => DeleteObj(cur)
    case Want(spec, uid) =>
      var a := reg(k.kind);
      if 0 < i <= |ExtrasOf(reg, k, spec)| then ExtraApplied(a, cur, ExtrasOf(reg, k, spec)[i - 1], Applier(k, uid))
      else Some(ApplyObj(cur, a.fieldManager, Manifest(reg, k, spec), Applier(k, uid)))
  }

  /** The objects after the first `n` owned ones have been dealt with. */
  function Worked(reg: Registry, k: CrKey, job: Job, objs: map<ObjKey, Obj>, n: nat): map<ObjKey, Obj>
    requires n <= |Owned(reg, k)|
  {
    if n == 0 then objs
    else
      var before := Worked(reg, k, job, objs, n - 1);
      var o := Owned(reg, k)[n - 1];
      Store(before, o, Work(reg, k, job, n - 1, Lookup(before, o)))
  }

  function AppliedTarget(reg: Registry, k: CrKey, cr: Cr, objs: map<ObjKey, Obj>): Obj {
    ApplyObj(Lookup(objs, TargetKey(reg, k)), reg(k.kind).fieldManager, Manifest(reg, k, cr.spec), Applier(k, cr.uid))
  }

  predicate Accepted(reg: Registry, k: CrKey, cr: Cr, objs: map<ObjKey, Obj>) {
    reg(k.kind).accepts(Values(AppliedTarget(reg, k, cr, objs).entries))
  }

  function JobOf(cr: Cr): Job {
    if cr.deleting then Cleanup else Want(cr.spec, cr.uid)
  }

  /** One uninterrupted reconcile. */
  function Round(reg: Registry, k: CrKey, m: ClusterView): ClusterView {
    var a := reg(k.kind);
    match Dispatch(m.cr)
    case AddFinalizer(cr) => ClusterView(Settle(FinalizerAdded(a, cr)), m.objs)
    case ReadTarget(cr) =>
      if Accepted(reg, k, cr, m.objs)
      then ClusterView(Some(StatusMirrored(a, cr, Values(AppliedTarget(reg, k, cr, m.objs).entries))),
                   Worked(reg, k, JobOf(cr), m.objs, |Owned(reg, k)|))
      else m
    case Deleting(cr, _) =>
      ClusterView(Settle(FinalizerDropped(a, cr)), Worked(reg, k, Cleanup, m.objs, |Owned(reg, k)|))
    case _ => m
  }

  /** The managed state a reconcile can leave when it is cut short: the resource as it was,
      and the work done on the first few owned objects. */
  ghost predicate CutShort(reg: Registry, k: CrKey, m: ClusterView, t: ClusterView) {
    exists n :: 0 <= n <= |Owned(reg, k)| && CutShortAt(reg, k, m, t, n)
  }

  ghost predicate CutShortAt(reg: Registry, k: CrKey, m: ClusterView, t: ClusterView, n: nat)
    requires n <= |Owned(reg, k)|
  {
    && t.cr == m.cr
    && (n == 0 ==> t == m)
    && (n > 0 ==>
          && m.cr.Some? && FINALIZER in m.cr.value.finalizers
          && (!m.cr.value.deleting ==> Accepted(reg, k, m.cr.value, m.objs))
          && t.objs == Worked(reg, k, JobOf(m.cr.value), m.objs, n))
  }

  // ---------------------------------------------------------------- one reconcile = one round

  /** Where a reconcile that started at managed state `m` stands before its next call. */
  ghost predicate Midway(reg: Registry, k: CrKey, m: ClusterView, s: State) {
    var lane := LaneOf(s, k);
    && LaneInv(k.kind, lane)
    && Last(lane.log) == m.cr
    && (!lane.pc.Idle? ==> m.cr == Some(lane.pc.cr) && lane.cursor + 1 == |lane.log|)
    && match lane.pc
       case Idle => s.objs == m.objs
       case AddFinalizer(cr) => s.objs == m.objs
       case ReadTarget(cr) => s.objs == m.objs
       case ApplyTarget(cr, _) => s.objs == m.objs
       case Extras(cr, merged, n) =>
         && n < |Owned(reg, k)|
         && Accepted(reg, k, cr, m.objs)
         && merged == Values(AppliedTarget(reg, k, cr, m.objs).entries)
         && s.objs == Worked(reg, k, JobOf(cr), m.objs, n + 1)
       case Deleting(cr, n) =>
         n <= |Owned(reg, k)| && s.objs == Worked(reg, k, Cleanup, m.objs, n)
  }

  function CallsLeft(reg: Registry, k: CrKey, pc: Pc): int {
    match pc
    case Idle => |Owned(reg, k)| + 3
    case AddFinalizer(_) => 1
    case ReadTarget(_) => |Owned(reg, k)| + 2
    case ApplyTarget(_, _) => |Owned(reg, k)| + 1
    case Extras(_, _, n) => |Owned(reg, k)| - n
    case Deleting(_, n) => |Owned(reg, k)| - n + 1
  }

  lemma WorkedStep(reg: Registry, k: CrKey, job: Job, objs: map<ObjKey, Obj>, n: nat)
    requires n < |Owned(reg, k)|
    ensures Worked(reg, k, job, objs, n + 1)
            == Store(Worked(reg, k, job, objs, n), Owned(reg, k)[n],
                     Work(reg, k, job, n, Lookup(Worked(reg, k, job, objs, n), Owned(reg, k)[n])))
  {
  }

  /** One call of the reconcile: it either ends it, in a round's result or cut short, or
      brings it one call further. */
  lemma MidwayStep(reg: Registry, k: CrKey, m: ClusterView, s: State, out: Outcome)
    requires Lawful(reg) && Midway(reg, k, m, s)
    ensures var t := Step(reg, s, Operator(k, Latest, out));
            && (LaneOf(t, k).pc.Idle? ==>
                  && LaneInv(k.kind, LaneOf(t, k))
                  && (ViewOf(t, k) == Round(reg, k, m) || CutShort(reg, k, m, ViewOf(t, k)))
                  && (out.Done? ==> ViewOf(t, k) == Round(reg, k, m)))
            && (!LaneOf(t, k).pc.Idle? ==>
                  && Midway(reg, k, m, t)
                  && CallsLeft(reg, k, LaneOf(t, k).pc) < CallsLeft(reg, k, LaneOf(s, k).pc))
  {
    var lane := LaneOf(s, k);
    var t := Step(reg, s, Operator(k, Latest, out));
    var f := Focus(reg, k, lane.pc);
    CallKeepsLane(reg, k, lane, Lookup(s.objs, f), Latest, out);
    FocusIsOwned(reg, k, lane.pc);
    match lane.pc {
      case Idle => StartStep(reg, k, m, s, out);
      case AddFinalizer(cr) => WriteStep(reg, k, m, s, out);
      case ReadTarget(cr) =>
        assert Store(s.objs, f, Lookup(s.objs, f)) == s.objs;
        if !out.Done? { assert CutShortAt(reg, k, m, ViewOf(t, k), 0); }
      case ApplyTarget(cr, _) => TargetStep(reg, k, m, s, out);
      case Extras(cr, _, n) =>
        if WritesCr(reg, k, lane.pc) { WriteStep(reg, k, m, s, out); } else { ExtraStep(reg, k, m, s, out); }
      case Deleting(cr, n) =>
        if WritesCr(reg, k, lane.pc) { WriteStep(reg, k, m, s, out); } else { DeleteStep(reg, k, m, s, out); }
    }
  }

  lemma StoreSame(objs: map<ObjKey, Obj>, o: ObjKey)
    ensures Store(objs, o, Lookup(objs, o)) == objs
  {
  }

  lemma StartStep(reg: Registry, k: CrKey, m: ClusterView, s: State, out: Outcome)
    requires Lawful(reg) && Midway(reg, k, m, s) && LaneOf(s, k).pc.Idle?
    ensures var t := Step(reg, s, Operator(k, Latest, out));
            && (LaneOf(t, k).pc.Idle? ==>
                  && ViewOf(t, k) == m && CutShort(reg, k, m, ViewOf(t, k))
                  && (out.Done? ==> ViewOf(t, k) == Round(reg, k, m)))
            && (!LaneOf(t, k).pc.Idle? ==>
                  && Midway(reg, k, m, t)
                  && CallsLeft(reg, k, LaneOf(t, k).pc) < CallsLeft(reg, k, LaneOf(s, k).pc))
  {
    var lane := LaneOf(s, k);
    var f := Focus(reg, k, lane.pc);
    var t := Step(reg, s, Operator(k, Latest, out));
    StoreSame(s.objs, f);
    ReadKeepsLane(k.kind, lane, Latest);
    assert At(lane.log, ReadIndex(lane, Latest)) == Last(lane.log);
    assert CutShortAt(reg, k, m, m, 0);
  }

  lemma WriteStep(reg: Registry, k: CrKey, m: ClusterView, s: State, out: Outcome)
    requires Lawful(reg) && Midway(reg, k, m, s) && WritesCr(reg, k, LaneOf(s, k).pc)
    ensures var t := Step(reg, s, Operator(k, Latest, out));
            && LaneOf(t, k).pc.Idle?
            && (ViewOf(t, k) == Round(reg, k, m) || CutShort(reg, k, m, ViewOf(t, k)))
            && (out.Done? ==> ViewOf(t, k) == Round(reg, k, m))
  {
    var lane := LaneOf(s, k);
    var f := Focus(reg, k, lane.pc);
    var t := Step(reg, s, Operator(k, Latest, out));
    WritingCall(reg, k, lane, Lookup(s.objs, f), Latest, out);
    FocusIsOwned(reg, k, lane.pc);
    StoreSame(s.objs, f);
    assert t.objs == s.objs;
    assert lane.log[lane.cursor] == m.cr;
    if out.Failed? {
      match lane.pc {
        case AddFinalizer(_) => assert CutShortAt(reg, k, m, ViewOf(t, k), 0);
        case Extras(_, _, n) => assert CutShortAt(reg, k, m, ViewOf(t, k), n + 1);
        case Deleting(_, n) => assert CutShortAt(reg, k, m, ViewOf(t, k), n);
      }
    } else {
      assert Current(t, k) == Submitted(reg, k, lane.pc);
    }
  }

  lemma TargetStep(reg: Registry, k: CrKey, m: ClusterView, s: State, out: Outcome)
    requires Lawful(reg) && Midway(reg, k, m, s) && LaneOf(s, k).pc.ApplyTarget?
    ensures var t := Step(reg, s, Operator(k, Latest, out));
            && (LaneOf(t, k).pc.Idle? ==>
                  && CutShort(reg, k, m, ViewOf(t, k))
                  && (out.Done? ==> ViewOf(t, k) == Round(reg, k, m)))
            && (!LaneOf(t, k).pc.Idle? ==>
                  && Midway(reg, k, m, t)
                  && CallsLeft(reg, k, LaneOf(t, k).pc) < CallsLeft(reg, k, LaneOf(s, k).pc))
  {
    var lane := LaneOf(s, k);
    var cr := lane.pc.cr;
    var f := Focus(reg, k, lane.pc);
    var t := Step(reg, s, Operator(k, Latest, out));
    QuietCall(reg, k, lane, Lookup(s.objs, f), Latest, out);
    StoreSame(s.objs, f);
    WorkedStep(reg, k, JobOf(cr), m.objs, 0);
    assert Owned(reg, k)[0] == f;
    if LaneOf(t, k).pc.Idle? {
      assert CutShortAt(reg, k, m, ViewOf(t, k), if out.Failed? || !Accepted(reg, k, cr, m.objs) then 0 else 1);
    } else {
      CallKeepsLane(reg, k, lane, Lookup(s.objs, f), Latest, out);
    }
  }

  lemma ExtraStep(reg: Registry, k: CrKey, m: ClusterView, s: State, out: Outcome)
    requires Lawful(reg) && Midway(reg, k, m, s) && LaneOf(s, k).pc.Extras? && !WritesCr(reg, k, LaneOf(s, k).pc)
    ensures var t := Step(reg, s, Operator(k, Latest, out));
            && (LaneOf(t, k).pc.Idle? ==> CutShort(reg, k, m, ViewOf(t, k)) && !out.Done?)
            && (!LaneOf(t, k).pc.Idle? ==>
                  && Midway(reg, k, m, t)
                  && CallsLeft(reg, k, LaneOf(t, k).pc) < CallsLeft(reg, k, LaneOf(s, k).pc))
  {
    var lane := LaneOf(s, k);
    var cr := lane.pc.cr;
    var n := lane.pc.next;
    var f := Focus(reg, k, lane.pc);
    var t := Step(reg, s, Operator(k, Latest, out));
    QuietCall(reg, k, lane, Lookup(s.objs, f), Latest, out);
    CallKeepsLane(reg, k, lane, Lookup(s.objs, f), Latest, out);
    StoreSame(s.objs, f);
    FocusIsOwned(reg, k, lane.pc);
    WorkedStep(reg, k, JobOf(cr), m.objs, n + 1);
    if LaneOf(t, k).pc.Idle? {
      assert CutShortAt(reg, k, m, ViewOf(t, k), if out.Failed? then n + 1 else n + 2);
    }
  }

  lemma DeleteStep(reg: Registry, k: CrKey, m: ClusterView, s: State, out: Outcome)
    requires Lawful(reg) && Midway(reg, k, m, s) && LaneOf(s, k).pc.Deleting? && !WritesCr(reg, k, LaneOf(s, k).pc)
    ensures var t := Step(reg, s, Operator(k, Latest, out));
            && (LaneOf(t, k).pc.Idle? ==> CutShort(reg, k, m, ViewOf(t, k)) && !out.Done?)
            && (!LaneOf(t, k).pc.Idle? ==>
                  && Midway(reg, k, m, t)
                  && CallsLeft(reg, k, LaneOf(t, k).pc) < CallsLeft(reg, k, LaneOf(s, k).pc))
  {
    var lane := LaneOf(s, k);
    var n := lane.pc.next;
    var f := Focus(reg, k, lane.pc);
    var t := Step(reg, s, Operator(k, Latest, out));
    QuietCall(reg, k, lane, Lookup(s.objs, f), Latest, out);
    CallKeepsLane(reg, k, lane, Lookup(s.objs, f), Latest, out);
    StoreSame(s.objs, f);
    FocusIsOwned(reg, k, lane.pc);
    WorkedStep(reg, k, Cleanup, m.objs, n);
    if LaneOf(t, k).pc.Idle? {
      assert CutShortAt(reg, k, m, ViewOf(t, k), if out.Failed? then n else n + 1);
    }
  }

  lemma CrashMidway(reg: Registry, k: CrKey, m: ClusterView, s: State)
    requires Lawful(reg) && Midway(reg, k, m, s)
    ensures CutShort(reg, k, m, ViewOf(Step(reg, s, Crash(k)), k))
  {
    var lane := LaneOf(s, k);
    FocusIsOwned(reg, k, lane.pc);
    var t := ViewOf(Step(reg, s, Crash(k)), k);
    assert t.cr == m.cr && t.objs == s.objs;
    match lane.pc {
      case Extras(_, _, n) => assert CutShortAt(reg, k, m, t, n + 1);
      case Deleting(_, n) => assert CutShortAt(reg, k, m, t, n);
      case _ => assert CutShortAt(reg, k, m, t, 0);
    }
  }

  lemma {:induction false} MidwayDrive(reg: Registry, k: CrKey, m: ClusterView, s: State, plan: seq<Outcome>)
    requires Lawful(reg) && Midway(reg, k, m, s)
    ensures var t := Drive(reg, s, k, Calls(k, plan));
            && LaneOf(t, k).pc.Idle? && LaneInv(k.kind, LaneOf(t, k))
            && (ViewOf(t, k) == Round(reg, k, m) || CutShort(reg, k, m, ViewOf(t, k)))
            && ((forall i :: 0 <= i < |plan| ==> plan[i].Done?) && |plan| >= CallsLeft(reg, k, LaneOf(s, k).pc) ==>
                  ViewOf(t, k) == Round(reg, k, m))
    decreases |plan|
  {
    if plan == [] {
      CrashMidway(reg, k, m, s);
      assert CallsLeft(reg, k, LaneOf(s, k).pc) > 0;
    } else {
      var t := Step(reg, s, Operator(k, Latest, plan[0]));
      MidwayStep(reg, k, m, s, plan[0]);
      assert Calls(k, plan)[0] == Operator(k, Latest, plan[0]);
      assert Calls(k, plan)[1..] == Calls(k, plan[1..]);
      if !LaneOf(t, k).pc.Idle? {
        MidwayDrive(reg, k, m, t, plan[1..]);
      }
    }
  }

  /** A reconcile, however it goes, leaves the result of a round or of a round cut short; a
      fault-free one leaves exactly the round's result. */
  lemma AttemptIsRound(reg: Registry, k: CrKey, s: State, plan: seq<Outcome>)
    requires Lawful(reg) && LaneInv(k.kind, LaneOf(s, k)) && LaneOf(s, k).pc.Idle?
    ensures var m := ViewOf(s, k); var t := ViewOf(Attempt(reg, s, k, plan), k);
            && (t == Round(reg, k, m) || CutShort(reg, k, m, t))
            && (FaultFree(reg, k, plan) ==> t == Round(reg, k, m))
    ensures LaneOf(Attempt(reg, s, k, plan), k).pc.Idle? && LaneInv(k.kind, LaneOf(Attempt(reg, s, k, plan), k))
  {
    MidwayDrive(reg, k, ViewOf(s, k), s, plan);
  }

  /** What an uninterrupted reconcile of that managed state returns. */
  function Answer(reg: Registry, k: CrKey, m: ClusterView): Result {
    match Dispatch(m.cr)
    case AddFinalizer(_) => Requeue
    case ReadTarget(cr) =>
      if Accepted(reg, k, cr, m.objs)
      then RequeueAfter(Interval(reg(k.kind).extract(Values(AppliedTarget(reg, k, cr, m.objs).entries)).ready))
      else Error
    case _ => Nothing
  }

  lemma LastCallAnswers(reg: Registry, k: CrKey, m: ClusterView, s: State)
    requires Lawful(reg) && Midway(reg, k, m, s)
    requires LaneOf(Step(reg, s, Operator(k, Latest, Done)), k).pc.Idle?
    ensures Returns(reg, k, LaneOf(s, k), Done) == Answer(reg, k, m)
  {
    var lane := LaneOf(s, k);
    FocusIsOwned(reg, k, lane.pc);
    if lane.pc.Idle? { assert At(lane.log, ReadIndex(lane, Latest)) == Last(lane.log); }
    if !lane.pc.Idle? { assert lane.log[lane.cursor] == Some(lane.pc.cr); }
  }

  lemma {:induction false} MidwayAnswers(reg: Registry, k: CrKey, m: ClusterView, s: State, plan: seq<Outcome>)
    requires Lawful(reg) && Midway(reg, k, m, s)
    requires (forall i :: 0 <= i < |plan| ==> plan[i].Done?) && |plan| >= CallsLeft(reg, k, LaneOf(s, k).pc)
    ensures DriveResult(reg, s, k, Calls(k, plan)) == Answer(reg, k, m)
    decreases |plan|
  {
    assert CallsLeft(reg, k, LaneOf(s, k).pc) > 0;
    var t := Step(reg, s, Operator(k, Latest, Done));
    MidwayStep(reg, k, m, s, Done);
    assert Calls(k, plan)[0] == Operator(k, Latest, Done);
    assert Calls(k, plan)[1..] == Calls(k, plan[1..]);
    if LaneOf(t, k).pc.Idle? {
      LastCallAnswers(reg, k, m, s);
    } else {
      MidwayAnswers(reg, k, m, t, plan[1..]);
    }
  }

  /** A fault-free reconcile returns what the managed state it found calls for. */
  lemma AttemptAnswers(reg: Registry, k: CrKey, s: State, plan: seq<Outcome>)
    requires Lawful(reg) && LaneInv(k.kind, LaneOf(s, k)) && LaneOf(s, k).pc.Idle? && FaultFree(reg, k, plan)
    ensures DriveResult(reg, s, k, Calls(k, plan)) == Answer(reg, k, ViewOf(s, k))
  {
    MidwayAnswers(reg, k, ViewOf(s, k), s, plan);
  }
}

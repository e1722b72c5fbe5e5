/**
  What every reachable state satisfies, over every interleaving of API calls, user edits,
  vendor writes, stale reads, lost replies and crashes: no orphans, and deletion is one-way.
 */
module Safety {
  import opened Types
  import opened StatusMirror
  import opened Adapters
  import opened Protocol

  /** The custom resource exists now, as that incarnation, and carries our finalizer. */
  predicate Protected(log: Log, uid: nat) {
    && Last(log).Some?
    && Last(log).value.uid == uid
    && FINALIZER in Last(log).value.finalizers
  }

  predicate LiveWithFinalizer(cr: Cr) {
    !cr.deleting && FINALIZER in cr.finalizers
  }

  ghost predicate EntriesOk(kind: Kind, log: Log) {
    forall i :: 0 <= i < |log| && log[i].Some? ==>
      log[i].value.uid <= i && Fits(kind, log[i].value.spec) && Consistent(log[i].value.status)
  }

  /** Within one incarnation a deletionTimestamp is never taken back. */
  ghost predicate OneWay(log: Log) {
    forall i, j ::
      (0 <= i < j < |log| && log[i].Some? && log[j].Some? && log[i].value.uid == log[j].value.uid
       && log[i].value.deleting)
      ==> log[j].value.deleting
  }

  /** Any version still readable that is live with our finalizer belongs to an incarnation
      that is protected now. */
  ghost predicate ReadsAreProtected(log: Log, cursor: nat) {
    forall i :: cursor <= i < |log| && log[i].Some? && LiveWithFinalizer(log[i].value) ==>
      Protected(log, log[i].value.uid)
  }

  predicate PcOk(lane: Lane) {
    match lane.pc
    case Idle => true
    case AddFinalizer(cr) => At(lane.log, lane.cursor) == Some(cr) && !cr.deleting && FINALIZER !in cr.finalizers
    case ReadTarget(cr) => At(lane.log, lane.cursor) == Some(cr) && LiveWithFinalizer(cr)
    case ApplyTarget(cr, _) => At(lane.log, lane.cursor) == Some(cr) && LiveWithFinalizer(cr)
    case Extras(cr, _, _) => At(lane.log, lane.cursor) == Some(cr) && LiveWithFinalizer(cr)
    case Deleting(cr, _) => At(lane.log, lane.cursor) == Some(cr) && cr.deleting && FINALIZER in cr.finalizers
  }

  ghost predicate LaneInv(kind: Kind, lane: Lane) {
    && (if lane.log == [] then lane.cursor == 0 && lane.pc.Idle? else lane.cursor < |lane.log|)
    && EntriesOk(kind, lane.log)
    && OneWay(lane.log)
    && ReadsAreProtected(lane.log, lane.cursor)
    && PcOk(lane)
  }

  /** Absent, terminating, or never applied for this resource since it was created. */
  predicate Released(x: Option<Obj>, k: CrKey) {
    x.None? || x.value.terminating || forall a :: a in x.value.appliers ==> a.key != k
  }

  ghost predicate ObjOk(reg: Registry, s: State, o: ObjKey) {
    o in s.objs ==> forall a :: a in s.objs[o].appliers ==>
      && o in Owned(reg, a.key)
      && (!s.objs[o].terminating ==> Protected(LaneOf(s, a.key).log, a.uid))
  }

  /** The deletion path has already dealt with the first `n` owned objects. */
  ghost predicate CleanedUp(reg: Registry, s: State, k: CrKey) {
    LaneOf(s, k).pc.Deleting? ==>
      forall i :: 0 <= i < |Owned(reg, k)| && i < LaneOf(s, k).pc.next ==> Released(Lookup(s.objs, Owned(reg, k)[i]), k)
  }

  ghost predicate Inv(reg: Registry, s: State) {
    && (forall k: CrKey :: LaneInv(k.kind, LaneOf(s, k)))
    && (forall o: ObjKey :: ObjOk(reg, s, o))
    && (forall k: CrKey :: CleanedUp(reg, s, k))
  }

  // ---------------------------------------------------------------- one lane

  /** Appending a version derived from the newest one, or a fresh incarnation. */
  ghost predicate GoodNext(kind: Kind, log: Log, next: Option<Cr>) {
    next.Some? ==>
      && next.value.uid <= |log|
      && Fits(kind, next.value.spec)
      && Consistent(next.value.status)
      && (if Last(log).Some?
          then next.value.uid == Last(log).value.uid && (Last(log).value.deleting ==> next.value.deleting)
          else next.value.uid == |log|)
  }

  lemma CommitKeepsLog(kind: Kind, log: Log, next: Option<Cr>)
    requires EntriesOk(kind, log) && OneWay(log) && GoodNext(kind, log, next)
    ensures EntriesOk(kind, Commit(log, next)) && OneWay(Commit(log, next))
  {
    var newLog := Commit(log, next);
    var n := |log|;
    forall i, j | 0 <= i < j < |newLog| && newLog[i].Some? && newLog[j].Some?
                  && newLog[i].value.uid == newLog[j].value.uid && newLog[i].value.deleting
      ensures newLog[j].value.deleting
    {
      if j == n && Last(log).Some? && i < n - 1 {
        assert log[n - 1].value.deleting;
      }
    }
  }

  lemma CommitKeepsReads(log: Log, cursor: nat, next: Option<Cr>)
    requires ReadsAreProtected(log, cursor)
    requires forall uid :: Protected(log, uid) ==> Protected(Commit(log, next), uid)
    requires next.Some? && LiveWithFinalizer(next.value) ==> Protected(Commit(log, next), next.value.uid)
    ensures ReadsAreProtected(Commit(log, next), cursor)
  {
  }

  lemma UserNextOk(kind: Kind, log: Log, op: UserOp)
    requires EntriesOk(kind, log)
    ensures GoodNext(kind, log, UserNext(kind, log, op))
    ensures forall uid :: Protected(log, uid) ==> Protected(UserWrite(kind, log, op), uid)
  {
    if Last(log).Some? {
      var cr := Last(log).value;
      if op.SetOtherCondition? && op.condition.ctype != READY {
        ForeignConditionKeeps(cr.status, op.condition);
      }
    } else if op.Create? && Fits(kind, op.spec) {
      assert Consistent(NO_STATUS);
    }
  }

  lemma UserKeepsLane(kind: Kind, lane: Lane, op: UserOp)
    requires LaneInv(kind, lane)
    ensures LaneInv(kind, lane.(log := UserWrite(kind, lane.log, op)))
    ensures forall uid :: Protected(lane.log, uid) ==> Protected(UserWrite(kind, lane.log, op), uid)
  {
    UserNextOk(kind, lane.log, op);
    var next := UserNext(kind, lane.log, op);
    CommitKeepsLog(kind, lane.log, next);
    CommitKeepsReads(lane.log, lane.cursor, next);
  }

  lemma ReadKeepsLane(kind: Kind, lane: Lane, read: Read)
    requires LaneInv(kind, lane) && lane.pc.Idle?
    ensures var i := ReadIndex(lane, read);
            && lane.cursor <= i
            && LaneInv(kind, lane.(cursor := i, pc := Dispatch(At(lane.log, i))))
  {
  }

  /** The calls that write the custom resource itself. */
  predicate WritesCr(reg: Registry, k: CrKey, pc: Pc) {
    || pc.AddFinalizer?
    || (pc.Extras? && pc.next >= |ExtrasOf(reg, k, pc.cr.spec)|)
    || (pc.Deleting? && pc.next > |ExtrasOf(reg, k, pc.cr.spec)|)
  }

  /** The version such a call submits. */
  function Submitted(reg: Registry, k: CrKey, pc: Pc): Option<Cr>
    requires WritesCr(reg, k, pc)
  {
    match pc
    case AddFinalizer(cr) => Settle(FinalizerAdded(reg(k.kind), cr))
    case Extras(cr, merged, _) => Some(StatusMirrored(reg(k.kind), cr, merged))
    case Deleting(cr, _) => Settle(FinalizerDropped(reg(k.kind), cr))
  }

  lemma WritingCall(reg: Registry, k: CrKey, lane: Lane, cur: Option<Obj>, read: Read, out: Outcome)
    requires WritesCr(reg, k, lane.pc)
    ensures Call(reg, k, lane, cur, read, out) == (Stop(WriteCr(lane, out, Submitted(reg, k, lane.pc))), cur)
  {
  }

  /** Every other call leaves the log alone and keeps the version in hand. */
  lemma QuietCall(reg: Registry, k: CrKey, lane: Lane, cur: Option<Obj>, read: Read, out: Outcome)
    requires !lane.pc.Idle? && !WritesCr(reg, k, lane.pc)
    ensures var r := Call(reg, k, lane, cur, read, out).0;
            && r.log == lane.log && r.cursor == lane.cursor
            && (PcOk(lane) ==> PcOk(r))
            && (!r.pc.Idle? ==> r.pc.cr == lane.pc.cr && (r.pc.Deleting? <==> lane.pc.Deleting?))
  {
  }

  lemma SubmittedOk(reg: Registry, k: CrKey, lane: Lane)
    requires Lawful(reg) && LaneInv(k.kind, lane) && WritesCr(reg, k, lane.pc)
    ensures var cr := lane.pc.cr; var next := Submitted(reg, k, lane.pc);
            && (next.Some? ==>
                  && next.value.uid == cr.uid && Fits(k.kind, next.value.spec) && next.value.deleting == cr.deleting
                  && Consistent(next.value.status))
            && (FINALIZER in cr.finalizers ==> cr.deleting || (next.Some? && FINALIZER in next.value.finalizers))
            && (lane.pc.Deleting? <==> cr.deleting)
  {
    var cr := lane.pc.cr;
    assert lane.log[lane.cursor] == Some(cr);
    if lane.pc.Extras? {
      var ts := reg(k.kind).extract(lane.pc.merged);
      MirrorLaws(cr.status, ts, reg(k.kind).reasons, reg(k.kind).counts(ts), cr.generation);
    }
  }

  /** The reconciler's own calls keep the lane's laws, and only dropping the finalizer can
      end the protection of an incarnation. */
  lemma CallKeepsLane(reg: Registry, k: CrKey, lane: Lane, cur: Option<Obj>, read: Read, out: Outcome)
    requires Lawful(reg) && LaneInv(k.kind, lane)
    ensures LaneInv(k.kind, Call(reg, k, lane, cur, read, out).0)
    ensures forall uid :: Protected(lane.log, uid) ==>
              || Protected(Call(reg, k, lane, cur, read, out).0.log, uid)
              || (lane.pc.Deleting? && WritesCr(reg, k, lane.pc))
  {
    if lane.pc.Idle? {
      ReadKeepsLane(k.kind, lane, read);
    } else if WritesCr(reg, k, lane.pc) {
      WritingCall(reg, k, lane, cur, read, out);
      SubmittedOk(reg, k, lane);
      WriteKeepsLane(k.kind, lane, out, lane.pc.cr, Submitted(reg, k, lane.pc));
    } else {
      QuietCall(reg, k, lane, cur, read, out);
    }
  }

  lemma WriteKeepsLane(kind: Kind, lane: Lane, out: Outcome, cr: Cr, next: Option<Cr>)
    requires LaneInv(kind, lane) && At(lane.log, lane.cursor) == Some(cr)
    requires next.Some? ==>
      && next.value.uid == cr.uid && Fits(kind, next.value.spec) && next.value.deleting == cr.deleting
      && Consistent(next.value.status)
    requires FINALIZER in cr.finalizers ==> cr.deleting || (next.Some? && FINALIZER in next.value.finalizers)
    ensures LaneInv(kind, Stop(WriteCr(lane, out, next)))
    ensures forall uid :: Protected(lane.log, uid) ==>
              || Protected(WriteCr(lane, out, next).log, uid)
              || (cr.deleting && !(next.Some? && FINALIZER in next.value.finalizers))
  {
    if !out.Failed? && lane.cursor + 1 == |lane.log| {
      assert Last(lane.log) == Some(cr);
      assert cr.uid <= lane.cursor;
      CommitKeepsLog(kind, lane.log, next);
      var log := Commit(lane.log, next);
      forall i | lane.cursor <= i < |log| && log[i].Some? && LiveWithFinalizer(log[i].value)
        ensures Protected(log, log[i].value.uid)
      {
        if i == lane.cursor { assert log[i] == Some(cr); }
      }
    }
  }

  // ---------------------------------------------------------------- the whole state

  /** The next call touches an object the resource owns: the target, or the extra that the
      program counter stands at. */
  lemma FocusIsOwned(reg: Registry, k: CrKey, pc: Pc)
    requires Lawful(reg)
    requires !pc.Idle? ==> Fits(k.kind, pc.cr.spec)
    ensures Focus(reg, k, pc) in Owned(reg, k)
    ensures !pc.Idle? ==> |ExtrasOf(reg, k, pc.cr.spec)| + 1 == |Owned(reg, k)|
    ensures pc.Deleting? && pc.next < |Owned(reg, k)| ==> Focus(reg, k, pc) == Owned(reg, k)[pc.next]
    ensures pc.Extras? && pc.next + 1 < |Owned(reg, k)| ==> Focus(reg, k, pc) == Owned(reg, k)[pc.next + 1]
  {
    assert Owned(reg, k)[0] == TargetKey(reg, k);
    if !pc.Idle? {
      assert ListsEverySlot(reg, k, pc.cr.spec);
    }
    if pc.Extras? && pc.next < |ExtrasOf(reg, k, pc.cr.spec)| {
      assert Owned(reg, k)[pc.next + 1] == Focus(reg, k, pc);
    }
    if pc.Deleting? && 0 < pc.next <= |ExtrasOf(reg, k, pc.cr.spec)| {
      assert Owned(reg, k)[pc.next] == Focus(reg, k, pc);
    }
  }

  /** `x` is what applying the object for `a` made of it, as far as appliers go. */
  predicate AppliedFor(cur: Option<Obj>, x: Obj, a: Applier) {
    if cur.Some? then x.appliers == cur.value.appliers + {a} && x.terminating == cur.value.terminating
    else x.appliers == {a}
  }

  /** What a call does to the object in focus: leave it, delete it on the operator's behalf,
      or apply it for an incarnation that was read live and with the finalizer. */
  lemma CallOnObject(reg: Registry, k: CrKey, lane: Lane, cur: Option<Obj>, read: Read, out: Outcome)
    ensures var x := Call(reg, k, lane, cur, read, out).1;
            || x == cur
            || x == DeleteObj(cur)
            || ((lane.pc.ApplyTarget? || lane.pc.Extras?) && x.Some?
                && AppliedFor(cur, x.value, Applier(k, lane.pc.cr.uid)))
  {
  }

  lemma UserStep(reg: Registry, s: State, k: CrKey, op: UserOp)
    requires Inv(reg, s)
    ensures Inv(reg, Step(reg, s, User(k, op)))
  {
    var t := Step(reg, s, User(k, op));
    forall k': CrKey ensures LaneInv(k'.kind, LaneOf(t, k')) {
      assert LaneInv(k'.kind, LaneOf(s, k'));
      if k' == k { UserKeepsLane(k.kind, LaneOf(s, k), op); }
    }
    forall o ensures ObjOk(reg, t, o) {
      assert ObjOk(reg, s, o) && LaneInv(k.kind, LaneOf(s, k));
      UserKeepsLane(k.kind, LaneOf(s, k), op);
    }
    forall k': CrKey ensures CleanedUp(reg, t, k') {
      assert CleanedUp(reg, s, k');
    }
  }

  lemma VendorStep(reg: Registry, s: State, o: ObjKey, op: VendorOp)
    requires Inv(reg, s)
    ensures Inv(reg, Step(reg, s, Vendor(o, op)))
  {
    var t := Step(reg, s, Vendor(o, op));
    forall k: CrKey ensures LaneInv(k.kind, LaneOf(t, k)) {
      assert LaneInv(k.kind, LaneOf(s, k));
    }
    forall o' ensures ObjOk(reg, t, o') {
      assert ObjOk(reg, s, o');
      forall k: CrKey ensures LaneOf(t, k) == LaneOf(s, k) {}
    }
    forall k: CrKey ensures CleanedUp(reg, t, k) {
      assert CleanedUp(reg, s, k);
    }
  }

  lemma CrashStep(reg: Registry, s: State, k: CrKey)
    requires Inv(reg, s)
    ensures Inv(reg, Step(reg, s, Crash(k)))
  {
    var t := Step(reg, s, Crash(k));
    forall k': CrKey ensures LaneInv(k'.kind, LaneOf(t, k')) && CleanedUp(reg, t, k') {
      assert LaneInv(k'.kind, LaneOf(s, k')) && CleanedUp(reg, s, k');
    }
    forall o ensures ObjOk(reg, t, o) {
      assert ObjOk(reg, s, o);
    }
  }

  /** Once the deletion path stands past the last owned object, nothing applied for this
      resource is left un-terminated. */
  lemma AllReleased(reg: Registry, s: State, k: CrKey, o: ObjKey)
    requires Lawful(reg) && Inv(reg, s)
    requires LaneOf(s, k).pc.Deleting? && LaneOf(s, k).pc.next > |ExtrasOf(reg, k, LaneOf(s, k).pc.cr.spec)|
    ensures Released(Lookup(s.objs, o), k)
  {
    assert LaneInv(k.kind, LaneOf(s, k)) && CleanedUp(reg, s, k) && ObjOk(reg, s, o);
    FocusIsOwned(reg, k, LaneOf(s, k).pc);
    if o in Owned(reg, k) {
      var i :| 0 <= i < |Owned(reg, k)| && Owned(reg, k)[i] == o;
      assert Released(Lookup(s.objs, Owned(reg, k)[i]), k);
    }
  }

  lemma OperatorStep(reg: Registry, s: State, k: CrKey, read: Read, out: Outcome)
    requires Lawful(reg) && Inv(reg, s)
    ensures Inv(reg, Step(reg, s, Operator(k, read, out)))
  {
    var lane := LaneOf(s, k);
    var f := Focus(reg, k, lane.pc);
    var cur := Lookup(s.objs, f);
    var t := Step(reg, s, Operator(k, read, out));
    assert LaneInv(k.kind, lane);
    CallKeepsLane(reg, k, lane, cur, read, out);
    CallOnObject(reg, k, lane, cur, read, out);
    FocusIsOwned(reg, k, lane.pc);
    forall k': CrKey ensures LaneInv(k'.kind, LaneOf(t, k')) {
      assert LaneInv(k'.kind, LaneOf(s, k'));
    }
    forall o ensures ObjOk(reg, t, o) {
      OperatorKeepsObj(reg, s, k, read, out, o);
    }
    forall k': CrKey ensures CleanedUp(reg, t, k') {
      OperatorKeepsCleanup(reg, s, k, read, out, k');
    }
  }

  /** An object stays in order when it gains no applier, at most starts terminating, and its
      appliers' protection lasts. */
  lemma ObjKept(reg: Registry, s: State, t: State, o: ObjKey)
    requires ObjOk(reg, s, o)
    requires o in t.objs && t.objs[o].appliers != {} ==>
               && o in s.objs && t.objs[o].appliers <= s.objs[o].appliers
               && (s.objs[o].terminating ==> t.objs[o].terminating)
    requires o in t.objs && !t.objs[o].terminating ==>
               forall a :: a in t.objs[o].appliers && Protected(LaneOf(s, a.key).log, a.uid) ==>
                 Protected(LaneOf(t, a.key).log, a.uid)
    ensures ObjOk(reg, t, o)
  {
  }

  /** After a call for `k`: objects elsewhere are kept, and the one in focus was left,
      deleted, or applied for an incarnation that is protected. */
  lemma ObjAfterCall(reg: Registry, s: State, t: State, k: CrKey, uid: nat, f: ObjKey, x: Option<Obj>, o: ObjKey)
    requires ObjOk(reg, s, o) && t.objs == Store(s.objs, f, x)
    requires forall k' :: k' != k ==> LaneOf(t, k') == LaneOf(s, k')
    requires forall u :: Protected(LaneOf(s, k).log, u) ==> Protected(LaneOf(t, k).log, u)
    requires || x == Lookup(s.objs, f)
             || x == DeleteObj(Lookup(s.objs, f))
             || (x.Some? && AppliedFor(Lookup(s.objs, f), x.value, Applier(k, uid)) && f in Owned(reg, k)
                 && Protected(LaneOf(t, k).log, uid))
    ensures ObjOk(reg, t, o)
  {
    if o != f || x == Lookup(s.objs, f) || x == DeleteObj(Lookup(s.objs, f)) {
      ObjKept(reg, s, t, o);
    }
  }

  lemma OperatorKeepsObj(reg: Registry, s: State, k: CrKey, read: Read, out: Outcome, o: ObjKey)
    requires Lawful(reg) && Inv(reg, s)
    ensures ObjOk(reg, Step(reg, s, Operator(k, read, out)), o)
  {
    var lane := LaneOf(s, k);
    var f := Focus(reg, k, lane.pc);
    var cur := Lookup(s.objs, f);
    var r := Call(reg, k, lane, cur, read, out);
    var t := Step(reg, s, Operator(k, read, out));
    assert LaneInv(k.kind, lane) && ObjOk(reg, s, o);
    CallKeepsLane(reg, k, lane, cur, read, out);
    if lane.pc.Deleting? && WritesCr(reg, k, lane.pc) {
      AllReleased(reg, s, k, o);
      WritingCall(reg, k, lane, cur, read, out);
      ObjKept(reg, s, t, o);
    } else if lane.pc.Idle? {
      ObjAfterCall(reg, s, t, k, 0, f, r.1, o);
    } else {
      CallOnObject(reg, k, lane, cur, read, out);
      FocusIsOwned(reg, k, lane.pc);
      assert lane.log[lane.cursor] == Some(lane.pc.cr);
      ObjAfterCall(reg, s, t, k, lane.pc.cr.uid, f, r.1, o);
    }
  }

  /** How a call can leave the deletion path's counter where it still runs. */
  lemma DeletingCall(reg: Registry, k: CrKey, lane: Lane, cur: Option<Obj>, read: Read, out: Outcome)
    requires !lane.pc.Idle?
    ensures var r := Call(reg, k, lane, cur, read, out);
            r.0.pc.Deleting? ==>
              && lane.pc.Deleting? && !WritesCr(reg, k, lane.pc)
              && r.0.pc.next == lane.pc.next + 1 && r.1 == DeleteObj(cur)
  {
  }

  /** Touching one object for another resource keeps a clean-up in progress. */
  lemma CleanupKept(reg: Registry, s: State, t: State, k: CrKey, f: ObjKey, x: Option<Obj>)
    requires CleanedUp(reg, s, k) && LaneOf(t, k) == LaneOf(s, k) && t.objs == Store(s.objs, f, x)
    requires Released(Lookup(s.objs, f), k) ==> Released(x, k)
    ensures CleanedUp(reg, t, k)
  {
  }

  lemma CleanupAdvances(reg: Registry, s: State, t: State, k: CrKey)
    requires CleanedUp(reg, s, k) && LaneOf(s, k).pc.Deleting? && LaneOf(t, k).pc.Deleting?
    requires LaneOf(t, k).pc.next == LaneOf(s, k).pc.next + 1
    requires var n := LaneOf(s, k).pc.next;
             && n < |Owned(reg, k)|
             && t.objs == Store(s.objs, Owned(reg, k)[n], DeleteObj(Lookup(s.objs, Owned(reg, k)[n])))
    ensures CleanedUp(reg, t, k)
  {
    forall i | 0 <= i < |Owned(reg, k)| && i < LaneOf(t, k).pc.next
      ensures Released(Lookup(t.objs, Owned(reg, k)[i]), k) {
      assert i < LaneOf(s, k).pc.next ==> Released(Lookup(s.objs, Owned(reg, k)[i]), k);
    }
  }

  lemma OperatorKeepsCleanup(reg: Registry, s: State, k: CrKey, read: Read, out: Outcome, k': CrKey)
    requires Lawful(reg) && Inv(reg, s)
    ensures CleanedUp(reg, Step(reg, s, Operator(k, read, out)), k')
  {
    var lane := LaneOf(s, k);
    var f := Focus(reg, k, lane.pc);
    var cur := Lookup(s.objs, f);
    var r := Call(reg, k, lane, cur, read, out);
    var t := Step(reg, s, Operator(k, read, out));
    assert LaneInv(k.kind, lane) && CleanedUp(reg, s, k');
    if k' != k {
      CallOnObject(reg, k, lane, cur, read, out);
      CleanupKept(reg, s, t, k', f, r.1);
    } else if !lane.pc.Idle? && r.0.pc.Deleting? {
      DeletingCall(reg, k, lane, cur, read, out);
      FocusIsOwned(reg, k, lane.pc);
      CleanupAdvances(reg, s, t, k);
    }
  }

  lemma StepKeepsInv(reg: Registry, s: State, l: Label)
    requires Lawful(reg) && Inv(reg, s)
    ensures Inv(reg, Step(reg, s, l))
  {
    match l {
      case User(k, op) => UserStep(reg, s, k, op);
      case Vendor(o, op) => VendorStep(reg, s, o, op);
      case Operator(k, read, out) => OperatorStep(reg, s, k, read, out);
      case Crash(k) => CrashStep(reg, s, k);
    }
  }

  lemma {:induction false} RunKeepsInv(reg: Registry, s: State, ls: seq<Label>)
    requires Lawful(reg) && Inv(reg, s)
    ensures Inv(reg, Run(reg, s, ls))
    decreases |ls|
  {
    if ls != [] {
      StepKeepsInv(reg, s, ls[0]);
      RunKeepsInv(reg, Step(reg, s, ls[0]), ls[1..]);
    }
  }

  lemma InitInv(reg: Registry)
    ensures Inv(reg, INIT)
  {
  }

  /** The only ways a step can change the log of a resource: its user's request, or a call of
      its reconciler that submits a version based on the newest one. */
  lemma LogAfter(reg: Registry, s: State, l: Label, k: CrKey)
    requires LaneInv(k.kind, LaneOf(s, k))
    ensures var lane := LaneOf(s, k); var later := LaneOf(Step(reg, s, l), k).log;
            || later == lane.log
            || (l.User? && l.k == k && later == UserWrite(k.kind, lane.log, l.uop))
            || (l.Operator? && l.k == k && !lane.pc.Idle? && WritesCr(reg, k, lane.pc)
                && Last(lane.log) == Some(lane.pc.cr)
                && later == Commit(lane.log, Submitted(reg, k, lane.pc)))
  {
    var lane := LaneOf(s, k);
    if l.Operator? && l.k == k && !lane.pc.Idle? {
      var cur := Lookup(s.objs, Focus(reg, k, lane.pc));
      assert lane.log[lane.cursor] == Some(lane.pc.cr);
      if WritesCr(reg, k, lane.pc) {
        WritingCall(reg, k, lane, cur, l.read, l.out);
      } else {
        QuietCall(reg, k, lane, cur, l.read, l.out);
      }
    }
  }

  // ---------------------------------------------------------------- main results

  /** No orphans: after any run, every custom resource that an object was applied for since it
      was created still exists, as the same incarnation and with our finalizer on it, unless
      the object is terminating. */
  lemma NoOrphans(reg: Registry, ls: seq<Label>, o: ObjKey)
    requires Lawful(reg)
    ensures var s := Run(reg, INIT, ls);
            o in s.objs && !s.objs[o].terminating ==> forall a :: a in s.objs[o].appliers ==>
              && Current(s, a.key).Some?
              && Current(s, a.key).value.uid == a.uid
              && FINALIZER in Current(s, a.key).value.finalizers
  {
    InitInv(reg);
    RunKeepsInv(reg, INIT, ls);
    assert ObjOk(reg, Run(reg, INIT, ls), o);
  }

  /** Once a custom resource is gone, everything ever applied for it is absent or terminating,
      even if it was applied for others as well; what stands under such a key now was created
      afterwards and never applied for it. */
  lemma GoneLeavesNothing(reg: Registry, ls: seq<Label>, k: CrKey, o: ObjKey)
    requires Lawful(reg)
    requires Current(Run(reg, INIT, ls), k).None?
    ensures Released(Lookup(Run(reg, INIT, ls).objs, o), k)
  {
    NoOrphans(reg, ls, o);
  }

  /** The reconciler has read a version of incarnation `uid` with a deletionTimestamp. */
  predicate SawDeletion(lane: Lane, uid: nat) {
    && At(lane.log, lane.cursor).Some?
    && At(lane.log, lane.cursor).value.uid == uid
    && At(lane.log, lane.cursor).value.deleting
  }

  /** ... and whatever it reads of that incarnation from here on is deleting too. */
  ghost predicate Doomed(lane: Lane, uid: nat) {
    && uid < |lane.log|
    && (forall i :: lane.cursor <= i < |lane.log| && lane.log[i].Some? && lane.log[i].value.uid == uid ==>
          lane.log[i].value.deleting)
    && (Last(lane.log).None? || Last(lane.log).value.uid != uid || Last(lane.log).value.deleting)
  }

  /** This step puts the finalizer on the incarnation, or applies something for it. */
  ghost predicate Revives(reg: Registry, s: State, l: Label, k: CrKey, uid: nat) {
    l.Operator? && l.k == k &&
      var lane := LaneOf(s, k);
      && !lane.pc.Idle? && lane.pc.cr.uid == uid
      && (lane.pc.AddFinalizer? || lane.pc.ReadTarget? || lane.pc.ApplyTarget? || lane.pc.Extras?)
  }

  /** A log grows by at most one version: the successor of the newest one within the same
      incarnation, or the first of a fresh incarnation. */
  ghost predicate Extends(log: Log, later: Log) {
    || later == log
    || exists next: Option<Cr> ::
         && later == log + [next]
         && (next.Some? ==>
               if Last(log).Some?
               then next.value.uid == Last(log).value.uid && (Last(log).value.deleting ==> next.value.deleting)
               else next.value.uid == |log|)
  }

  lemma UserExtends(kind: Kind, log: Log, op: UserOp)
    ensures Extends(log, UserWrite(kind, log, op))
  {
    var later := UserWrite(kind, log, op);
    if later != log {
      assert later == log + [Last(later)];
    }
  }

  lemma CallExtends(reg: Registry, k: CrKey, lane: Lane, cur: Option<Obj>, read: Read, out: Outcome)
    requires LaneInv(k.kind, lane)
    ensures Extends(lane.log, Call(reg, k, lane, cur, read, out).0.log)
    ensures lane.cursor <= Call(reg, k, lane, cur, read, out).0.cursor
  {
    var later := Call(reg, k, lane, cur, read, out).0.log;
    if later != lane.log {
      assert lane.cursor + 1 == |lane.log| && Last(lane.log) == Some(lane.pc.cr);
      assert later == lane.log + [Last(later)];
    }
  }

  lemma DoomedExtends(lane: Lane, later: Lane, uid: nat)
    requires Doomed(lane, uid) && Extends(lane.log, later.log) && lane.cursor <= later.cursor
    ensures Doomed(later, uid)
  {
  }

  lemma DoomedStep(reg: Registry, s: State, l: Label, k: CrKey, uid: nat)
    requires Lawful(reg) && Inv(reg, s) && Doomed(LaneOf(s, k), uid)
    ensures Doomed(LaneOf(Step(reg, s, l), k), uid)
    ensures !Revives(reg, s, l, k, uid)
  {
    var lane := LaneOf(s, k);
    assert LaneInv(k.kind, lane);
    assert !lane.pc.Idle? ==> lane.log[lane.cursor] == Some(lane.pc.cr);
    match l {
      case User(k', op) => UserExtends(k'.kind, LaneOf(s, k').log, op);
      case Vendor(_, _) =>
      case Operator(k', read, out) =>
        assert LaneInv(k'.kind, LaneOf(s, k'));
        CallExtends(reg, k', LaneOf(s, k'), Lookup(s.objs, Focus(reg, k', LaneOf(s, k').pc)), read, out);
      case Crash(_) =>
    }
    DoomedExtends(lane, LaneOf(Step(reg, s, l), k), uid);
  }

  ghost predicate NeverRevives(reg: Registry, s: State, ls: seq<Label>, k: CrKey, uid: nat)
    decreases |ls|
  {
    ls == [] || (!Revives(reg, s, ls[0], k, uid) && NeverRevives(reg, Step(reg, s, ls[0]), ls[1..], k, uid))
  }

  lemma {:induction false} DoomedRun(reg: Registry, s: State, ls: seq<Label>, k: CrKey, uid: nat)
    requires Lawful(reg) && Inv(reg, s) && Doomed(LaneOf(s, k), uid)
    ensures NeverRevives(reg, s, ls, k, uid)
    decreases |ls|
  {
    if ls != [] {
      DoomedStep(reg, s, ls[0], k, uid);
      StepKeepsInv(reg, s, ls[0]);
      DoomedRun(reg, Step(reg, s, ls[0]), ls[1..], k, uid);
    }
  }

  /** Deletion is one-way: after the deletionTimestamp of an incarnation has been read, no
      continuation of the run puts the finalizer back on it or applies its target or an
      extra for it, however long foreign finalizers keep it alive. */
  lemma DeletionIsOneWay(reg: Registry, before: seq<Label>, after: seq<Label>, k: CrKey, uid: nat)
    requires Lawful(reg)
    requires SawDeletion(LaneOf(Run(reg, INIT, before), k), uid)
    ensures NeverRevives(reg, Run(reg, INIT, before), after, k, uid)
  {
    var s := Run(reg, INIT, before);
    InitInv(reg);
    RunKeepsInv(reg, INIT, before);
    var lane := LaneOf(s, k);
    assert LaneInv(k.kind, lane);
    assert lane.log[lane.cursor].value.uid <= lane.cursor;
    DoomedRun(reg, s, after, k, uid);
  }

  /** The stored status of every version that ever existed is consistent: `.status.ready`
      agrees with the single Ready condition, and condition types are unique. */
  lemma StatusAlwaysConsistent(reg: Registry, ls: seq<Label>, k: CrKey, i: nat)
    requires Lawful(reg)
    requires At(LaneOf(Run(reg, INIT, ls), k).log, i).Some?
    ensures Consistent(LaneOf(Run(reg, INIT, ls), k).log[i].value.status)
  {
    InitInv(reg);
    RunKeepsInv(reg, INIT, ls);
    assert LaneInv(k.kind, LaneOf(Run(reg, INIT, ls), k));
  }
}

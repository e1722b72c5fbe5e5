/**
  GenericReconciler.Reconcile (internal/reconciler/reconciler.go:142-243) as a transition
  system whose steps are single API calls, run against an API server that users, vendor
  controllers and call failures can change between any two calls.

  A custom resource is kept as the log of its versions, so a position in the log is its
  resourceVersion. A read may return any version not older than the one read last; an
  Update or Status().Update succeeds only on the newest version. Patch and Delete carry no
  precondition. A call takes effect before it returns or not at all.
 */
module Protocol {
  import opened Types
  import opened ServerSideApply
  import opened StatusMirror
  import opened Adapters

  const FINALIZER := "paas.example.com/cleanup"

  // ---------------------------------------------------------------- the API server

  /** A stored version. Several documents decode to the same spec; `form` says which of them is
      stored, 0 being the one the operator's own encoding makes (Codec.Recoded). */
  datatype Cr = Cr(
    uid: nat, generation: nat, spec: CrSpec, form: nat, deleting: bool, finalizers: set<string>, status: CrStatus)

  type Log = seq<Option<Cr>>

  function At(log: Log, i: nat): Option<Cr> {
    if i < |log| then log[i] else None
  }

  function Last(log: Log): Option<Cr> {
    if log == [] then None else log[|log| - 1]
  }

  /** A write that changes nothing does not make a new version. */
  function Commit(log: Log, next: Option<Cr>): Log {
    if Last(log) == next then log else log + [next]
  }

  /** A terminating object goes away with its last finalizer. */
  function Settle(cr: Cr): Option<Cr> {
    if cr.deleting && cr.finalizers == {} then None else Some(cr)
  }

  /** The generation counts changes of the stored document. */
  function WithSpec(cr: Cr, spec: CrSpec, form: nat): Cr {
    if spec == cr.spec && form == cr.form then cr
    else cr.(spec := spec, form := form, generation := cr.generation + 1)
  }

  datatype Applier = Applier(key: CrKey, uid: nat)

  /** A target or extra. `held` says a finalizer of someone else delays its removal;
      `appliers` records every incarnation of a custom resource the operator applied it for
      since it was created. */
  datatype Obj = Obj(entries: Entries, held: bool, terminating: bool, appliers: set<Applier>)

  function ApplyObj(cur: Option<Obj>, manager: string, intent: Fields, applier: Applier): Obj {
    match cur
    case None => Obj(Apply(map[], manager, intent), false, false, {applier})
    case Some(o) => o.(entries := Apply(o.entries, manager, intent), appliers := o.appliers + {applier})
  }

  /** A successful Delete leaves the object absent or terminating. */
  function DeleteObj(cur: Option<Obj>): Option<Obj> {
    if cur.Some? && cur.value.held then Some(cur.value.(terminating := true)) else None
  }

  function Lookup(objs: map<ObjKey, Obj>, o: ObjKey): Option<Obj> {
    if o in objs then Some(objs[o]) else None
  }

  function Store(objs: map<ObjKey, Obj>, o: ObjKey, x: Option<Obj>): map<ObjKey, Obj> {
    match x
    case None => objs - {o}
    case Some(v) => objs[o := v]
  }

  // ---------------------------------------------------------------- everyone else

  datatype UserOp =
    | Create(spec: CrSpec, form: nat, finalizers: set<string>)
    | Edit(spec: CrSpec, form: nat)
    | SetFinalizers(finalizers: set<string>)
    | Delete
    | SetOtherCondition(condition: Condition)

  /** The version a user's request makes; a request the API server would reject makes none.
      Users never strip FINALIZER and never write the Ready condition. */
  function UserNext(kind: Kind, log: Log, op: UserOp): Option<Cr> {
    match Last(log)
    case None =>
      if op.Create? && Fits(kind, op.spec)
      then Some(Cr(|log|, 1, op.spec, op.form, false, op.finalizers, NO_STATUS))
      else None
    case Some(cr) =>
      match op
      case Create(_, _, _) => Some(cr)
      case Edit(spec, form) => if Fits(kind, spec) then Some(WithSpec(cr, spec, form)) else Some(cr)
      case SetFinalizers(fs) =>
        var wanted := if cr.deleting then fs * cr.finalizers else fs;
        Settle(cr.(finalizers := if FINALIZER in cr.finalizers then wanted + {FINALIZER} else wanted))
      case Delete =>
        if cr.deleting then Some(cr) else Settle(cr.(deleting := true, generation := cr.generation + 1))
      case SetOtherCondition(c) =>
        if c.ctype == READY then Some(cr)
        else Some(cr.(status := cr.status.(conditions := SetCondition(cr.status.conditions, c))))
  }

  function UserWrite(kind: Kind, log: Log, op: UserOp): Log {
    Commit(log, UserNext(kind, log, op))
  }

  datatype VendorOp =
    | Create(fields: Fields, writer: string)
    | Change(write: Write)
    | Hold
    | Release
    | RequestDelete

  function VendorWrite(cur: Option<Obj>, op: VendorOp): Option<Obj> {
    match cur
    case None =>
      if op.Create?
      then Some(Obj(map p | p in op.fields :: Entry(op.fields[p], {op.writer}), false, false, {}))
      else None
    case Some(o) =>
      match op
      case Create(_, _) => cur
      case Change(Put(writer, p, v)) => Some(o.(entries := PutOne(o.entries, writer, p, v)))
      case Change(Drop(p)) => Some(o.(entries := o.entries - {p}))
      case Change(Reapply(_)) => cur
      case Hold => if o.terminating then cur else Some(o.(held := true))
      case Release => if o.terminating then None else Some(o.(held := false))
      case RequestDelete => DeleteObj(cur)
  }

  // ---------------------------------------------------------------- the reconciler

  /** Where a Reconcile call stands: the API call it makes next, and its local variables.
      `cr` is the version it read, `absent` whether getTarget found nothing, `merged` the
      object Patch wrote back into `desired`. `Extras(_, _, n)` with n past the last extra
      makes the Status().Update; `Deleting(_, n)` deletes the target (n = 0), then each
      extra, then drops the finalizer. */
  datatype Pc =
    | Idle
    | AddFinalizer(cr: Cr)
    | ReadTarget(cr: Cr)
    | ApplyTarget(cr: Cr, absent: bool)
    | Extras(cr: Cr, merged: Fields, next: nat)
    | Deleting(cr: Cr, next: nat)

  /** Everything about one custom resource: its versions, the one read last, its reconcile in
      flight, and how many TargetCreated events were recorded for it. */
  datatype Lane = Lane(log: Log, cursor: nat, pc: Pc, events: nat)

  const EMPTY_LANE := Lane([], 0, Idle, 0)

  datatype Outcome =
    | Done
    | Failed   // no effect, error returned
    | Lost     // took effect, but the reply was lost and an error returned

  datatype Read = Latest | Cached(index: nat)

  function ReadIndex(lane: Lane, read: Read): nat {
    if read.Cached? && lane.cursor <= read.index < |lane.log| then read.index
    else if lane.log == [] then 0
    else |lane.log| - 1
  }

  function Dispatch(v: Option<Cr>): Pc {
    match v
    case None => Idle
    case Some(cr) =>
      if cr.deleting then
        if FINALIZER in cr.finalizers then Deleting(cr, 0) else Idle
      else if FINALIZER in cr.finalizers then ReadTarget(cr)
      else AddFinalizer(cr)
  }

  function Stop(lane: Lane): Lane {
    lane.(pc := Idle)
  }

  /** Update or Status().Update of the version in hand: rejected when it is not the newest. */
  function WriteCr(lane: Lane, out: Outcome, next: Option<Cr>): Lane {
    if !out.Failed? && lane.cursor + 1 == |lane.log| then lane.(log := Commit(lane.log, next)) else lane
  }

  function FinalizerAdded(a: Adapter, cr: Cr): Cr {
    WithSpec(cr, a.stored(cr.spec), 0).(finalizers := cr.finalizers + {FINALIZER})
  }

  function FinalizerDropped(a: Adapter, cr: Cr): Cr {
    WithSpec(cr, a.stored(cr.spec), 0).(finalizers := cr.finalizers - {FINALIZER})
  }

  function StatusMirrored(a: Adapter, cr: Cr, merged: Fields): Cr {
    var ts := a.extract(merged);
    cr.(status := Mirror(cr.status, ts, a.reasons, a.counts(ts), cr.generation))
  }

  /** Apply the extra if it is wanted, delete it otherwise. */
  function ExtraApplied(a: Adapter, cur: Option<Obj>, e: Extra, applier: Applier): Option<Obj> {
    match e.desired
    case Some(intent) => Some(ApplyObj(cur, a.fieldManager, intent, applier))
    case None => DeleteObj(cur)
  }

  /** The one target or extra the next call may touch. */
  function Focus(reg: Registry, k: CrKey, pc: Pc): ObjKey {
    match pc
    case Extras(cr, _, n) =>
      var es := ExtrasOf(reg, k, cr.spec);
      if n < |es| then ExtraKey(k, es[n]) else TargetKey(reg, k)
    case Deleting(cr, n) =>
      var es := ExtrasOf(reg, k, cr.spec);
      if 0 < n <= |es| then ExtraKey(k, es[n - 1]) else TargetKey(reg, k)
    case _ => TargetKey(reg, k)
  }

  /** One API call of the reconcile for `k`, given the object it is about. */
  function Call(reg: Registry, k: CrKey, lane: Lane, cur: Option<Obj>, read: Read, out: Outcome): (Lane, Option<Obj>) {
    var a := reg(k.kind);
    match lane.pc
    case Idle =>
      if !out.Done? then (lane, cur)
      else
        var i := ReadIndex(lane, read);
        (lane.(cursor := i, pc := Dispatch(At(lane.log, i))), cur)
    case AddFinalizer(cr) =>
      (Stop(WriteCr(lane, out, Settle(FinalizerAdded(a, cr)))), cur)
    case ReadTarget(cr) =>
      (if out.Done? then lane.(pc := ApplyTarget(cr, cur.None?)) else Stop(lane), cur)
    case ApplyTarget(cr, absent) =>
      var o := ApplyObj(cur, a.fieldManager, Manifest(reg, k, cr.spec), Applier(k, cr.uid));
      if out.Failed? || !a.accepts(Values(o.entries)) then (Stop(lane), cur)
      else if out.Lost? then (Stop(lane), Some(o))
      else (lane.(pc := Extras(cr, Values(o.entries), 0), events := lane.events + if absent then 1 else 0), Some(o))
    case Extras(cr, merged, n) =>
      var es := ExtrasOf(reg, k, cr.spec);
      if n < |es| then
        if out.Failed? then (Stop(lane), cur)
        else
          var x := ExtraApplied(a, cur, es[n], Applier(k, cr.uid));
          (if out.Lost? then Stop(lane) else lane.(pc := Extras(cr, merged, n + 1)), x)
      else
        (Stop(WriteCr(lane, out, Some(StatusMirrored(a, cr, merged)))), cur)
    case Deleting(cr, n) =>
      if n <= |ExtrasOf(reg, k, cr.spec)| then
        if out.Failed? then (Stop(lane), cur)
        else (if out.Lost? then Stop(lane) else lane.(pc := Deleting(cr, n + 1)), DeleteObj(cur))
      else
        (Stop(WriteCr(lane, out, Settle(FinalizerDropped(a, cr)))), cur)
  }

  // ---------------------------------------------------------------- runs

  datatype State = State(lanes: map<CrKey, Lane>, objs: map<ObjKey, Obj>)

  const INIT := State(map[], map[])

  function LaneOf(s: State, k: CrKey): Lane {
    if k in s.lanes then s.lanes[k] else EMPTY_LANE
  }

  function Current(s: State, k: CrKey): Option<Cr> {
    Last(LaneOf(s, k).log)
  }

  datatype Label =
    | User(k: CrKey, uop: UserOp)
    | Vendor(o: ObjKey, vop: VendorOp)
    | Operator(k: CrKey, read: Read, out: Outcome)
    | Crash(k: CrKey)

  function Step(reg: Registry, s: State, l: Label): State {
    match l
    case User(k, op) =>
      var lane := LaneOf(s, k);
      s.(lanes := s.lanes[k := lane.(log := UserWrite(k.kind, lane.log, op))])
    case Vendor(o, op) =>
      s.(objs := Store(s.objs, o, VendorWrite(Lookup(s.objs, o), op)))
    case Operator(k, read, out) =>
      var lane := LaneOf(s, k);
      var o := Focus(reg, k, lane.pc);
      var r := Call(reg, k, lane, Lookup(s.objs, o), read, out);
      State(s.lanes[k := r.0], Store(s.objs, o, r.1))
    case Crash(k) =>
      s.(lanes := s.lanes[k := Stop(LaneOf(s, k))])
  }

  function Run(reg: Registry, s: State, ls: seq<Label>): State
    decreases |ls|
  {
    if ls == [] then s else Run(reg, Step(reg, s, ls[0]), ls[1..])
  }

  lemma {:induction false} RunConcat(reg: Registry, s: State, a: seq<Label>, b: seq<Label>)
    ensures Run(reg, s, a + b) == Run(reg, Run(reg, s, a), b)
    decreases |a|
  {
    if a == [] {
      assert a + b == b;
    } else {
      assert (a + b)[0] == a[0] && (a + b)[1..] == a[1..] + b;
      RunConcat(reg, Step(reg, s, a[0]), a[1..], b);
    }
  }

  lemma RunOne(reg: Registry, s: State, l: Label)
    ensures Run(reg, s, [l]) == Step(reg, s, l)
  {
    assert [l][1..] == [];
    assert Run(reg, s, [l]) == Run(reg, Step(reg, s, l), []);
  }

  lemma RunTwo(reg: Registry, s: State, l: Label, l': Label)
    ensures Run(reg, s, [l, l']) == Step(reg, Step(reg, s, l), l')
  {
    RunConcat(reg, s, [l], [l']);
    RunOne(reg, s, l);
    RunOne(reg, Step(reg, s, l), l');
    assert [l] + [l'] == [l, l'];
  }

  /** The state after the first `n` steps of a run from the start. */
  function StateAt(reg: Registry, ls: seq<Label>, n: nat): State
    requires n <= |ls|
  {
    Run(reg, INIT, ls[..n])
  }

  lemma StateAfter(reg: Registry, ls: seq<Label>, n: nat)
    requires n < |ls|
    ensures StateAt(reg, ls, n + 1) == Step(reg, StateAt(reg, ls, n), ls[n])
  {
    assert ls[..n + 1] == ls[..n] + [ls[n]];
    RunConcat(reg, INIT, ls[..n], [ls[n]]);
    RunOne(reg, StateAt(reg, ls, n), ls[n]);
  }
}

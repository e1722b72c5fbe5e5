/**
  Convergence when reconciles read stale versions too. Cached reads never go backwards, so once
  a reconcile has read the newest version, every version still readable is one the operator
  itself made from it; acting on such a version again changes nothing that was settled.
 */
module StaleReads {
  import opened Types
  import opened Adapters
  import opened Protocol
  import opened Safety
  import opened Convergence
  import opened Rounds

  /** A Reconcile call with nobody else writing: the read and the outcome of each API call. */
  type Visit = seq<(Read, Outcome)>

  function Steps(k: CrKey, v: Visit): seq<Label> {
    seq(|v|, i requires 0 <= i < |v| => Operator(k, v[i].0, v[i].1))
  }

  function Outcomes(v: Visit): seq<Outcome> {
    seq(|v|, i requires 0 <= i < |v| => v[i].1)
  }

  function Visited(reg: Registry, s: State, k: CrKey, v: Visit): State {
    Drive(reg, s, k, Steps(k, v))
  }

  lemma StepsCons(k: CrKey, v: Visit)
    requires v != []
    ensures Steps(k, v) == [Operator(k, v[0].0, v[0].1)] + Steps(k, v[1..])
    ensures Calls(k, Outcomes(v)) == [Operator(k, Latest, v[0].1)] + Calls(k, Outcomes(v[1..]))
  {
  }

  // ---------------------------------------------------------------- only the first call reads

  lemma ReadsMatterOnce(reg: Registry, s: State, k: CrKey, read: Read, out: Outcome)
    requires !LaneOf(s, k).pc.Idle?
    ensures Step(reg, s, Operator(k, read, out)) == Step(reg, s, Operator(k, Latest, out))
  {
  }

  lemma {:induction false} DriveIgnoresReads(reg: Registry, s: State, k: CrKey, v: Visit)
    requires !LaneOf(s, k).pc.Idle?
    ensures Visited(reg, s, k, v) == Attempt(reg, s, k, Outcomes(v))
    decreases |v|
  {
    if v != [] {
      StepsCons(k, v);
      ReadsMatterOnce(reg, s, k, v[0].0, v[0].1);
      var t := Step(reg, s, Operator(k, Latest, v[0].1));
      if !LaneOf(t, k).pc.Idle? { DriveIgnoresReads(reg, t, k, v[1..]); }
    }
  }

  /** The visit's read finds the newest version, whatever cache it went through. */
  predicate ReadsNewest(lane: Lane, v: Visit) {
    v != [] ==> ReadIndex(lane, v[0].0) == ReadIndex(lane, Latest)
  }

  lemma FreshVisit(reg: Registry, s: State, k: CrKey, v: Visit)
    requires LaneOf(s, k).pc.Idle? && ReadsNewest(LaneOf(s, k), v)
    ensures Visited(reg, s, k, v) == Attempt(reg, s, k, Outcomes(v))
  {
    if v != [] {
      StepsCons(k, v);
      var t := Step(reg, s, Operator(k, Latest, v[0].1));
      assert Step(reg, s, Operator(k, v[0].0, v[0].1)) == t;
      if !LaneOf(t, k).pc.Idle? { DriveIgnoresReads(reg, t, k, v[1..]); }
    }
  }

  lemma {:induction false} VisitKeepsLane(reg: Registry, s: State, k: CrKey, v: Visit)
    requires Lawful(reg) && LaneInv(k.kind, LaneOf(s, k))
    ensures LaneInv(k.kind, LaneOf(Visited(reg, s, k, v), k)) && LaneOf(Visited(reg, s, k, v), k).pc.Idle?
    decreases |v|
  {
    DriveEndsIdle(reg, s, k, Steps(k, v));
    if v != [] {
      StepsCons(k, v);
      var lane := LaneOf(s, k);
      CallKeepsLane(reg, k, lane, Lookup(s.objs, Focus(reg, k, lane.pc)), v[0].0, v[0].1);
      VisitKeepsLane(reg, Step(reg, s, Operator(k, v[0].0, v[0].1)), k, v[1..]);
    }
  }

  // ---------------------------------------------------------------- what can still be read

  /** Reconciling the old version asks for nothing that the new one does not. */
  predicate Akin(was: Option<Cr>, next: Cr) {
    was.Some? ==>
      && !was.value.deleting
      && (FINALIZER in was.value.finalizers ==> was.value.spec == next.spec && was.value.uid == next.uid)
  }

  /** Everything that can still be read is akin to the newest version, if that is live with our
      finalizer. */
  ghost predicate Tail(lane: Lane) {
    Last(lane.log).Some? && LiveWithFinalizer(Last(lane.log).value) ==>
      forall i :: lane.cursor <= i < |lane.log| ==> Akin(lane.log[i], Last(lane.log).value)
  }

  /** What the operator submits is akin to what it read. */
  lemma SubmittedIsAkin(reg: Registry, k: CrKey, lane: Lane, out: Outcome)
    requires LaneInv(k.kind, lane) && WritesCr(reg, k, lane.pc) && lane.cursor + 1 == |lane.log|
    ensures Tail(Stop(WriteCr(lane, out, Submitted(reg, k, lane.pc))))
  {
    assert lane.log[lane.cursor] == Some(lane.pc.cr);
  }

  /** A reconcile that holds the newest version leaves only its kin readable. */
  lemma {:induction false} FreshLeavesTail(reg: Registry, s: State, k: CrKey, v: Visit)
    requires Lawful(reg) && LaneInv(k.kind, LaneOf(s, k))
    requires !LaneOf(s, k).pc.Idle? && LaneOf(s, k).cursor + 1 == |LaneOf(s, k).log|
    ensures Tail(LaneOf(Visited(reg, s, k, v), k))
    decreases |v|
  {
    var lane := LaneOf(s, k);
    assert lane.log[lane.cursor] == Some(lane.pc.cr);
    if v != [] {
      StepsCons(k, v);
      var cur := Lookup(s.objs, Focus(reg, k, lane.pc));
      var t := Step(reg, s, Operator(k, v[0].0, v[0].1));
      if WritesCr(reg, k, lane.pc) {
        WritingCall(reg, k, lane, cur, v[0].0, v[0].1);
        SubmittedIsAkin(reg, k, lane, v[0].1);
      } else {
        QuietCall(reg, k, lane, cur, v[0].0, v[0].1);
        CallKeepsLane(reg, k, lane, cur, v[0].0, v[0].1);
        if !LaneOf(t, k).pc.Idle? { FreshLeavesTail(reg, t, k, v[1..]); }
      }
    }
  }

  // ---------------------------------------------------------------- a stale visit

  /** Standing at a stale version, no call writes the resource or moves the cursor. */
  lemma StaleStep(reg: Registry, s: State, k: CrKey, read: Read, out: Outcome)
    requires !LaneOf(s, k).pc.Idle? && LaneOf(s, k).cursor + 1 < |LaneOf(s, k).log|
    ensures var t := Step(reg, s, Operator(k, read, out));
            LaneOf(t, k).log == LaneOf(s, k).log && LaneOf(t, k).cursor == LaneOf(s, k).cursor
  {
    var lane := LaneOf(s, k);
    var cur := Lookup(s.objs, Focus(reg, k, lane.pc));
    if WritesCr(reg, k, lane.pc) {
      WritingCall(reg, k, lane, cur, read, out);
    } else {
      QuietCall(reg, k, lane, cur, read, out);
    }
  }

  lemma {:induction false} StaleKeepsLog(reg: Registry, s: State, k: CrKey, v: Visit)
    requires !LaneOf(s, k).pc.Idle? && LaneOf(s, k).cursor + 1 < |LaneOf(s, k).log|
    ensures LaneOf(Visited(reg, s, k, v), k).log == LaneOf(s, k).log
    ensures LaneOf(Visited(reg, s, k, v), k).cursor == LaneOf(s, k).cursor
    decreases |v|
  {
    if v != [] {
      StepsCons(k, v);
      StaleStep(reg, s, k, v[0].0, v[0].1);
      var t := Step(reg, s, Operator(k, v[0].0, v[0].1));
      if !LaneOf(t, k).pc.Idle? { StaleKeepsLog(reg, t, k, v[1..]); }
    }
  }

  /** At an accepted fixpoint the work leaves every owned object as it is. */
  lemma SettledWork(reg: Registry, k: CrKey, m: ClusterView, i: nat)
    requires Lawful(reg) && Settled(reg, k, m) && m.cr.Some? && LiveWithFinalizer(m.cr.value)
    requires Accepted(reg, k, m.cr.value, m.objs) && i < |Owned(reg, k)|
    ensures var cur := Lookup(m.objs, Owned(reg, k)[i]); Work(reg, k, JobOf(m.cr.value), i, cur) == cur
  {
    assert OwnedDistinct(reg, k);
    WorkedOwn(reg, k, JobOf(m.cr.value), m.objs, |Owned(reg, k)|, i);
  }

  /** A reconcile of a version akin to a settled one, wherever it stands. */
  ghost predicate Idling(reg: Registry, k: CrKey, m: ClusterView, s: State)
    requires m.cr.Some?
  {
    var lane := LaneOf(s, k);
    && LaneInv(k.kind, lane) && s.objs == m.objs
    && (!lane.pc.Idle? ==> Akin(Some(lane.pc.cr), m.cr.value))
    && (lane.pc.Extras? ==> Accepted(reg, k, m.cr.value, m.objs))
  }

  lemma IdlingStep(reg: Registry, k: CrKey, m: ClusterView, s: State, read: Read, out: Outcome)
    requires Lawful(reg) && Settled(reg, k, m) && m.cr.Some? && LiveWithFinalizer(m.cr.value)
    requires Idling(reg, k, m, s) && !LaneOf(s, k).pc.Idle?
    ensures Idling(reg, k, m, Step(reg, s, Operator(k, read, out)))
  {
    var lane := LaneOf(s, k);
    var f := Focus(reg, k, lane.pc);
    var cur := Lookup(s.objs, f);
    assert lane.log[lane.cursor] == Some(lane.pc.cr);
    CallKeepsLane(reg, k, lane, cur, read, out);
    FocusIsOwned(reg, k, lane.pc);
    StoreSame(s.objs, f);
    if WritesCr(reg, k, lane.pc) {
      WritingCall(reg, k, lane, cur, read, out);
    } else {
      QuietCall(reg, k, lane, cur, read, out);
      IdlingCall(reg, k, m, s, read, out);
    }
  }

  lemma IdlingPatch(reg: Registry, k: CrKey, m: ClusterView, s: State, read: Read, out: Outcome)
    requires Lawful(reg) && Settled(reg, k, m) && m.cr.Some? && LiveWithFinalizer(m.cr.value)
    requires Idling(reg, k, m, s) && LaneOf(s, k).pc.ApplyTarget?
    ensures var lane := LaneOf(s, k);
            var cur := Lookup(s.objs, Focus(reg, k, lane.pc));
            var r := Call(reg, k, lane, cur, read, out);
            r.1 == cur && (r.0.pc.Extras? ==> Accepted(reg, k, m.cr.value, m.objs))
  {
    var lane := LaneOf(s, k);
    assert lane.log[lane.cursor] == Some(lane.pc.cr);
    assert Owned(reg, k)[0] == TargetKey(reg, k) == Focus(reg, k, lane.pc);
    if Accepted(reg, k, m.cr.value, m.objs) { SettledWork(reg, k, m, 0); }
  }

  lemma IdlingExtra(reg: Registry, k: CrKey, m: ClusterView, s: State, read: Read, out: Outcome)
    requires Lawful(reg) && Settled(reg, k, m) && m.cr.Some? && LiveWithFinalizer(m.cr.value)
    requires Idling(reg, k, m, s) && LaneOf(s, k).pc.Extras? && !WritesCr(reg, k, LaneOf(s, k).pc)
    ensures var lane := LaneOf(s, k);
            var cur := Lookup(s.objs, Focus(reg, k, lane.pc));
            Call(reg, k, lane, cur, read, out).1 == cur
  {
    var lane := LaneOf(s, k);
    assert lane.log[lane.cursor] == Some(lane.pc.cr);
    FocusIsOwned(reg, k, lane.pc);
    SettledWork(reg, k, m, lane.pc.next + 1);
  }

  /** Such a call leaves its object as it is. */
  lemma IdlingCall(reg: Registry, k: CrKey, m: ClusterView, s: State, read: Read, out: Outcome)
    requires Lawful(reg) && Settled(reg, k, m) && m.cr.Some? && LiveWithFinalizer(m.cr.value)
    requires Idling(reg, k, m, s) && !LaneOf(s, k).pc.Idle? && !WritesCr(reg, k, LaneOf(s, k).pc)
    ensures var lane := LaneOf(s, k);
            var cur := Lookup(s.objs, Focus(reg, k, lane.pc));
            var r := Call(reg, k, lane, cur, read, out);
            r.1 == cur && (r.0.pc.Extras? ==> Accepted(reg, k, m.cr.value, m.objs))
  {
    match LaneOf(s, k).pc {
      case ApplyTarget(_, _) => IdlingPatch(reg, k, m, s, read, out);
      case Extras(_, _, _) => IdlingExtra(reg, k, m, s, read, out);
      case _ =>
    }
  }

  lemma {:induction false} IdlingVisit(reg: Registry, k: CrKey, m: ClusterView, s: State, v: Visit)
    requires Lawful(reg) && Settled(reg, k, m) && m.cr.Some? && LiveWithFinalizer(m.cr.value)
    requires Idling(reg, k, m, s) && !LaneOf(s, k).pc.Idle?
    ensures Visited(reg, s, k, v).objs == m.objs
    decreases |v|
  {
    if v != [] {
      StepsCons(k, v);
      IdlingStep(reg, k, m, s, v[0].0, v[0].1);
      var t := Step(reg, s, Operator(k, v[0].0, v[0].1));
      if !LaneOf(t, k).pc.Idle? { IdlingVisit(reg, k, m, t, v[1..]); }
    }
  }

  // ---------------------------------------------------------------- any visit

  /** At a fixpoint that no version still readable can disturb. */
  ghost predicate Calm(reg: Registry, k: CrKey, s: State) {
    Settled(reg, k, ViewOf(s, k)) && Tail(LaneOf(s, k))
  }

  /** How many fault-free visits are enough. */
  ghost function VisitsLeft(reg: Registry, k: CrKey, s: State): nat {
    if Calm(reg, k, s) then 0 else if Dispatch(Current(s, k)).AddFinalizer? then 2 else 1
  }

  /** No call fails, the process lives long enough, and the read is fresh. */
  predicate FaultFreeVisit(reg: Registry, k: CrKey, v: Visit) {
    FaultFree(reg, k, Outcomes(v)) && v[0].0.Latest?
  }

  /** A visit that acts on an older version: the resource keeps its versions, and what is calm
      stays calm. */
  lemma StaleVisit(reg: Registry, k: CrKey, s: State, v: Visit)
    requires Lawful(reg) && LaneInv(k.kind, LaneOf(s, k)) && LaneOf(s, k).pc.Idle?
    requires v != [] && v[0].1.Done? && !ReadsNewest(LaneOf(s, k), v)
    ensures Current(Visited(reg, s, k, v), k) == Current(s, k)
    ensures Calm(reg, k, s) ==> Calm(reg, k, Visited(reg, s, k, v))
  {
    StepsCons(k, v);
    var lane := LaneOf(s, k);
    var t := Step(reg, s, Operator(k, v[0].0, v[0].1));
    ReadKeepsLane(k.kind, lane, v[0].0);
    StoreSame(s.objs, Focus(reg, k, lane.pc));
    assert t.objs == s.objs && LaneOf(t, k).log == lane.log && LaneOf(t, k).cursor + 1 < |lane.log|;
    if !LaneOf(t, k).pc.Idle? {
      StaleKeepsLog(reg, t, k, v[1..]);
      if Calm(reg, k, s) { StaleKeepsCalm(reg, k, s, t, v[1..]); }
    }
  }

  lemma StaleKeepsCalm(reg: Registry, k: CrKey, s: State, t: State, v: Visit)
    requires Lawful(reg) && Calm(reg, k, s) && LaneInv(k.kind, LaneOf(t, k)) && !LaneOf(t, k).pc.Idle?
    requires t.objs == s.objs && LaneOf(t, k).log == LaneOf(s, k).log
    requires LaneOf(s, k).cursor <= LaneOf(t, k).cursor && LaneOf(t, k).cursor + 1 < |LaneOf(t, k).log|
    requires LaneOf(t, k).pc == Dispatch(LaneOf(t, k).log[LaneOf(t, k).cursor])
    ensures Calm(reg, k, Visited(reg, t, k, v))
  {
    var m := ViewOf(s, k);
    var lane := LaneOf(t, k);
    StaleKeepsLog(reg, t, k, v);
    if Dispatch(m.cr).ReadTarget? {
      assert Akin(lane.log[lane.cursor], m.cr.value);
      IdlingVisit(reg, k, m, t, v);
    } else {
      SettledIsLive(reg, k, m);
    }
  }

  /** A fixpoint that is not live with our finalizer is one whatever the objects are. */
  lemma SettledIsLive(reg: Registry, k: CrKey, m: ClusterView)
    requires Settled(reg, k, m) && !Dispatch(m.cr).ReadTarget?
    ensures forall objs :: Settled(reg, k, ClusterView(m.cr, objs))
  {
    if Dispatch(m.cr).AddFinalizer? {
      assert FINALIZER in FinalizerAdded(reg(k.kind), m.cr.value).finalizers;
    }
    if Dispatch(m.cr).Deleting? {
      assert FINALIZER !in FinalizerDropped(reg(k.kind), m.cr.value).finalizers;
    }
  }

  /** A visit that reads the newest version and gets that far leaves only kin readable. */
  lemma FreshTail(reg: Registry, k: CrKey, s: State, v: Visit)
    requires Lawful(reg) && LaneInv(k.kind, LaneOf(s, k)) && LaneOf(s, k).pc.Idle?
    requires v != [] && v[0].1.Done? && ReadsNewest(LaneOf(s, k), v)
    ensures Tail(LaneOf(Visited(reg, s, k, v), k))
  {
    StepsCons(k, v);
    var lane := LaneOf(s, k);
    ReadKeepsLane(k.kind, lane, v[0].0);
    var t := Step(reg, s, Operator(k, v[0].0, v[0].1));
    if !LaneOf(t, k).pc.Idle? { FreshLeavesTail(reg, t, k, v[1..]); }
  }

  /** A visit that does not even get its read through changes nothing. */
  lemma EmptyVisit(reg: Registry, k: CrKey, s: State, v: Visit)
    requires LaneOf(s, k).pc.Idle? && (v == [] || !v[0].1.Done?)
    ensures ViewOf(Visited(reg, s, k, v), k) == ViewOf(s, k)
    ensures LaneOf(Visited(reg, s, k, v), k) == LaneOf(s, k)
  {
    StoreSame(s.objs, Focus(reg, k, LaneOf(s, k).pc));
    if v != [] { StepsCons(k, v); }
  }

  lemma FreshApproaches(reg: Registry, k: CrKey, s: State, v: Visit)
    requires Lawful(reg) && LaneInv(k.kind, LaneOf(s, k)) && LaneOf(s, k).pc.Idle?
    requires v != [] && v[0].1.Done? && ReadsNewest(LaneOf(s, k), v)
    ensures var t := Visited(reg, s, k, v);
            && VisitsLeft(reg, k, t) <= VisitsLeft(reg, k, s)
            && (FaultFreeVisit(reg, k, v) && VisitsLeft(reg, k, s) > 0
                ==> VisitsLeft(reg, k, t) < VisitsLeft(reg, k, s))
  {
    var m := ViewOf(s, k);
    FreshVisit(reg, s, k, v);
    FreshTail(reg, k, s, v);
    AttemptIsRound(reg, k, s, Outcomes(v));
    ViewWellformed(k, s);
    RoundSettles(reg, k, m);
    var t := ViewOf(Visited(reg, s, k, v), k);
    if t != Round(reg, k, m) && Settled(reg, k, m) { SettledStays(reg, k, m, t); }
  }

  /** No visit sets the schedule back, and a fault-free one brings it forward. */
  lemma VisitApproaches(reg: Registry, k: CrKey, s: State, v: Visit)
    requires Lawful(reg) && LaneInv(k.kind, LaneOf(s, k)) && LaneOf(s, k).pc.Idle?
    ensures var t := Visited(reg, s, k, v);
            && VisitsLeft(reg, k, t) <= VisitsLeft(reg, k, s)
            && (FaultFreeVisit(reg, k, v) && VisitsLeft(reg, k, s) > 0
                ==> VisitsLeft(reg, k, t) < VisitsLeft(reg, k, s))
  {
    if v == [] || !v[0].1.Done? {
      EmptyVisit(reg, k, s, v);
      assert v != [] ==> Outcomes(v)[0] == v[0].1;
    } else if ReadsNewest(LaneOf(s, k), v) {
      FreshApproaches(reg, k, s, v);
    } else {
      StaleVisit(reg, k, s, v);
    }
  }

  // ---------------------------------------------------------------- main result

  function AllVisited(reg: Registry, s: State, k: CrKey, vs: seq<Visit>): State
    decreases |vs|
  {
    if vs == [] then s else AllVisited(reg, Visited(reg, s, k, vs[0]), k, vs[1..])
  }

  function FaultFreeVisits(reg: Registry, k: CrKey, vs: seq<Visit>): nat {
    if vs == [] then 0 else (if FaultFreeVisit(reg, k, vs[0]) then 1 else 0) + FaultFreeVisits(reg, k, vs[1..])
  }

  lemma {:induction false} VisitsProgress(reg: Registry, k: CrKey, s: State, vs: seq<Visit>)
    requires Lawful(reg) && LaneInv(k.kind, LaneOf(s, k)) && LaneOf(s, k).pc.Idle?
    ensures var left := VisitsLeft(reg, k, AllVisited(reg, s, k, vs));
            left == 0 || left + FaultFreeVisits(reg, k, vs) <= VisitsLeft(reg, k, s)
    decreases |vs|
  {
    if vs != [] {
      VisitApproaches(reg, k, s, vs[0]);
      VisitKeepsLane(reg, s, k, vs[0]);
      VisitsProgress(reg, k, Visited(reg, s, k, vs[0]), vs[1..]);
    }
  }

  /** Convergence on any reads: from any reachable state, once others stop writing, every
      schedule of reconciles, each reading any version not older than the last one read and
      failing or crashing anywhere, ends at a fixpoint if two of them are fault-free and read
      afresh (one, if the resource already carries our finalizer). It does not matter where in
      the schedule these stand. */
  lemma ConvergesOnAnyReads(reg: Registry, before: seq<Label>, k: CrKey, vs: seq<Visit>)
    requires Lawful(reg) && LaneOf(Run(reg, INIT, before), k).pc.Idle?
    ensures var s := Run(reg, INIT, before);
            var enough := if Dispatch(Current(s, k)).AddFinalizer? then 2 else 1;
            FaultFreeVisits(reg, k, vs) >= enough ==> Settled(reg, k, ViewOf(AllVisited(reg, s, k, vs), k))
  {
    var s := Run(reg, INIT, before);
    InitInv(reg);
    RunKeepsInv(reg, INIT, before);
    assert LaneInv(k.kind, LaneOf(s, k));
    VisitsProgress(reg, k, s, vs);
  }
}

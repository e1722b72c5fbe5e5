/**
  TargetCreated events (internal/reconciler/reconciler.go:201-219) against what really
  happened to the target.
 */
module Events {
  import opened Types
  import opened Adapters
  import opened Protocol
  import opened Safety

  /** This step takes the target of `k` from absent to present. */
  predicate CreatesTarget(reg: Registry, s: State, l: Label, k: CrKey) {
    TargetKey(reg, k) !in s.objs && TargetKey(reg, k) in Step(reg, s, l).objs
  }

  /** ... but the reply to the Patch was lost, so no event follows. */
  predicate CreatesUnheard(reg: Registry, s: State, l: Label, k: CrKey) {
    CreatesTarget(reg, s, l, k) && l.Operator? && l.out.Lost?
  }

  /** ... but the target was still there when getTarget looked, and vanished in between. */
  predicate CreatesUnseen(reg: Registry, s: State, l: Label, k: CrKey) {
    && CreatesTarget(reg, s, l, k) && l.Operator? && !l.out.Lost?
    && LaneOf(s, l.k).pc.ApplyTarget? && !LaneOf(s, l.k).pc.absent
  }

  datatype Tally = Tally(created: nat, unheard: nat, unseen: nat)

  function Count(reg: Registry, s: State, ls: seq<Label>, k: CrKey): Tally
    decreases |ls|
  {
    if ls == [] then Tally(0, 0, 0)
    else
      var rest := Count(reg, Step(reg, s, ls[0]), ls[1..], k);
      Tally(rest.created + if CreatesTarget(reg, s, ls[0], k) then 1 else 0,
            rest.unheard + if CreatesUnheard(reg, s, ls[0], k) then 1 else 0,
            rest.unseen + if CreatesUnseen(reg, s, ls[0], k) then 1 else 0)
  }

  /** Only the operator, and only for this resource, creates its target. */
  ghost predicate OnlyOperatorCreates(reg: Registry, ls: seq<Label>, k: CrKey) {
    && (forall i :: 0 <= i < |ls| && ls[i].Vendor? && ls[i].o == TargetKey(reg, k) ==> !ls[i].vop.Create?)
    && (forall k' :: k' != k ==> TargetKey(reg, k) !in Owned(reg, k'))
    && (forall i :: 0 < i < |Owned(reg, k)| ==> Owned(reg, k)[i] != TargetKey(reg, k))
  }

  /** What getTarget saw as absent is still absent when the Patch goes out. */
  predicate AbsenceHolds(reg: Registry, s: State, k: CrKey) {
    LaneOf(s, k).pc.ApplyTarget? && LaneOf(s, k).pc.absent ==> TargetKey(reg, k) !in s.objs
  }

  lemma TargetUntouched(reg: Registry, s: State, l: Label, k: CrKey)
    requires Lawful(reg) && Inv(reg, s) && OnlyOperatorCreates(reg, [l], k)
    requires !(l.Operator? && l.k == k && LaneOf(s, k).pc.ApplyTarget?)
    ensures TargetKey(reg, k) !in s.objs ==> TargetKey(reg, k) !in Step(reg, s, l).objs
  {
    assert [l][0] == l;
    if l.Operator? {
      var lane := LaneOf(s, l.k);
      assert LaneInv(l.k.kind, lane);
      if !lane.pc.Idle? { assert lane.log[lane.cursor] == Some(lane.pc.cr); }
      FocusIsOwned(reg, l.k, lane.pc);
      CallOnObject(reg, l.k, lane, Lookup(s.objs, Focus(reg, l.k, lane.pc)), l.read, l.out);
      if l.k == k && lane.pc.Extras? && !WritesCr(reg, k, lane.pc) {
        assert Owned(reg, k)[lane.pc.next + 1] == Focus(reg, k, lane.pc);
      }
      if l.k == k && lane.pc.Extras? && WritesCr(reg, k, lane.pc) {
        WritingCall(reg, k, lane, Lookup(s.objs, Focus(reg, k, lane.pc)), l.read, l.out);
      }
    }
  }

  /** The Patch of the target: created or not, heard or not, seen absent before or not. */
  lemma PatchEvent(reg: Registry, s: State, l: Label, k: CrKey)
    requires l.Operator? && l.k == k && LaneOf(s, k).pc.ApplyTarget? && AbsenceHolds(reg, s, k)
    ensures !LaneOf(Step(reg, s, l), k).pc.ApplyTarget?
    ensures LaneOf(Step(reg, s, l), k).events
            + (if CreatesUnheard(reg, s, l, k) then 1 else 0) + (if CreatesUnseen(reg, s, l, k) then 1 else 0)
            == LaneOf(s, k).events + if CreatesTarget(reg, s, l, k) then 1 else 0
  {
  }

  /** Other steps record nothing, and only getTarget can start to rely on an absence. */
  lemma NoEventElsewhere(reg: Registry, s: State, l: Label, k: CrKey)
    requires !(l.Operator? && l.k == k && LaneOf(s, k).pc.ApplyTarget?)
    ensures var t := Step(reg, s, l);
            && LaneOf(t, k).events == LaneOf(s, k).events
            && (LaneOf(t, k).pc.ApplyTarget? && LaneOf(t, k).pc.absent && LaneOf(t, k).pc != LaneOf(s, k).pc ==>
                  TargetKey(reg, k) !in t.objs)
  {
    var lane := LaneOf(s, k);
    if l.Operator? && l.k == k && !lane.pc.Idle? && WritesCr(reg, k, lane.pc) {
      WritingCall(reg, k, lane, Lookup(s.objs, Focus(reg, k, lane.pc)), l.read, l.out);
    }
  }

  /** Step by step: an event is recorded exactly when the target is created and neither of
      the two mishaps strikes. */
  lemma EventStep(reg: Registry, s: State, l: Label, k: CrKey)
    requires Lawful(reg) && Inv(reg, s) && AbsenceHolds(reg, s, k) && OnlyOperatorCreates(reg, [l], k)
    ensures AbsenceHolds(reg, Step(reg, s, l), k)
    ensures LaneOf(Step(reg, s, l), k).events
            + (if CreatesUnheard(reg, s, l, k) then 1 else 0) + (if CreatesUnseen(reg, s, l, k) then 1 else 0)
            == LaneOf(s, k).events + if CreatesTarget(reg, s, l, k) then 1 else 0
  {
    if l.Operator? && l.k == k && LaneOf(s, k).pc.ApplyTarget? {
      PatchEvent(reg, s, l, k);
    } else {
      TargetUntouched(reg, s, l, k);
      NoEventElsewhere(reg, s, l, k);
    }
  }

  lemma {:induction false} EventRun(reg: Registry, s: State, ls: seq<Label>, k: CrKey)
    requires Lawful(reg) && Inv(reg, s) && AbsenceHolds(reg, s, k) && OnlyOperatorCreates(reg, ls, k)
    ensures var c := Count(reg, s, ls, k);
            LaneOf(Run(reg, s, ls), k).events + c.unheard + c.unseen == LaneOf(s, k).events + c.created
    decreases |ls|
  {
    if ls != [] {
      assert OnlyOperatorCreates(reg, [ls[0]], k);
      assert OnlyOperatorCreates(reg, ls[1..], k);
      EventStep(reg, s, ls[0], k);
      StepKeepsInv(reg, s, ls[0]);
      EventRun(reg, Step(reg, s, ls[0]), ls[1..], k);
    }
  }

  /** The books balance over every run in which only the operator creates the target: events
      recorded, creations whose reply was lost, and creations after the target vanished
      between getTarget and Patch add up to all creations. So events never exceed creations,
      and equal them exactly when neither mishap occurs. */
  lemma EventsBalance(reg: Registry, ls: seq<Label>, k: CrKey)
    requires Lawful(reg) && OnlyOperatorCreates(reg, ls, k)
    ensures var c := Count(reg, INIT, ls, k); var events := LaneOf(Run(reg, INIT, ls), k).events;
            && events + c.unheard + c.unseen == c.created
            && (events == c.created <==> c.unheard == 0 && c.unseen == 0)
  {
    InitInv(reg);
    EventRun(reg, INIT, ls, k);
  }
}

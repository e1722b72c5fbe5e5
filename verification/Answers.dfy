/**
  What a Reconcile call returns (internal/reconciler/reconciler.go:142-243), read off what
  happened during it: for every schedule, an error exactly when something went wrong, and
  otherwise an answer that follows from the version read and is borne out by what is stored.
 */
module Answers {
  import opened Types
  import opened Adapters
  import opened Protocol
  import opened Safety
  import opened Convergence

  predicate Own(l: Label, k: CrKey) {
    (l.Operator? || l.Crash?) && l.k == k
  }

  /** The part of the schedule that happens during the call ... */
  function Used(reg: Registry, s: State, k: CrKey, schedule: seq<Label>): seq<Label>
    decreases |schedule|
  {
    if schedule == [] then []
    else
      var t := Step(reg, s, schedule[0]);
      [schedule[0]]
      + if Own(schedule[0], k) && LaneOf(t, k).pc.Idle? then [] else Used(reg, t, k, schedule[1..])
  }

  /** ... and what is left of it afterwards. */
  function Leftover(reg: Registry, s: State, k: CrKey, schedule: seq<Label>): seq<Label>
    decreases |schedule|
  {
    if schedule == [] then []
    else
      var t := Step(reg, s, schedule[0]);
      if Own(schedule[0], k) && LaneOf(t, k).pc.Idle? then schedule[1..] else Leftover(reg, t, k, schedule[1..])
  }

  // ---------------------------------------------------------------- what can go wrong

  /** An Update or Status().Update of a version that is not the newest. */
  predicate StaleWrite(reg: Registry, k: CrKey, lane: Lane) {
    WritesCr(reg, k, lane.pc) && lane.cursor + 1 != |lane.log|
  }

  /** A Patch of the target that the vendor's schema rejects. */
  predicate Refused(reg: Registry, s: State, k: CrKey) {
    var pc := LaneOf(s, k).pc;
    pc.ApplyTarget? && !Accepted(reg, k, pc.cr, s.objs)
  }

  /** In that state, this step is a crash of the reconcile or one of its calls going wrong. */
  predicate Trouble(reg: Registry, s: State, k: CrKey, l: Label) {
    || (l.Crash? && l.k == k)
    || (l.Operator? && l.k == k && (!l.out.Done? || StaleWrite(reg, k, LaneOf(s, k)) || Refused(reg, s, k)))
  }

  predicate InTrouble(reg: Registry, s: State, k: CrKey, ls: seq<Label>)
    decreases |ls|
  {
    ls != [] && (Trouble(reg, s, k, ls[0]) || InTrouble(reg, Step(reg, s, ls[0]), k, ls[1..]))
  }

  /** The last step was a call of the reconcile, and it has no further one to make. */
  predicate Returned(reg: Registry, s: State, k: CrKey, ls: seq<Label>) {
    ls != [] && ls[|ls| - 1].Operator? && ls[|ls| - 1].k == k && LaneOf(Run(reg, s, ls), k).pc.Idle?
  }

  // ---------------------------------------------------------------- what an answer means

  predicate Holding(cr: Option<Cr>) {
    cr.Some? && FINALIZER in cr.value.finalizers
  }

  /** The answer for that version read, with that version stored at the end. */
  predicate Fitting(read: Option<Cr>, stored: Option<Cr>, res: Result) {
    if read.None? then res == Nothing
    else if read.value.deleting then
      res == Nothing && (Holding(read) ==> !Holding(stored))
    else if !Holding(read) then
      res == Requeue && Holding(stored)
    else
      stored.Some? && res == RequeueAfter(if stored.value.status.ready then 300 else 15)
  }

  function VersionRead(s: State, k: CrKey): Option<Cr> {
    At(LaneOf(s, k).log, LaneOf(s, k).cursor)
  }

  // ---------------------------------------------------------------- for every schedule

  lemma InterferenceKeepsPc(reg: Registry, s: State, k: CrKey, l: Label)
    requires PcOk(LaneOf(s, k)) && !Own(l, k)
    ensures var lane, lane' := LaneOf(s, k), LaneOf(Step(reg, s, l), k);
            PcOk(lane') && lane'.pc == lane.pc && lane'.cursor == lane.cursor
  {
  }

  /** One call: it goes wrong, or takes the reconcile one call further, or answers. */
  lemma CallAnswers(reg: Registry, s: State, k: CrKey, l: Label)
    requires PcOk(LaneOf(s, k)) && l.Operator? && l.k == k
    ensures var t := Step(reg, s, l); var res := Returns(reg, k, LaneOf(s, k), l.out);
            && PcOk(LaneOf(t, k))
            && (Trouble(reg, s, k, l) ==> LaneOf(t, k).pc.Idle? && res == Error)
            && (!Trouble(reg, s, k, l) && LaneOf(t, k).pc.Idle? ==>
                  res != Error && Fitting(VersionRead(t, k), Current(t, k), res))
  {
    var lane := LaneOf(s, k);
    var f := Focus(reg, k, lane.pc);
    if !lane.pc.Idle? && WritesCr(reg, k, lane.pc) {
      WritingCall(reg, k, lane, Lookup(s.objs, f), l.read, l.out);
    } else if !lane.pc.Idle? {
      QuietCall(reg, k, lane, Lookup(s.objs, f), l.read, l.out);
    }
  }

  lemma CrashTwice(reg: Registry, s: State, k: CrKey)
    ensures Step(reg, Step(reg, s, Crash(k)), Crash(k)) == Step(reg, s, Crash(k))
  {
  }

  /** The step that ends the call is the last one it uses. */
  lemma UsedEnds(reg: Registry, s: State, k: CrKey, schedule: seq<Label>)
    requires schedule != [] && Own(schedule[0], k) && LaneOf(Step(reg, s, schedule[0]), k).pc.Idle?
    ensures Used(reg, s, k, schedule) == [schedule[0]] && Leftover(reg, s, k, schedule) == schedule[1..]
    ensures Run(reg, s, [schedule[0]]) == Step(reg, s, schedule[0]) == Drive(reg, s, k, schedule)
    ensures Returned(reg, s, k, [schedule[0]]) <==> schedule[0].Operator?
  {
    RunOne(reg, s, schedule[0]);
  }

  lemma {:induction false} UsedIsPrefix(reg: Registry, s: State, k: CrKey, schedule: seq<Label>)
    ensures schedule == Used(reg, s, k, schedule) + Leftover(reg, s, k, schedule)
    decreases |schedule|
  {
    if schedule != [] {
      var t := Step(reg, s, schedule[0]);
      assert schedule == [schedule[0]] + schedule[1..];
      if !(Own(schedule[0], k) && LaneOf(t, k).pc.Idle?) { UsedIsPrefix(reg, t, k, schedule[1..]); }
    }
  }

  /** The call is the run of the labels it used, cut off by a crash if it never returned. */
  lemma {:induction false} UsedIsRun(reg: Registry, s: State, k: CrKey, schedule: seq<Label>)
    ensures var used := Used(reg, s, k, schedule);
            var t := Run(reg, s, used);
            Drive(reg, s, k, schedule) == if Returned(reg, s, k, used) then t else Step(reg, t, Crash(k))
    decreases |schedule|
  {
    if schedule != [] {
      var l := schedule[0];
      var t := Step(reg, s, l);
      if Own(l, k) && LaneOf(t, k).pc.Idle? {
        UsedEnds(reg, s, k, schedule);
        if l.Crash? { CrashTwice(reg, s, k); }
      } else {
        UsedIsRun(reg, t, k, schedule[1..]);
        UsedTail(reg, s, k, schedule);
        assert Drive(reg, s, k, schedule) == Drive(reg, t, k, schedule[1..]);
      }
    }
  }

  /** A step that does not end the call belongs in front of what the rest of it uses. */
  lemma UsedTail(reg: Registry, s: State, k: CrKey, schedule: seq<Label>)
    requires schedule != []
    requires !(Own(schedule[0], k) && LaneOf(Step(reg, s, schedule[0]), k).pc.Idle?)
    ensures var t := Step(reg, s, schedule[0]);
            var used, rest := Used(reg, s, k, schedule), Used(reg, t, k, schedule[1..]);
            && used == [schedule[0]] + rest && used[1..] == rest
            && Run(reg, s, used) == Run(reg, t, rest)
            && (Returned(reg, s, k, used) <==> Returned(reg, t, k, rest))
  {
    var used := Used(reg, s, k, schedule);
    assert used[0] == schedule[0];
    assert |used| > 1 ==> used[|used| - 1] == used[1..][|used| - 2];
  }

  /** It errs exactly when it did not get to its end or something went wrong on the way, and
      any other answer fits. */
  lemma {:induction false} AnswersFit(reg: Registry, s: State, k: CrKey, schedule: seq<Label>)
    requires PcOk(LaneOf(s, k))
    ensures var used := Used(reg, s, k, schedule);
            var t := Run(reg, s, used);
            var res := DriveResult(reg, s, k, schedule);
            && (res == Error <==> !Returned(reg, s, k, used) || InTrouble(reg, s, k, used))
            && (res != Error ==> Fitting(VersionRead(t, k), Current(t, k), res))
    decreases |schedule|
  {
    if schedule != [] {
      var l := schedule[0];
      var t := Step(reg, s, l);
      if l.Operator? && l.k == k { CallAnswers(reg, s, k, l); }
      if Own(l, k) && LaneOf(t, k).pc.Idle? {
        UsedEnds(reg, s, k, schedule);
        assert !InTrouble(reg, t, k, [l][1..]);
      } else {
        if !Own(l, k) { InterferenceKeepsPc(reg, s, k, l); }
        AnswersFit(reg, t, k, schedule[1..]);
        UsedTail(reg, s, k, schedule);
      }
    }
  }
}

/**
  How stale a stored status can be (internal/reconciler/reconciler.go:228-242,
  README.md:133-137). Nothing watches the target: a reconcile runs when the custom resource
  changes and when an earlier one asked to be called again; the work queue keeps the earliest
  pending request. This is the protocol with a clock: time is in seconds, a reconcile takes
  none and no call of it fails, and everyone else may step at any moment.
 */
module Polling {
  import opened Types
  import opened ServerSideApply
  import opened StatusMirror
  import opened Adapters
  import opened Protocol
  import opened Safety
  import opened Convergence
  import opened Rounds

  datatype Moment =
    | Second                    // a second passes, unless a reconcile is due
    | Other(l: Label)           // a step of anyone but this resource's reconciler
    | Reconcile(backoff: nat)   // a reconcile; if it returns an error, the queue retries after `backoff`

  /** `dirty` says the resource changed since its last reconcile began, `refused` that the
      last reconcile returned an error (the vendor rejected the manifest). */
  datatype Clock = Clock(now: nat, s: State, due: Option<nat>, dirty: bool, refused: bool)

  function Plan(reg: Registry, k: CrKey): seq<Outcome> {
    seq(|Owned(reg, k)| + 3, _ => Done)
  }

  /** A request still waiting in the queue is kept if it is earlier. */
  function Earliest(now: nat, due: Option<nat>, again: nat): Option<nat> {
    if due.Some? && now < due.value < again then due else Some(again)
  }

  function Requested(now: nat, due: Option<nat>, res: Result, backoff: nat): Option<nat> {
    match res
    case Error => Earliest(now, due, now + backoff)
    case Nothing => if due.Some? && now < due.value then due else None
    case Requeue => Some(now)
    case RequeueAfter(seconds) => Earliest(now, due, now + seconds)
  }

  predicate Changed(s: State, t: State, k: CrKey) {
    LaneOf(s, k).log != LaneOf(t, k).log
  }

  function Advance(reg: Registry, k: CrKey, c: Clock, e: Moment): Clock {
    match e
    case Second => if c.due.Some? && c.due.value <= c.now then c else c.(now := c.now + 1)
    case Other(l) =>
      if (l.Operator? || l.Crash?) && l.k == k then c
      else
        var t := Step(reg, c.s, l);
        // The watch on the custom resource sees every new version.
        if Changed(c.s, t, k) then c.(s := t, due := Some(c.now), dirty := true) else c.(s := t)
    case Reconcile(backoff) =>
      var t := Attempt(reg, c.s, k, Plan(reg, k));
      var res := DriveResult(reg, c.s, k, Calls(k, Plan(reg, k)));
      var dirty := Changed(c.s, t, k);
      Clock(c.now, t, if dirty then Some(c.now) else Requested(c.now, c.due, res, backoff), dirty, res.Error?)
  }

  function Timeline(reg: Registry, k: CrKey, es: seq<Moment>): Clock
    decreases |es|
  {
    if es == [] then Clock(0, INIT, None, false, false)
    else Advance(reg, k, Timeline(reg, k, es[..|es| - 1]), es[|es| - 1])
  }

  /** The status is what mirroring that state's target, at that state's generation, gives:
      readiness, phase, both counts and the Ready condition. */
  ghost predicate Mirrors(reg: Registry, k: CrKey, st: CrStatus, s: State) {
    && TargetKey(reg, k) in s.objs && Current(s, k).Some?
    && var a := reg(k.kind);
    var ts := a.extract(Values(s.objs[TargetKey(reg, k)].entries));
    && st.ready == ts.ready && st.phase == ts.phase
    && st.count == a.counts(ts).0 && st.readyCount == a.counts(ts).1
    && ReadyCondition(ts, a.reasons, Current(s, k).value.generation) in st.conditions
  }

  /** The target was in that state at the j-th moment, and the next look at it is due in time. */
  ghost predicate SeenAt(reg: Registry, k: CrKey, es: seq<Moment>, j: nat)
    requires j <= |es| && Current(Timeline(reg, k, es).s, k).Some?
  {
    var c, past := Timeline(reg, k, es), Timeline(reg, k, es[..j]);
    var st := Current(c.s, k).value.status;
    && Mirrors(reg, k, st, past.s)
    && past.now <= c.now
    && c.due.Some? && c.now <= c.due.value <= past.now + Interval(st.ready)
  }

  /** Live, with our finalizer, reconciled since it last changed, and not refused. */
  predicate Tended(c: Clock, k: CrKey) {
    && Current(c.s, k).Some? && LiveWithFinalizer(Current(c.s, k).value)
    && !c.dirty && !c.refused
  }

  ghost predicate Fresh(reg: Registry, k: CrKey, es: seq<Moment>) {
    var c := Timeline(reg, k, es);
    && Inv(reg, c.s) && LaneOf(c.s, k).pc.Idle?
    && (c.dirty ==> c.due == Some(c.now))
    && (Tended(c, k) ==> exists j :: 0 <= j <= |es| && SeenAt(reg, k, es, j))
  }

  /** A reconcile after which the resource is tended has stored what the target shows now, and
      asks to come back accordingly. */
  lemma ReconcileMirrors(reg: Registry, k: CrKey, s: State)
    requires Lawful(reg) && Inv(reg, s) && LaneOf(s, k).pc.Idle?
    ensures var t := Attempt(reg, s, k, Plan(reg, k));
            var res := DriveResult(reg, s, k, Calls(k, Plan(reg, k)));
            && Inv(reg, t) && LaneOf(t, k).pc.Idle?
            && (!Changed(s, t, k) && !res.Error? && Current(t, k).Some? && LiveWithFinalizer(Current(t, k).value) ==>
                  && Mirrors(reg, k, Current(t, k).value.status, t)
                  && res == RequeueAfter(Interval(Current(t, k).value.status.ready)))
  {
    var plan := Plan(reg, k);
    var t := Attempt(reg, s, k, plan);
    var res := DriveResult(reg, s, k, Calls(k, plan));
    assert LaneInv(k.kind, LaneOf(s, k));
    AttemptIsRound(reg, k, s, plan);
    AttemptAnswers(reg, k, s, plan);
    DriveIsRun(reg, s, k, Calls(k, plan));
    var ls :| t == Run(reg, s, ls);
    RunKeepsInv(reg, s, ls);
    if !Changed(s, t, k) && !res.Error? && Current(t, k).Some? && LiveWithFinalizer(Current(t, k).value) {
      AcceptedMirrors(reg, k, s, t, Current(t, k).value);
    }
  }

  lemma AcceptedMirrors(reg: Registry, k: CrKey, s: State, t: State, cr: Cr)
    requires Lawful(reg) && LaneInv(k.kind, LaneOf(s, k))
    requires Current(s, k) == Current(t, k) == Some(cr) && LiveWithFinalizer(cr)
    requires ViewOf(t, k) == Round(reg, k, ViewOf(s, k)) && Accepted(reg, k, cr, s.objs)
    ensures Mirrors(reg, k, cr.status, t)
    ensures cr.status.ready == reg(k.kind).extract(Values(AppliedTarget(reg, k, cr, s.objs).entries)).ready
  {
    var target := TargetKey(reg, k);
    assert OwnedDistinct(reg, k) && Owned(reg, k)[0] == target;
    WorkedOwn(reg, k, JobOf(cr), s.objs, |Owned(reg, k)|, 0);
    assert Lookup(t.objs, target) == Some(AppliedTarget(reg, k, cr, s.objs));
    var a := reg(k.kind);
    var ts := a.extract(Values(AppliedTarget(reg, k, cr, s.objs).entries));
    assert cr == StatusMirrored(a, cr, Values(AppliedTarget(reg, k, cr, s.objs).entries));
    ViewWellformed(k, s);
    MirrorLaws(cr.status, ts, a.reasons, a.counts(ts), cr.generation);
  }

  lemma EarlierPrefix(reg: Registry, k: CrKey, es: seq<Moment>, j: nat)
    requires es != [] && j < |es|
    ensures Timeline(reg, k, es[..|es| - 1][..j]) == Timeline(reg, k, es[..j])
  {
    assert es[..|es| - 1][..j] == es[..j];
  }

  /** Anything but a reconcile: the stored status stays, and time does not run past the next
      look. */
  lemma WaitKeepsFresh(reg: Registry, k: CrKey, es: seq<Moment>)
    requires Lawful(reg) && es != [] && !es[|es| - 1].Reconcile? && Fresh(reg, k, es[..|es| - 1])
    ensures Fresh(reg, k, es)
  {
    var init, e := es[..|es| - 1], es[|es| - 1];
    var was, c := Timeline(reg, k, init), Timeline(reg, k, es);
    if e.Other? {
      StepKeepsInv(reg, was.s, e.l);
    }
    if Tended(c, k) {
      WaitKeepsTended(reg, k, was, e);
      var j :| 0 <= j <= |init| && SeenAt(reg, k, init, j);
      EarlierPrefix(reg, k, es, j);
      assert SeenAt(reg, k, es, j);
    }
  }

  lemma WaitKeepsTended(reg: Registry, k: CrKey, was: Clock, e: Moment)
    requires !e.Reconcile? && Tended(Advance(reg, k, was, e), k)
    ensures var c := Advance(reg, k, was, e);
            && Tended(was, k) && LaneOf(c.s, k).log == LaneOf(was.s, k).log && c.due == was.due && was.now <= c.now
            && (was.due.Some? && was.now <= was.due.value ==> c.now <= was.due.value)
  {
  }

  lemma {:induction false} AlwaysFresh(reg: Registry, k: CrKey, es: seq<Moment>)
    requires Lawful(reg)
    ensures Fresh(reg, k, es)
    decreases |es|
  {
    if es == [] {
      InitInv(reg);
    } else {
      var init, e := es[..|es| - 1], es[|es| - 1];
      AlwaysFresh(reg, k, init);
      if e.Reconcile? {
        var was, c := Timeline(reg, k, init), Timeline(reg, k, es);
        ReconcileMirrors(reg, k, was.s);
        assert es[..|es|] == es;
        if Tended(c, k) { assert SeenAt(reg, k, es, |es|); }
      } else {
        WaitKeepsFresh(reg, k, es);
      }
    }
  }

  /** Bounded staleness: at every moment of every timed run, the stored status of a live
      resource with our finalizer is the mirror of its target as it was at some moment of that
      run, at most 15 seconds ago if it says not ready and at most 5 minutes ago if it says
      ready. Left out are only a resource that has changed and is being reconciled in this very
      second (no time passes before that), and one whose last reconcile was refused by the
      vendor. */
  lemma BoundedStaleness(reg: Registry, k: CrKey, es: seq<Moment>)
    requires Lawful(reg)
    ensures var c := Timeline(reg, k, es);
            && (c.dirty ==> Advance(reg, k, c, Second) == c)
            && (Tended(c, k) ==>
                  var st := Current(c.s, k).value.status;
                  exists j :: 0 <= j <= |es| &&
                    var past := Timeline(reg, k, es[..j]);
                    && Mirrors(reg, k, st, past.s)
                    && past.now <= c.now <= past.now + (if st.ready then 300 else 15))
  {
    AlwaysFresh(reg, k, es);
    var c := Timeline(reg, k, es);
    if Tended(c, k) {
      var j :| 0 <= j <= |es| && SeenAt(reg, k, es, j);
      assert Mirrors(reg, k, Current(c.s, k).value.status, Timeline(reg, k, es[..j]).s);
    }
  }

  /** The queue holds that moment, unless an earlier one to come was in it. */
  predicate DueAt(c: Clock, again: nat, due: Option<nat>) {
    due == if c.due.Some? && c.now < c.due.value && c.due.value < again then c.due else Some(again)
  }

  /** What is due after a reconcile that took `c` to `d`: the next one at once after a change,
      `backoff` after a refusal, and if it left the resource tended in 5 minutes if ready and in
      15 seconds if not. A request already waiting for an earlier moment stays. */
  predicate NextDue(k: CrKey, c: Clock, d: Clock, backoff: nat) {
    && (d.dirty ==> d.due == Some(c.now))
    && (!d.dirty && d.refused ==> DueAt(c, c.now + backoff, d.due))
    && (Tended(d, k) ==> DueAt(c, c.now + (if Current(d.s, k).value.status.ready then 300 else 15), d.due))
    && (!d.dirty && !d.refused && !Tended(d, k) ==>
          d.due == if c.due.Some? && c.due.value > c.now then c.due else None)
  }

  /** Polling is neither late nor early: in every timed run the next look is due to the second. */
  lemma NextLook(reg: Registry, k: CrKey, es: seq<Moment>, backoff: nat)
    requires Lawful(reg)
    ensures var c := Timeline(reg, k, es);
            NextDue(k, c, Advance(reg, k, c, Reconcile(backoff)), backoff)
  {
    AlwaysFresh(reg, k, es);
    LookAfter(reg, k, Timeline(reg, k, es), backoff);
  }

  lemma LookAfter(reg: Registry, k: CrKey, c: Clock, backoff: nat)
    requires Lawful(reg) && Inv(reg, c.s) && LaneOf(c.s, k).pc.Idle?
    ensures NextDue(k, c, Advance(reg, k, c, Reconcile(backoff)), backoff)
  {
    ReconcileMirrors(reg, k, c.s);
    RestAsksNothing(reg, k, c.s);
  }

  /** A reconcile that changes nothing on a resource that is not ours to tend asks for no other. */
  lemma RestAsksNothing(reg: Registry, k: CrKey, s: State)
    requires Lawful(reg) && Inv(reg, s) && LaneOf(s, k).pc.Idle?
    ensures var t := Attempt(reg, s, k, Plan(reg, k));
            var res := DriveResult(reg, s, k, Calls(k, Plan(reg, k)));
            !Changed(s, t, k) && !res.Error? && !(Current(t, k).Some? && LiveWithFinalizer(Current(t, k).value))
            ==> res == Nothing
  {
    assert LaneInv(k.kind, LaneOf(s, k));
    AttemptAnswers(reg, k, s, Plan(reg, k));
    AttemptIsRound(reg, k, s, Plan(reg, k));
  }

  /** No busy loop: in every timed run, a reconcile right after two others changes nothing and
      leaves nothing due at once. */
  lemma SettlesDown(reg: Registry, k: CrKey, es: seq<Moment>, backoff: nat)
    requires Lawful(reg) && backoff > 0
    requires |es| >= 2 && es[|es| - 1].Reconcile? && es[|es| - 2].Reconcile?
    ensures var c := Timeline(reg, k, es);
            var d := Advance(reg, k, c, Reconcile(backoff));
            && LaneOf(d.s, k).log == LaneOf(c.s, k).log && d.s.objs == c.s.objs
            && !d.dirty && (d.due.Some? ==> d.now < d.due.value)
  {
    var c := Timeline(reg, k, es);
    AlwaysFresh(reg, k, es);
    assert LaneInv(k.kind, LaneOf(c.s, k));
    SettledByTwo(reg, k, es);
    SettledIsQuiet(reg, k, c.s, Plan(reg, k));
    LookAfter(reg, k, c, backoff);
  }

  lemma SettledByTwo(reg: Registry, k: CrKey, es: seq<Moment>)
    requires Lawful(reg) && |es| >= 2 && es[|es| - 1].Reconcile? && es[|es| - 2].Reconcile?
    ensures Settled(reg, k, ViewOf(Timeline(reg, k, es).s, k))
  {
    var one, none := es[..|es| - 1], es[..|es| - 2];
    assert one[..|one| - 1] == none && one[|one| - 1] == es[|es| - 2];
    AlwaysFresh(reg, k, one);
    AlwaysFresh(reg, k, none);
    var s, t := Timeline(reg, k, none).s, Timeline(reg, k, one).s;
    assert LaneInv(k.kind, LaneOf(s, k)) && LaneInv(k.kind, LaneOf(t, k));
    AttemptIsRound(reg, k, s, Plan(reg, k));
    AttemptIsRound(reg, k, t, Plan(reg, k));
    ViewWellformed(k, s);
    RoundSettles(reg, k, ViewOf(s, k));
    RoundSettles(reg, k, ViewOf(t, k));
  }
}

/**
  Custom resources whose owned objects differ do not interfere: any interleaving of their
  reconciles is equivalent to running one after the other.
 */
module Independence {
  import opened Types
  import opened Adapters
  import opened Protocol
  import opened Safety

  ghost predicate Disjoint(reg: Registry, k: CrKey, k': CrKey) {
    forall o :: o in Owned(reg, k) ==> o !in Owned(reg, k')
  }

  /** A step of this resource: its user, its reconciler, or a crash of it. */
  predicate About(l: Label, k: CrKey) {
    !l.Vendor? && l.k == k
  }

  lemma FocusInReach(reg: Registry, s: State, k: CrKey)
    requires Lawful(reg) && Inv(reg, s)
    ensures Focus(reg, k, LaneOf(s, k).pc) in Owned(reg, k)
  {
    var lane := LaneOf(s, k);
    assert LaneInv(k.kind, lane);
    if !lane.pc.Idle? { assert lane.log[lane.cursor] == Some(lane.pc.cr); }
    FocusIsOwned(reg, k, lane.pc);
  }

  lemma StoresCommute(objs: map<ObjKey, Obj>, o: ObjKey, x: Option<Obj>, o': ObjKey, x': Option<Obj>)
    requires o != o'
    ensures Store(Store(objs, o, x), o', x') == Store(Store(objs, o', x'), o, x)
    ensures Lookup(Store(objs, o, x), o') == Lookup(objs, o')
  {
  }

  /** What a step of `k` makes of its lane and of the object in its focus. */
  function Effect(reg: Registry, k: CrKey, lane: Lane, cur: Option<Obj>, l: Label): (Lane, Option<Obj>)
    requires About(l, k)
  {
    match l
    case User(_, op) => (lane.(log := UserWrite(k.kind, lane.log, op)), cur)
    case Operator(_, read, out) => Call(reg, k, lane, cur, read, out)
    case Crash(_) => (Stop(lane), cur)
  }

  /** A step reads and writes nothing but that lane and that object. */
  lemma StepIsLocal(reg: Registry, s: State, k: CrKey, l: Label)
    requires About(l, k)
    ensures var f := Focus(reg, k, LaneOf(s, k).pc);
            var e := Effect(reg, k, LaneOf(s, k), Lookup(s.objs, f), l);
            Step(reg, s, l) == State.State(s.lanes[k := e.0], Store(s.objs, f, e.1))
  {
    var f := Focus(reg, k, LaneOf(s, k).pc);
    assert Store(s.objs, f, Lookup(s.objs, f)) == s.objs;
  }

  /** Any two steps of two independent resources commute. */
  lemma StepsCommute(reg: Registry, s: State, k: CrKey, l: Label, k': CrKey, l': Label)
    requires Lawful(reg) && Inv(reg, s) && k != k' && Disjoint(reg, k, k') && About(l, k) && About(l', k')
    ensures Step(reg, Step(reg, s, l), l') == Step(reg, Step(reg, s, l'), l)
  {
    FocusInReach(reg, s, k);
    FocusInReach(reg, s, k');
    LocalStepsCommute(reg, s, k, l, k', l');
  }

  lemma LocalStepsCommute(reg: Registry, s: State, k: CrKey, l: Label, k': CrKey, l': Label)
    requires k != k' && About(l, k) && About(l', k')
    requires Focus(reg, k, LaneOf(s, k).pc) != Focus(reg, k', LaneOf(s, k').pc)
    ensures Step(reg, Step(reg, s, l), l') == Step(reg, Step(reg, s, l'), l)
  {
    var lane, lane' := LaneOf(s, k), LaneOf(s, k');
    var f, f' := Focus(reg, k, lane.pc), Focus(reg, k', lane'.pc);
    var e := Effect(reg, k, lane, Lookup(s.objs, f), l);
    var e' := Effect(reg, k', lane', Lookup(s.objs, f'), l');
    StoresCommute(s.objs, f, e.1, f', e'.1);
    StoresCommute(s.objs, f', e'.1, f, e.1);
    StepIsLocal(reg, s, k, l);
    var a := State.State(s.lanes[k := e.0], Store(s.objs, f, e.1));
    assert Step(reg, a, l') == State.State(a.lanes[k' := e'.0], Store(a.objs, f', e'.1))
           by { StepIsLocal(reg, a, k', l'); }
    StepIsLocal(reg, s, k', l');
    var b := State.State(s.lanes[k' := e'.0], Store(s.objs, f', e'.1));
    assert Step(reg, b, l) == State.State(b.lanes[k := e.0], Store(b.objs, f, e.1)) by { StepIsLocal(reg, b, k, l); }
    assert s.lanes[k := e.0][k' := e'.0] == s.lanes[k' := e'.0][k := e.0];
  }

  function Only(ls: seq<Label>, k: CrKey): seq<Label> {
    if ls == [] then []
    else if About(ls[0], k) then [ls[0]] + Only(ls[1..], k)
    else Only(ls[1..], k)
  }

  lemma {:induction false} StepPastRun(reg: Registry, s: State, k: CrKey, l: Label, k': CrKey, ls: seq<Label>)
    requires Lawful(reg) && Inv(reg, s) && k != k' && Disjoint(reg, k, k') && About(l, k)
    requires forall i :: 0 <= i < |ls| ==> About(ls[i], k')
    ensures Run(reg, Step(reg, s, l), ls) == Step(reg, Run(reg, s, ls), l)
    decreases |ls|
  {
    if ls != [] {
      StepsCommute(reg, s, k, l, k', ls[0]);
      StepKeepsInv(reg, s, ls[0]);
      StepPastRun(reg, Step(reg, s, ls[0]), k, l, k', ls[1..]);
    }
  }

  lemma OnlyAbout(ls: seq<Label>, k: CrKey)
    ensures forall i :: 0 <= i < |Only(ls, k)| ==> About(Only(ls, k)[i], k)
  {
  }

  lemma {:induction false} InterleavingFrom(reg: Registry, s: State, ls: seq<Label>, k: CrKey, k': CrKey)
    requires Lawful(reg) && Inv(reg, s) && k != k' && Disjoint(reg, k, k')
    requires forall i :: 0 <= i < |ls| ==> About(ls[i], k) || About(ls[i], k')
    ensures Run(reg, s, ls) == Run(reg, Run(reg, s, Only(ls, k)), Only(ls, k'))
    decreases |ls|
  {
    if ls != [] {
      var t := Step(reg, s, ls[0]);
      StepKeepsInv(reg, s, ls[0]);
      InterleavingFrom(reg, t, ls[1..], k, k');
      OnlyAbout(ls[1..], k);
      if About(ls[0], k) {
        assert Only(ls, k)[1..] == Only(ls[1..], k);
      } else {
        assert Only(ls, k')[1..] == Only(ls[1..], k');
        assert forall o :: o in Owned(reg, k') ==> o !in Owned(reg, k);
        StepPastRun(reg, s, k', ls[0], k, Only(ls[1..], k));
      }
    }
  }

  /** Independent resources are serializable: from any reachable state, any interleaving of
      the steps of two of them (with failures, lost replies, stale reads, user edits and
      crashes) ends exactly where running all steps of one, then all of the other, ends. */
  lemma Serializable(reg: Registry, before: seq<Label>, ls: seq<Label>, k: CrKey, k': CrKey)
    requires Lawful(reg) && k != k' && Disjoint(reg, k, k')
    requires forall i :: 0 <= i < |ls| ==> About(ls[i], k) || About(ls[i], k')
    ensures var s := Run(reg, INIT, before);
            && Run(reg, s, ls) == Run(reg, Run(reg, s, Only(ls, k)), Only(ls, k'))
            && Run(reg, s, ls) == Run(reg, Run(reg, s, Only(ls, k')), Only(ls, k))
  {
    InitInv(reg);
    RunKeepsInv(reg, INIT, before);
    InterleavingFrom(reg, Run(reg, INIT, before), ls, k, k');
    assert forall o :: o in Owned(reg, k') ==> o !in Owned(reg, k);
    InterleavingFrom(reg, Run(reg, INIT, before), ls, k', k);
  }
}

/**
  The life of one object in a run: every object that a single custom resource owns is what
  Server-Side Apply makes of the Patches and the foreign writes since it was created. So the
  laws about histories of writes hold over whole runs, with edits, failures and crashes.
 */
module Histories {
  import opened Types
  import opened ServerSideApply
  import opened Adapters
  import opened Protocol
  import opened Safety
  import opened Convergence
  import opened Rounds

  /** The object is this resource's, and no other resource reconciled in this run owns it too. */
  ghost predicate AloneOn(reg: Registry, ls: seq<Label>, k: CrKey, o: ObjKey) {
    && o in Owned(reg, k)
    && forall i :: 0 <= i < |ls| && ls[i].Operator? && ls[i].k != k ==> o !in Owned(reg, ls[i].k)
  }

  /** What the call at that program counter would apply to the object in its focus. */
  function IntentAt(reg: Registry, k: CrKey, pc: Pc): Option<Fields> {
    match pc
    case ApplyTarget(cr, _) => Some(Manifest(reg, k, cr.spec))
    case Extras(cr, _, n) => if n < |ExtrasOf(reg, k, cr.spec)| then ExtrasOf(reg, k, cr.spec)[n].desired else None
    case _ => None
  }

  /** The step is an apply of the object for `k` that takes effect. */
  predicate Patches(reg: Registry, s: State, l: Label, k: CrKey, o: ObjKey) {
    && l.Operator? && l.k == k && !l.out.Failed?
    && var pc := LaneOf(s, k).pc;
    && Focus(reg, k, pc) == o && IntentAt(reg, k, pc).Some?
    && (pc.ApplyTarget? ==> Accepted(reg, k, pc.cr, s.objs))
  }

  /** What a step writes into the object, if it is there before and after. */
  function WritesOf(reg: Registry, s: State, l: Label, k: CrKey, o: ObjKey): seq<Write> {
    if Patches(reg, s, l, k, o) then [Reapply(IntentAt(reg, k, LaneOf(s, k).pc).value)]
    else if l.Vendor? && l.o == o && o in s.objs && l.vop.Change? && !l.vop.write.Reapply? then [l.vop.write]
    else []
  }

  /** The writes to the object since it was last created, after the first `n` steps. */
  function Story(reg: Registry, ls: seq<Label>, k: CrKey, o: ObjKey, n: nat): seq<Write>
    requires n <= |ls|
  {
    if n == 0 || o !in StateAt(reg, ls, n).objs then []
    else Story(reg, ls, k, o, n - 1) + WritesOf(reg, StateAt(reg, ls, n - 1), ls[n - 1], k, o)
  }

  /** What it held when it was created: nothing if a Patch created it. */
  function Origin(reg: Registry, ls: seq<Label>, k: CrKey, o: ObjKey, n: nat): Entries
    requires n <= |ls|
  {
    if n == 0 || o !in StateAt(reg, ls, n).objs then map[]
    else
      var s := StateAt(reg, ls, n - 1);
      if o in s.objs then Origin(reg, ls, k, o, n - 1)
      else if Patches(reg, s, ls[n - 1], k, o) then map[]
      else StateAt(reg, ls, n).objs[o].entries
  }

  /** A call for the owner: it patches the object, leaves it, or deletes it. */
  lemma OwnerCall(reg: Registry, s: State, l: Label, k: CrKey, o: ObjKey)
    requires l.Operator? && l.k == k
    ensures var t := Step(reg, s, l);
            if Patches(reg, s, l, k, o) then
              && o in t.objs
              && t.objs[o].entries == Apply(if o in s.objs then s.objs[o].entries else map[], reg(k.kind).fieldManager,
                                            IntentAt(reg, k, LaneOf(s, k).pc).value)
            else o in t.objs ==> o in s.objs && t.objs[o].entries == s.objs[o].entries
  {
    var lane := LaneOf(s, k);
    if Focus(reg, k, lane.pc) == o {
      if WritesCr(reg, k, lane.pc) { WritingCall(reg, k, lane, Lookup(s.objs, o), l.read, l.out); }
    }
  }

  /** One step in the life of an exclusive object. */
  lemma StepWrites(reg: Registry, s: State, l: Label, k: CrKey, o: ObjKey)
    requires Lawful(reg) && Inv(reg, s) && AloneOn(reg, [l], k, o)
    requires o in Step(reg, s, l).objs
    ensures var t := Step(reg, s, l); var ws := WritesOf(reg, s, l, k, o); var manager := reg(k.kind).fieldManager;
            && (o in s.objs ==> t.objs[o].entries == Play(s.objs[o].entries, manager, ws))
            && (o !in s.objs && Patches(reg, s, l, k, o) ==> t.objs[o].entries == Play(map[], manager, ws))
            && (o !in s.objs && !Patches(reg, s, l, k, o) ==> ws == [])
  {
    var e := if o in s.objs then s.objs[o].entries else map[];
    var manager := reg(k.kind).fieldManager;
    forall w ensures Play(e, manager, [w]) == (match w
                                               case Reapply(intent) => Apply(e, manager, intent)
                                               case Put(writer, p, v) => PutOne(e, writer, p, v)
                                               case Drop(p) => e - {p})
    {
      assert [w][..0] == [];
    }
    assert [l][0] == l;
    if l.Operator? {
      if l.k == k {
        OwnerCall(reg, s, l, k, o);
      } else {
        var lane := LaneOf(s, l.k);
        assert LaneInv(l.k.kind, lane);
        if !lane.pc.Idle? { assert lane.log[lane.cursor] == Some(lane.pc.cr); }
        FocusIsOwned(reg, l.k, lane.pc);
      }
    }
  }

  lemma {:induction false} PlayConcat(start: Entries, manager: string, a: seq<Write>, b: seq<Write>)
    ensures Play(start, manager, a + b) == Play(Play(start, manager, a), manager, b)
    decreases |b|
  {
    if b == [] {
      assert a + b == a;
    } else {
      var n := |b| - 1;
      assert (a + b)[..|a + b| - 1] == a + b[..n] && (a + b)[|a + b| - 1] == b[n];
      PlayConcat(start, manager, a, b[..n]);
    }
  }

  /** After any run the object is what its writes since creation make of its origin. */
  lemma {:induction false} ObjectIsPlayed(reg: Registry, ls: seq<Label>, k: CrKey, o: ObjKey, n: nat)
    requires Lawful(reg) && AloneOn(reg, ls, k, o) && n <= |ls| && o in StateAt(reg, ls, n).objs
    ensures StateAt(reg, ls, n).objs[o].entries
            == Play(Origin(reg, ls, k, o, n), reg(k.kind).fieldManager, Story(reg, ls, k, o, n))
  {
    if n > 0 {
      var s := StateAt(reg, ls, n - 1);
      StateAfter(reg, ls, n - 1);
      InitInv(reg);
      RunKeepsInv(reg, INIT, ls[..n - 1]);
      assert [ls[n - 1]][0] == ls[n - 1];
      StepWrites(reg, s, ls[n - 1], k, o);
      var ws := WritesOf(reg, s, ls[n - 1], k, o);
      if o in s.objs {
        ObjectIsPlayed(reg, ls, k, o, n - 1);
        PlayConcat(Origin(reg, ls, k, o, n - 1), reg(k.kind).fieldManager, Story(reg, ls, k, o, n - 1), ws);
      } else {
        assert Story(reg, ls, k, o, n - 1) == [];
        assert [] + ws == ws;
      }
    }
  }

  // ---------------------------------------------------------------- main results

  /** Foreign writers of the object stay off every path this operator ever asked for on it. */
  ghost predicate StayOff(reg: Registry, ls: seq<Label>, k: CrKey, o: ObjKey, next: seq<Write>) {
    Apart(Origin(reg, ls, k, o, |ls|), reg(k.kind).fieldManager, Story(reg, ls, k, o, |ls|) + next)
  }

  /** What the foreign writers alone would have left of the object. */
  function ForeignPart(reg: Registry, ls: seq<Label>, k: CrKey, o: ObjKey): Entries {
    Play(Origin(reg, ls, k, o, |ls|), reg(k.kind).fieldManager, ForeignOnly(Story(reg, ls, k, o, |ls|)))
  }

  /** History independence over runs: whatever specs were applied, however often reconciles
      failed or crashed, the object is its foreign part plus the intent of the latest Patch. */
  lemma RunForgets(reg: Registry, ls: seq<Label>, k: CrKey, o: ObjKey)
    requires Lawful(reg) && AloneOn(reg, ls, k, o) && o in Run(reg, INIT, ls).objs && StayOff(reg, ls, k, o, [])
    ensures Run(reg, INIT, ls).objs[o].entries
            == ForeignPart(reg, ls, k, o) + Sole(reg(k.kind).fieldManager, LatestIntent(Story(reg, ls, k, o, |ls|)))
  {
    var story := Story(reg, ls, k, o, |ls|);
    assert ls[..|ls|] == ls && story + [] == story;
    ObjectIsPlayed(reg, ls, k, o, |ls|);
    HistoryIndependence(Origin(reg, ls, k, o, |ls|), reg(k.kind).fieldManager, story);
  }

  /** What a spec asks for on the i-th owned object. */
  function WantedOn(reg: Registry, k: CrKey, spec: CrSpec, i: nat): Option<Fields> {
    if 0 < i <= |ExtrasOf(reg, k, spec)| then ExtrasOf(reg, k, spec)[i - 1].desired else Some(Manifest(reg, k, spec))
  }

  lemma ForeignAfter(ws: seq<Write>, intent: Fields)
    ensures ForeignOnly(ws + [Reapply(intent)]) == ForeignOnly(ws) && LatestIntent(ws + [Reapply(intent)]) == intent
  {
    assert (ws + [Reapply(intent)])[..|ws|] == ws;
  }

  /** One more apply on top of any history leaves the foreign part and that intent. */
  lemma AppliedForgets(reg: Registry, ls: seq<Label>, k: CrKey, o: ObjKey, intent: Fields, applier: Applier)
    requires Lawful(reg) && AloneOn(reg, ls, k, o) && StayOff(reg, ls, k, o, [Reapply(intent)])
    ensures ApplyObj(Lookup(Run(reg, INIT, ls).objs, o), reg(k.kind).fieldManager, intent, applier).entries
            == ForeignPart(reg, ls, k, o) + Sole(reg(k.kind).fieldManager, intent)
  {
    var n, manager := |ls|, reg(k.kind).fieldManager;
    var origin, story := Origin(reg, ls, k, o, n), Story(reg, ls, k, o, n);
    var ws := story + [Reapply(intent)];
    assert ls[..n] == ls && ws[..|story|] == story;
    if o in StateAt(reg, ls, n).objs {
      ObjectIsPlayed(reg, ls, k, o, n);
    } else {
      assert story == [] && origin == map[];
    }
    assert Play(origin, manager, ws) == Apply(Play(origin, manager, story), manager, intent);
    HistoryIndependence(origin, manager, ws);
    ForeignAfter(story, intent);
  }

  /** After that run the resource is idle, live with our finalizer, and its manifest accepted. */
  ghost predicate Reconcilable(reg: Registry, ls: seq<Label>, k: CrKey) {
    var s := Run(reg, INIT, ls);
    && LaneOf(s, k).pc.Idle?
    && Current(s, k).Some? && LiveWithFinalizer(Current(s, k).value)
    && Accepted(reg, k, Current(s, k).value, s.objs)
  }

  /** What the spec stored after that run asks for on the i-th owned object. */
  function WantedAfter(reg: Registry, ls: seq<Label>, k: CrKey, i: nat): Option<Fields>
    requires Current(Run(reg, INIT, ls), k).Some?
  {
    WantedOn(reg, k, Current(Run(reg, INIT, ls), k).value.spec, i)
  }

  /** That object after one more reconcile. */
  function Reconciled(reg: Registry, ls: seq<Label>, k: CrKey, i: nat, plan: seq<Outcome>): Option<Obj>
    requires i < |Owned(reg, k)|
  {
    Lookup(Attempt(reg, Run(reg, INIT, ls), k, plan).objs, Owned(reg, k)[i])
  }

  /** A successful reconcile is one more apply, or a delete, of each owned object. */
  lemma ReconcileWorks(reg: Registry, ls: seq<Label>, k: CrKey, i: nat, plan: seq<Outcome>)
    requires Lawful(reg) && Reconcilable(reg, ls, k) && FaultFree(reg, k, plan) && i < |Owned(reg, k)|
    ensures var s := Run(reg, INIT, ls);
            var want := WantedAfter(reg, ls, k, i);
            var cur := Lookup(s.objs, Owned(reg, k)[i]);
            Reconciled(reg, ls, k, i, plan)
            == if want.Some?
               then Some(ApplyObj(cur, reg(k.kind).fieldManager, want.value, Applier(k, Current(s, k).value.uid)))
               else DeleteObj(cur)
  {
    var s := Run(reg, INIT, ls);
    var cr := Current(s, k).value;
    InitInv(reg);
    RunKeepsInv(reg, INIT, ls);
    assert LaneInv(k.kind, LaneOf(s, k)) && OwnedDistinct(reg, k);
    AttemptIsRound(reg, k, s, plan);
    WorkedOwn(reg, k, JobOf(cr), s.objs, |Owned(reg, k)|, i);
  }

  /** What is there follows the spec: after any run, whoever else acts on the same objects, once
      a reconcile of a live resource goes through, every object the spec asks for is there and
      the manager owns exactly the asked paths of it, with their values, and every other object
      it owns is removed. */
  lemma ReconcileFollowsSpec(reg: Registry, ls: seq<Label>, k: CrKey, i: nat, plan: seq<Outcome>)
    requires Lawful(reg) && Reconcilable(reg, ls, k) && FaultFree(reg, k, plan) && i < |Owned(reg, k)|
    ensures var want := WantedAfter(reg, ls, k, i);
            var x := Reconciled(reg, ls, k, i, plan);
            if want.Some? then InSync(reg(k.kind), x, want.value)
            else Removed(Lookup(Run(reg, INIT, ls).objs, Owned(reg, k)[i]), x)
  {
    var s := Run(reg, INIT, ls);
    var want := WantedAfter(reg, ls, k, i);
    ReconcileWorks(reg, ls, k, i, plan);
    if want.Some? {
      InSyncAfterApply(reg(k.kind), Lookup(s.objs, Owned(reg, k)[i]), want.value, Applier(k, Current(s, k).value.uid));
    }
  }

  /** And nothing else of the operator's is: if no other resource of this run shares the object,
      it is its foreign part plus exactly what the current spec asks for. Which specs came
      before, and which of their reconciles failed where, does not show. */
  lemma ReconcileForgets(reg: Registry, ls: seq<Label>, k: CrKey, i: nat, plan: seq<Outcome>)
    requires Lawful(reg) && Reconcilable(reg, ls, k) && FaultFree(reg, k, plan)
    requires i < |Owned(reg, k)| && AloneOn(reg, ls, k, Owned(reg, k)[i])
    requires var want := WantedAfter(reg, ls, k, i);
             want.Some? && StayOff(reg, ls, k, Owned(reg, k)[i], [Reapply(want.value)])
    ensures var x := Reconciled(reg, ls, k, i, plan);
            && x.Some?
            && x.value.entries
               == ForeignPart(reg, ls, k, Owned(reg, k)[i])
                  + Sole(reg(k.kind).fieldManager, WantedAfter(reg, ls, k, i).value)
  {
    var uid := Current(Run(reg, INIT, ls), k).value.uid;
    ReconcileWorks(reg, ls, k, i, plan);
    AppliedForgets(reg, ls, k, Owned(reg, k)[i], WantedAfter(reg, ls, k, i).value, Applier(k, uid));
  }

  /** What foreign writers leave is not on a path any Patch in the object's life asked for. */
  lemma AskedIsNotForeign(reg: Registry, ls: seq<Label>, k: CrKey, o: ObjKey, intent: Fields, p: Path)
    requires StayOff(reg, ls, k, o, [Reapply(intent)]) && Wanted(Story(reg, ls, k, o, |ls|), p)
    ensures p !in ForeignPart(reg, ls, k, o)
  {
    var story := Story(reg, ls, k, o, |ls|);
    var ws := story + [Reapply(intent)];
    ForeignAfter(story, intent);
    assert ws[..|story|] == story;
    WantedPrefix(ws);
    ForeignApart(Origin(reg, ls, k, o, |ls|), reg(k.kind).fieldManager, ws, ws);
  }

  /** In particular, a path that any Patch in the object's life asked for is on it afterwards
      exactly if the current spec asks for it. */
  lemma PathsFollowSpec(reg: Registry, ls: seq<Label>, k: CrKey, i: nat, plan: seq<Outcome>, p: Path)
    requires Lawful(reg) && Reconcilable(reg, ls, k) && FaultFree(reg, k, plan)
    requires i < |Owned(reg, k)| && AloneOn(reg, ls, k, Owned(reg, k)[i])
    requires var want := WantedAfter(reg, ls, k, i);
             want.Some? && StayOff(reg, ls, k, Owned(reg, k)[i], [Reapply(want.value)])
    requires Wanted(Story(reg, ls, k, Owned(reg, k)[i], |ls|), p)
    ensures var x := Reconciled(reg, ls, k, i, plan);
            x.Some? && (p in x.value.entries <==> p in WantedAfter(reg, ls, k, i).value)
  {
    ReconcileForgets(reg, ls, k, i, plan);
    AskedIsNotForeign(reg, ls, k, Owned(reg, k)[i], WantedAfter(reg, ls, k, i).value, p);
  }
}

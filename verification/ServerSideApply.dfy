/**
  Forced Server-Side Apply on one object, as `applyTarget` issues it
  (internal/reconciler/reconciler.go:261-268): every leaf path carries its value and
  the set of field managers that own it.
 */
module ServerSideApply {
  import opened Types

  datatype Entry = Entry(value: Value, owners: set<string>)

  type Entries = map<Path, Entry>

  function Values(e: Entries): Fields {
    map p | p in e :: e[p].value
  }

  function OwnedBy(e: Entries, manager: string): set<Path> {
    set p | p in e && manager in e[p].owners
  }

  /** A path survives an apply unless this manager alone owned it and no longer wants it. */
  predicate Survives(e: Entries, manager: string, intent: Fields, p: Path) {
    p in intent || (p in e && e[p].owners != {manager})
  }

  function Merged(e: Entries, manager: string, intent: Fields, p: Path): Entry
    requires Survives(e, manager, intent, p)
  {
    if p in intent then
      if p in e && e[p].value == intent[p] then Entry(intent[p], e[p].owners + {manager})
      else Entry(intent[p], {manager})
    else
      Entry(e[p].value, e[p].owners - {manager})
  }

  /** Forced apply: the intent wins every conflict, paths the manager gave up are released
      or removed, and everything else stays. */
  function Apply(e: Entries, manager: string, intent: Fields): Entries {
    map p | p in e.Keys + intent.Keys && Survives(e, manager, intent, p) :: Merged(e, manager, intent, p)
  }

  /** After an apply the manager owns exactly the paths of its intent, with the intent's
      values, whatever the object held before. */
  lemma AppliedOwnership(e: Entries, manager: string, intent: Fields)
    ensures OwnedBy(Apply(e, manager, intent), manager) == intent.Keys
    ensures forall p :: p in intent ==>
              p in Apply(e, manager, intent) && Apply(e, manager, intent)[p].value == intent[p]
  {
    var a := Apply(e, manager, intent);
    assert forall p :: p in a <==> p in e.Keys + intent.Keys && Survives(e, manager, intent, p);
    assert forall p :: p in intent ==> p in a;
  }

  /** Re-applying the same intent changes neither values nor owners. */
  lemma ApplyIdempotent(e: Entries, manager: string, intent: Fields)
    ensures Apply(Apply(e, manager, intent), manager, intent) == Apply(e, manager, intent)
  {
    var once := Apply(e, manager, intent);
    var twice := Apply(once, manager, intent);
    assert forall p :: p in once ==> Survives(once, manager, intent, p);
    assert once.Keys == twice.Keys;
    forall p | p in once ensures once[p] == twice[p] {
      if p in intent {
        assert once[p].value == intent[p] && manager in once[p].owners;
        assert once[p].owners + {manager} == once[p].owners;
      } else {
        assert once[p].owners - {manager} == once[p].owners;
      }
    }
  }

  /** Paths that the manager neither asks for nor owns are untouched. */
  lemma ApplyFrame(e: Entries, manager: string, intent: Fields, p: Path)
    requires p !in intent
    requires p in e ==> manager !in e[p].owners
    ensures p in Apply(e, manager, intent) <==> p in e
    ensures p in e ==> Apply(e, manager, intent)[p] == e[p]
  {
    if p in e {
      assert e[p].owners - {manager} == e[p].owners;
    }
  }

  /** What a forced apply makes of each single leaf. An asked value that is there already is
      shared with its owners; any other conflict is won, and the manager alone owns the leaf. A
      leaf no longer asked for goes if nobody else owns it, and otherwise stays with the
      others. */
  lemma AppliedLeaf(e: Entries, manager: string, intent: Fields, p: Path)
    ensures p in intent ==>
              && p in Apply(e, manager, intent)
              && Apply(e, manager, intent)[p].value == intent[p]
              && Apply(e, manager, intent)[p].owners
                 == (if p in e && e[p].value == intent[p] then e[p].owners + {manager} else {manager})
    ensures p !in intent && (p !in e || e[p].owners == {manager}) ==> p !in Apply(e, manager, intent)
    ensures p !in intent && p in e && e[p].owners != {manager} ==>
              && p in Apply(e, manager, intent)
              && Apply(e, manager, intent)[p] == Entry(e[p].value, e[p].owners - {manager})
  {
  }

  // ---------------------------------------------------------------- histories

  /** One write in the life of an object: an apply by this operator, or a foreign manager
      setting or dropping a single leaf through an ordinary update. */
  datatype Write =
    | Reapply(intent: Fields)
    | Put(writer: string, path: Path, value: Value)
    | Drop(path: Path)

  function PutOne(e: Entries, writer: string, p: Path, v: Value): Entries {
    if p in e && e[p].value == v then e else e[p := Entry(v, {writer})]
  }

  function Play(e: Entries, manager: string, ws: seq<Write>): Entries
    decreases |ws|
  {
    if ws == [] then e
    else
      var before := Play(e, manager, ws[..|ws| - 1]);
      match ws[|ws| - 1]
      case Reapply(intent) => Apply(before, manager, intent)
      case Put(writer, p, v) => PutOne(before, writer, p, v)
      case Drop(p) => before - {p}
  }

  /** The same history with this operator taken out of it. */
  function ForeignOnly(ws: seq<Write>): seq<Write> {
    if ws == [] then []
    else
      var rest := ForeignOnly(ws[..|ws| - 1]);
      if ws[|ws| - 1].Reapply? then rest else rest + [ws[|ws| - 1]]
  }

  /** The intent of the most recent apply, empty if there was none. */
  function LatestIntent(ws: seq<Write>): Fields {
    if ws == [] then map[]
    else if ws[|ws| - 1].Reapply? then ws[|ws| - 1].intent
    else LatestIntent(ws[..|ws| - 1])
  }

  function Sole(manager: string, intent: Fields): Entries {
    map p | p in intent :: Entry(intent[p], {manager})
  }

  ghost predicate Wanted(ws: seq<Write>, p: Path) {
    exists i :: 0 <= i < |ws| && ws[i].Reapply? && p in ws[i].intent
  }

  /** Foreign writers use their own manager name and stay off every path this operator asks
      for anywhere in the history; so does what the object held at the start. */
  ghost predicate Apart(start: Entries, manager: string, ws: seq<Write>) {
    && (forall i :: 0 <= i < |ws| && ws[i].Put? ==> ws[i].writer != manager && !Wanted(ws, ws[i].path))
    && (forall i :: 0 <= i < |ws| && ws[i].Drop? ==> !Wanted(ws, ws[i].path))
    && (forall p :: p in start ==> manager !in start[p].owners && !Wanted(ws, p))
  }

  lemma WantedPrefix(ws: seq<Write>)
    requires ws != []
    ensures forall p :: Wanted(ws[..|ws| - 1], p) ==> Wanted(ws, p)
  {
    var init := ws[..|ws| - 1];
    forall p | Wanted(init, p) ensures Wanted(ws, p) {
      var i :| 0 <= i < |init| && init[i].Reapply? && p in init[i].intent;
      assert ws[i] == init[i];
    }
  }

  lemma ApartPrefix(start: Entries, manager: string, ws: seq<Write>)
    requires ws != [] && Apart(start, manager, ws)
    ensures Apart(start, manager, ws[..|ws| - 1])
  {
    WantedPrefix(ws);
    var init := ws[..|ws| - 1];
    assert forall i :: 0 <= i < |init| ==> init[i] == ws[i];
  }

  lemma LatestIsWanted(ws: seq<Write>, p: Path)
    requires p in LatestIntent(ws)
    ensures Wanted(ws, p)
  {
    var n := |ws| - 1;
    if !ws[n].Reapply? {
      LatestIsWanted(ws[..n], p);
      WantedPrefix(ws);
    }
  }

  /** What foreign writers alone leave behind is never owned by the operator and never on a
      path it asks for. */
  lemma {:induction false} ForeignApart(start: Entries, manager: string, ws: seq<Write>, all: seq<Write>)
    requires Apart(start, manager, ws)
    requires forall i :: 0 <= i < |ws| && ws[i].Put? ==> !Wanted(all, ws[i].path)
    requires forall p :: p in start ==> !Wanted(all, p)
    ensures forall p :: p in Play(start, manager, ForeignOnly(ws)) ==>
              manager !in Play(start, manager, ForeignOnly(ws))[p].owners && !Wanted(all, p)
    decreases |ws|
  {
    if ws != [] {
      var n := |ws| - 1;
      ApartPrefix(start, manager, ws);
      ForeignApart(start, manager, ws[..n], all);
      if !ws[n].Reapply? {
        var rest := ForeignOnly(ws[..n]);
        assert (rest + [ws[n]])[..|rest|] == rest;
      }
    }
  }

  /** History independence: after any mix of applies and foreign writes on other paths, the
      object is what the foreign writers alone would have left, plus the latest intent owned
      by this manager alone. No earlier intent leaves a trace. */
  lemma {:induction false} HistoryIndependence(start: Entries, manager: string, ws: seq<Write>)
    requires Apart(start, manager, ws)
    ensures Play(start, manager, ws) == Play(start, manager, ForeignOnly(ws)) + Sole(manager, LatestIntent(ws))
    decreases |ws|
  {
    if ws == [] {
    } else {
      var n := |ws| - 1;
      ApartPrefix(start, manager, ws);
      HistoryIndependence(start, manager, ws[..n]);
      var foreign := Play(start, manager, ForeignOnly(ws[..n]));
      var latest := LatestIntent(ws[..n]);
      assert forall p :: p in latest ==> Wanted(ws, p) by {
        forall p | p in latest ensures Wanted(ws, p) {
          LatestIsWanted(ws[..n], p);
          WantedPrefix(ws);
        }
      }
      if ws[n].Reapply? {
        assert forall p :: p in foreign ==> manager !in foreign[p].owners && !Wanted(ws, p) by {
          ForeignApart(start, manager, ws[..n], ws);
        }
        assert forall p :: p in ws[n].intent ==> Wanted(ws, p);
        ReplaceIntent(foreign, manager, latest, ws[n].intent);
      } else {
        var rest := ForeignOnly(ws[..n]);
        assert (rest + [ws[n]])[..|rest|] == rest;
        KeepIntent(foreign, manager, latest, ws[n]);
      }
    }
  }

  /** So a path this operator ever asked for is on the object exactly while the latest intent
      asks for it. */
  lemma AskedPathsFollowLatest(start: Entries, manager: string, ws: seq<Write>, p: Path)
    requires Apart(start, manager, ws) && Wanted(ws, p)
    ensures p in Play(start, manager, ws) <==> p in LatestIntent(ws)
    ensures p in LatestIntent(ws) ==> Play(start, manager, ws)[p] == Entry(LatestIntent(ws)[p], {manager})
  {
    HistoryIndependence(start, manager, ws);
    ForeignApart(start, manager, ws, ws);
  }

  lemma KeepIntent(foreign: Entries, manager: string, intent: Fields, w: Write)
    requires !w.Reapply? && w.path !in intent
    ensures w.Put? ==> PutOne(foreign + Sole(manager, intent), w.writer, w.path, w.value)
                       == PutOne(foreign, w.writer, w.path, w.value) + Sole(manager, intent)
    ensures (foreign + Sole(manager, intent)) - {w.path} == (foreign - {w.path}) + Sole(manager, intent)
  {
  }

  lemma ReplaceIntent(foreign: Entries, manager: string, was: Fields, next: Fields)
    requires forall p :: p in foreign ==> manager !in foreign[p].owners && p !in was && p !in next
    ensures Apply(foreign + Sole(manager, was), manager, next) == foreign + Sole(manager, next)
  {
    var e := foreign + Sole(manager, was);
    var a := Apply(e, manager, next);
    var want := foreign + Sole(manager, next);
    assert forall p :: p in a <==> p in want;
    forall p | p in a ensures a[p] == want[p] {
      if p in next {
        if p in e && e[p].value == next[p] {
          assert e[p].owners + {manager} == {manager};
        }
      } else {
        assert foreign[p].owners - {manager} == foreign[p].owners;
      }
    }
  }

  // ---------------------------------------------------------------- shared leaves

  /** A history that never disputes this value at this path: applies ask for just it or for
      nothing there, and other writers leave the path alone. */
  ghost predicate Undisputed(ws: seq<Write>, p: Path, v: Value) {
    forall i :: 0 <= i < |ws| ==>
      match ws[i]
      case Reapply(intent) => p in intent ==> intent[p] == v
      case Put(_, q, _) => q != p
      case Drop(q) => q != p
  }

  predicate AsksLast(ws: seq<Write>, p: Path) {
    p in LatestIntent(ws)
  }

  /** What the owners of such a leaf are: the other managers are never driven out of it, and
      this one owns it exactly while its latest intent asks for it. */
  function SharedOwners(owners: set<string>, manager: string, ws: seq<Write>, p: Path): set<string> {
    if forall i :: 0 <= i < |ws| ==> !ws[i].Reapply? then owners
    else if AsksLast(ws, p) then owners + {manager}
    else owners - {manager}
  }

  /** Co-owners keep their leaf: through any undisputed history, however often this manager
      asked for the value and gave it up again, a leaf someone else owns keeps its value and all
      its other owners. */
  lemma {:induction false} CoOwnersKeepTheirLeaf(start: Entries, manager: string, ws: seq<Write>, p: Path)
    requires p in start && start[p].owners - {manager} != {} && Undisputed(ws, p, start[p].value)
    ensures var e := Play(start, manager, ws);
            p in e && e[p] == Entry(start[p].value, SharedOwners(start[p].owners, manager, ws, p))
    decreases |ws|
  {
    if ws != [] {
      var n := |ws| - 1;
      var init, last := ws[..n], ws[n];
      assert forall i :: 0 <= i < n ==> init[i] == ws[i];
      assert Undisputed(init, p, start[p].value);
      CoOwnersKeepTheirLeaf(start, manager, init, p);
      var before := Play(start, manager, init);
      assert before[p].owners - {manager} == start[p].owners - {manager};
      if last.Reapply? {
        AppliedLeaf(before, manager, last.intent, p);
        assert ws[n].Reapply?;
        assert before[p].owners + {manager} == start[p].owners + {manager};
      }
    }
  }

  /** In short: asked for once, shared; asked for no more, back with the others alone. */
  lemma SharedThenGivenUp(e: Entries, manager: string, f: Fields, g: Fields, p: Path)
    requires p in e && p in f && e[p].value == f[p]
    ensures var once := Play(e, manager, [Reapply(f)]);
            p in once && once[p] == Entry(e[p].value, e[p].owners + {manager})
    ensures e[p].owners - {manager} != {} && p !in g ==>
              var twice := Play(e, manager, [Reapply(f), Reapply(g)]);
              p in twice && twice[p] == Entry(e[p].value, e[p].owners - {manager})
  {
    var ws := [Reapply(f), Reapply(g)];
    assert [Reapply(f)][..0] == [] && ws[..1] == [Reapply(f)];
    AppliedLeaf(e, manager, f, p);
    var once := Apply(e, manager, f);
    AppliedLeaf(once, manager, g, p);
    assert once[p].owners - {manager} == e[p].owners - {manager};
  }

  // ---------------------------------------------------------------- disputed leaves

  lemma PlayOne(e: Entries, manager: string, w: Write)
    ensures w.Reapply? ==> Play(e, manager, [w]) == Apply(e, manager, w.intent)
    ensures w.Put? ==> Play(e, manager, [w]) == PutOne(e, w.writer, w.path, w.value)
  {
    assert [w][..0] == [];
    assert Play(e, manager, [w][..0]) == e;
  }

  lemma PlayTwo(e: Entries, manager: string, w: Write, w': Write)
    ensures Play(e, manager, [w, w']) == Play(Play(e, manager, [w]), manager, [w'])
  {
    assert [w, w'][..1] == [w];
    PlayOne(Play(e, manager, [w]), manager, w');
  }

  /** Another manager overwrites a leaf this one applied: the leaf is then theirs alone. The next
      apply that still asks for the old value takes it back alone, and one that does not ask for
      it leaves the other's value to them. */
  lemma OverwrittenLeaf(e: Entries, manager: string, f: Fields, g: Fields, other: string, p: Path, v: Value)
    requires p in f && f[p] != v && other != manager
    ensures var mine := Play(e, manager, [Reapply(f)]);
            var taken := Play(mine, manager, [Put(other, p, v)]);
            var after := Play(mine, manager, [Put(other, p, v), Reapply(g)]);
            && p in taken && taken[p] == Entry(v, {other})
            && p in after
            && (p !in g ==> after[p] == Entry(v, {other}))
            && (p in g && g[p] != v ==> after[p] == Entry(g[p], {manager}))
            && (p in g && g[p] == v ==> after[p] == Entry(v, {other, manager}))
  {
    var mine := Play(e, manager, [Reapply(f)]);
    PlayOne(e, manager, Reapply(f));
    AppliedLeaf(e, manager, f, p);
    PlayOne(mine, manager, Put(other, p, v));
    var taken := Play(mine, manager, [Put(other, p, v)]);
    PlayTwo(mine, manager, Put(other, p, v), Reapply(g));
    PlayOne(taken, manager, Reapply(g));
    AppliedLeaf(taken, manager, g, p);
    assert {other} - {manager} == {other};
  }
}

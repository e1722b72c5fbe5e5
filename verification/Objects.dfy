/**
  JSON objects as the adapters build them, maps within maps (Go's `map[string]any`), and the
  leaf paths Server-Side Apply sees of them.
 */
module Objects {
  import opened Types

  /** A map as the assignments `m[key] = value` that made it; the latest of a key counts. */
  datatype Object = Empty | Put(rest: Object, key: Seg, value: Tree)

  /** A list is a leaf: Server-Side Apply treats the lists built here as one value. */
  datatype Tree = Leaf(v: Value) | Node(o: Object)

  predicate Has(o: Object, k: Seg) {
    o.Put? && (o.key == k || Has(o.rest, k))
  }

  /** What stands at that path, if it is a leaf. An empty map is a leaf of its own. */
  function NodeAt(t: Tree, p: Path): Option<Value> {
    match t
    case Leaf(v) => if p.End? then Some(v) else None
    case Node(o) => if o.Empty? && p.End? then Some(EMPTY_MAP) else FieldAt(o, p)
  }

  function FieldAt(o: Object, p: Path): Option<Value> {
    match o
    case Empty => None
    case Put(rest, k, t) => if p.Dot? && p.head == k then NodeAt(t, p.tail) else FieldAt(rest, p)
  }

  /** The leaves of the object are exactly these. */
  ghost predicate Spells(o: Object, f: Fields) {
    forall p {:trigger FieldAt(o, p)} :: FieldAt(o, p) == if p in f then Some(f[p]) else None
  }

  function Under(k: Seg, f: Fields): Fields {
    map q | q in (set p | p in f :: Dot(k, p)) :: f[q.tail]
  }

  lemma UnderAt(k: Seg, f: Fields, p: Path)
    ensures p in Under(k, f) <==> p.Dot? && p.head == k && p.tail in f
    ensures p in Under(k, f) ==> Under(k, f)[p] == f[p.tail]
  {
    if p.Dot? && p.head == k { assert p == Dot(k, p.tail); }
  }

  lemma {:induction false} OnlyBelowKeys(o: Object, p: Path)
    ensures FieldAt(o, p).Some? ==> p.Dot? && Has(o, p.head)
  {
    if o.Put? && !(p.Dot? && p.head == o.key) { OnlyBelowKeys(o.rest, p); }
  }

  lemma TreeSpells(t: Tree) returns (f: Fields)
    ensures forall p :: NodeAt(t, p) == if p in f then Some(f[p]) else None
    decreases t
  {
    match t
    case Leaf(v) => f := map[End := v];
    case Node(o) =>
      if o.Empty? {
        f := map[End := EMPTY_MAP];
      } else {
        f := SomethingSpells(o);
        forall p ensures NodeAt(t, p) == if p in f then Some(f[p]) else None { assert FieldAt(o, p) == NodeAt(t, p); }
      }
  }

  lemma SomethingSpells(o: Object) returns (f: Fields)
    ensures Spells(o, f)
    decreases o
  {
    match o
    case Empty => f := map[];
    case Put(rest, k, t) =>
      var before := SomethingSpells(rest);
      var at := TreeSpells(t);
      f := (map p | p in before && !(p.Dot? && p.head == k) :: before[p]) + Under(k, at);
      forall p ensures FieldAt(o, p) == if p in f then Some(f[p]) else None {
        assert FieldAt(rest, p) == if p in before then Some(before[p]) else None;
        UnderAt(k, at, p);
        if p.Dot? { assert NodeAt(t, p.tail) == if p.tail in at then Some(at[p.tail]) else None; }
      }
  }

  /** The leaves of an object. */
  ghost function Flatten(o: Object): (f: Fields)
    ensures Spells(o, f)
  {
    assert exists f :: Spells(o, f) by { var f := SomethingSpells(o); }
    var f :| Spells(o, f);
    f
  }

  lemma FlattenUnique(o: Object, f: Fields)
    requires Spells(o, f)
    ensures Flatten(o) == f
  {
    var g := Flatten(o);
    forall p ensures (p in f <==> p in g) && (p in f ==> f[p] == g[p]) {
      assert FieldAt(o, p) == if p in f then Some(f[p]) else None;
    }
  }

  /** One leaf, if wanted. */
  function Opt(c: bool, p: Path, v: Value): Fields {
    if c then map[p := v] else map[]
  }

  lemma NotInSum(a: Fields, b: Fields, c: Fields, p: Path)
    requires p !in a && p !in b && p !in c
    ensures p !in a + b + c
  {
  }

  lemma SumAt(a: Fields, b: Fields, c: Fields, p: Path)
    requires p !in a && p !in c
    ensures p in a + b + c <==> p in b
    ensures p in b ==> (a + b + c)[p] == b[p]
  {
  }

  lemma SumKeeps(a: Fields, b: Fields, c: Fields, p: Path)
    requires p !in b && p !in c
    ensures p in a + b + c <==> p in a
    ensures p in a ==> (a + b + c)[p] == a[p]
  {
  }

  lemma PlusNothing(f: Fields)
    ensures f + map[] == f && map[] + f == f
  {
  }

  lemma UnderOne(k: Seg, p: Path, v: Value)
    ensures Under(k, map[p := v]) == map[Dot(k, p) := v]
  {
    var left, right := Under(k, map[p := v]), map[Dot(k, p) := v];
    forall q ensures (q in left <==> q in right) && (q in left ==> left[q] == right[q]) { UnderAt(k, map[p := v], q); }
  }

  lemma UnderNothing(k: Seg)
    ensures Under(k, map[]) == map[]
  {
  }

  // ---------------------------------------------------------------- one leaf at a time

  /** That leaf is there and has that value. */
  predicate Holds(f: Fields, p: Path, v: Value) {
    p in f && f[p] == v
  }

  ghost predicate Finds(f: Fields, p: Path, r: Option<Value>) {
    forall v {:trigger Holds(f, p, v)} :: Holds(f, p, v) <==> r == Some(v)
  }

  /** The leaf at that path, if there is one. */
  ghost function LeafAt(f: Fields, p: Path): (r: Option<Value>)
    ensures Finds(f, p, r)
  {
    assert exists r :: Finds(f, p, r) by { assert Finds(f, p, if p in f then Some(f[p]) else None); }
    var r :| Finds(f, p, r);
    r
  }

  lemma LeafAtIs(f: Fields, p: Path)
    ensures LeafAt(f, p) == if p in f then Some(f[p]) else None
  {
    var r := LeafAt(f, p);
    if r.Some? { assert Holds(f, p, r.value); }
    if p in f { assert Holds(f, p, f[p]); }
  }

  lemma AtSum(a: Fields, b: Fields, p: Path)
    ensures LeafAt(a + b, p) == if LeafAt(b, p).Some? then LeafAt(b, p) else LeafAt(a, p)
  {
    LeafAtIs(a, p);
    LeafAtIs(b, p);
    LeafAtIs(a + b, p);
  }

  lemma AtUnder(k: Seg, f: Fields, p: Path)
    ensures LeafAt(Under(k, f), p) == if p.Dot? && p.head == k then LeafAt(f, p.tail) else None
  {
    UnderAt(k, f, p);
    LeafAtIs(Under(k, f), p);
    if p.Dot? { LeafAtIs(f, p.tail); }
  }

  lemma AtOne(q: Path, v: Value, p: Path)
    ensures LeafAt(map[q := v], p) == if p == q then Some(v) else None
  {
    LeafAtIs(map[q := v], p);
  }

  lemma AtOpt(c: bool, q: Path, v: Value, p: Path)
    ensures LeafAt(Opt(c, q, v), p) == if c && p == q then Some(v) else None
  {
    LeafAtIs(Opt(c, q, v), p);
  }

  lemma AtSum3(a: Fields, b: Fields, c: Fields, p: Path)
    ensures LeafAt(a + b + c, p)
            == if LeafAt(c, p).Some? then LeafAt(c, p) else if LeafAt(b, p).Some? then LeafAt(b, p) else LeafAt(a, p)
  {
    AtSum(a + b, c, p);
    AtSum(a, b, p);
  }

  lemma AtSum4(a: Fields, b: Fields, c: Fields, d: Fields, p: Path)
    ensures LeafAt(a + b + c + d, p)
            == if LeafAt(d, p).Some? then LeafAt(d, p) else if LeafAt(c, p).Some? then LeafAt(c, p)
               else if LeafAt(b, p).Some? then LeafAt(b, p) else LeafAt(a, p)
  {
    AtSum(a + b + c, d, p);
    AtSum3(a, b, c, p);
  }

  /** Adding a block below a key that is not used yet; `inF` and `inG` are what the tables of the
      parts say. */
  lemma AtBlock(f: Fields, k: Seg, g: Fields, p: Path, v: Value, inF: bool, inG: bool)
    requires LeafAt(f, p) == Some(v) <==> inF
    requires p.Dot? && p.head == k ==> LeafAt(f, p) == None && (LeafAt(g, p.tail) == Some(v) <==> inG)
    ensures LeafAt(f + Under(k, g), p) == Some(v) <==> inF || (p.Dot? && p.head == k && inG)
  {
    AtSum(f, Under(k, g), p);
    AtUnder(k, g, p);
  }

  /** The same for one leaf, if wanted. */
  lemma AtLeaf(f: Fields, c: bool, k: Seg, value: Value, p: Path, v: Value, inF: bool)
    requires LeafAt(f, p) == Some(v) <==> inF
    requires p == P1(k) ==> LeafAt(f, p) == None
    ensures LeafAt(f + Opt(c, P1(k), value), p) == Some(v) <==> inF || (p == P1(k) && c && v == value)
    ensures p != P1(k) ==> LeafAt(f + Opt(c, P1(k), value), p) == LeafAt(f, p)
  {
    AtSum(f, Opt(c, P1(k), value), p);
    AtOpt(c, P1(k), value, p);
  }

  lemma AtUnder2(k: Seg, k': Seg, q: Path, v: Value, p: Path)
    ensures LeafAt(Under(k, Under(k', map[q := v])), p) == if p == Dot(k, Dot(k', q)) then Some(v) else None
  {
    AtUnder(k, Under(k', map[q := v]), p);
    if p.Dot? {
      AtUnder(k', map[q := v], p.tail);
      if p.tail.Dot? { AtOne(q, v, p.tail.tail); }
    }
  }

  lemma AtUnders(k: Seg, f: Fields, k': Seg, g: Fields, p: Path)
    requires k != k'
    ensures LeafAt(Under(k, f) + Under(k', g), p)
            == if p.Dot? && p.head == k then LeafAt(f, p.tail)
               else if p.Dot? && p.head == k' then LeafAt(g, p.tail)
               else None
  {
    AtSum(Under(k, f), Under(k', g), p);
    AtUnder(k, f, p);
    AtUnder(k', g, p);
  }

  // ---------------------------------------------------------------- setting a new key

  lemma EmptyFlattens()
    ensures Flatten(Empty) == map[]
  {
    FlattenUnique(Empty, map[]);
  }

  lemma PutLeaf(o: Object, k: Seg, v: Value)
    requires !Has(o, k)
    ensures Flatten(Put(o, k, Leaf(v))) == Flatten(o) + map[P1(k) := v]
  {
    var o', f, f' := Put(o, k, Leaf(v)), Flatten(o), Flatten(o) + map[P1(k) := v];
    forall p ensures FieldAt(o', p) == if p in f' then Some(f'[p]) else None {
      assert FieldAt(o, p) == if p in f then Some(f[p]) else None;
      OnlyBelowKeys(o, p);
    }
    FlattenUnique(o', f');
  }

  lemma PutNode(o: Object, k: Seg, sub: Object)
    requires !Has(o, k) && sub.Put?
    ensures Flatten(Put(o, k, Node(sub))) == Flatten(o) + Under(k, Flatten(sub))
  {
    var o', f, g, f' := Put(o, k, Node(sub)), Flatten(o), Flatten(sub), Flatten(o) + Under(k, Flatten(sub));
    forall p ensures FieldAt(o', p) == if p in f' then Some(f'[p]) else None {
      assert FieldAt(o, p) == if p in f then Some(f[p]) else None;
      OnlyBelowKeys(o, p);
      UnderAt(k, g, p);
      if p.Dot? { assert FieldAt(sub, p.tail) == if p.tail in g then Some(g[p.tail]) else None; }
    }
    FlattenUnique(o', f');
  }

  lemma PutEmpty(o: Object, k: Seg)
    requires !Has(o, k)
    ensures Flatten(Put(o, k, Node(Empty))) == Flatten(o) + map[P1(k) := EMPTY_MAP]
  {
    var o', f, f' := Put(o, k, Node(Empty)), Flatten(o), Flatten(o) + map[P1(k) := EMPTY_MAP];
    forall p ensures FieldAt(o', p) == if p in f' then Some(f'[p]) else None {
      assert FieldAt(o, p) == if p in f then Some(f[p]) else None;
      OnlyBelowKeys(o, p);
      if p.Dot? { assert NodeAt(Node(Empty), p.tail) == if p.tail.End? then Some(EMPTY_MAP) else None; }
    }
    FlattenUnique(o', f');
  }

  /** `m[k] = v` */
  method Set(o: Object, k: Seg, v: Value) returns (out: Object)
    requires !Has(o, k)
    ensures Flatten(out) == Flatten(o) + map[P1(k) := v]
    ensures out.Put? && forall s :: Has(out, s) ==> Has(o, s) || s == k
  {
    PutLeaf(o, k, v);
    out := Put(o, k, Leaf(v));
  }

  /** `if c { m[k] = v }` */
  method SetIf(o: Object, c: bool, k: Seg, v: Value) returns (out: Object)
    requires !Has(o, k)
    ensures Flatten(out) == Flatten(o) + Opt(c, P1(k), v)
    ensures (out.Put? <==> o.Put? || c) && forall s :: Has(out, s) ==> Has(o, s) || s == k
  {
    PutLeaf(o, k, v);
    PlusNothing(Flatten(o));
    out := if c then Put(o, k, Leaf(v)) else o;
  }

  /** `if len(block) > 0 { m[k] = block }` */
  method SetBlock(o: Object, k: Seg, block: Object) returns (out: Object)
    requires !Has(o, k)
    ensures Flatten(out) == Flatten(o) + Under(k, Flatten(block))
    ensures (out.Put? <==> o.Put? || block.Put?) && forall s :: Has(out, s) ==> Has(o, s) || s == k
  {
    out := o;
    if block.Put? {
      PutNode(o, k, block);
      out := Put(o, k, Node(block));
    } else {
      EmptyFlattens();
      UnderNothing(k);
      PlusNothing(Flatten(o));
    }
  }

  /** `map[string]any{k: v}` */
  method One(k: Seg, v: Value) returns (out: Object)
    ensures Flatten(out) == map[P1(k) := v]
    ensures out.Put? && forall s :: Has(out, s) ==> s == k
  {
    EmptyFlattens();
    PlusNothing(map[P1(k) := v]);
    out := Set(Empty, k, v);
  }

  method OneBlock(k: Seg, block: Object) returns (out: Object)
    requires block.Put?
    ensures Flatten(out) == Under(k, Flatten(block))
    ensures out.Put? && forall s :: Has(out, s) ==> s == k
  {
    EmptyFlattens();
    PlusNothing(Under(k, Flatten(block)));
    out := SetBlock(Empty, k, block);
  }

  /** A map with one block in it, and a second if that has something in it. */
  method TwoBlocks(k: Seg, a: Object, k': Seg, b: Object) returns (out: Object)
    requires k != k' && a.Put?
    ensures out.Put? && Flatten(out) == Under(k, Flatten(a)) + Under(k', Flatten(b))
  {
    out := OneBlock(k, a);
    out := SetBlock(out, k', b);
  }

  /** `m[k] = map[string]any{}` */
  method SetEmpty(o: Object, k: Seg) returns (out: Object)
    requires !Has(o, k)
    ensures Flatten(out) == Flatten(o) + map[P1(k) := EMPTY_MAP]
    ensures out.Put? && forall s :: Has(out, s) ==> Has(o, s) || s == k
  {
    PutEmpty(o, k);
    out := Put(o, k, Node(Empty));
  }
}

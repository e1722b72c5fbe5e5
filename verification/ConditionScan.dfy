/**
  The condition loop shared by two ExtractStatus implementations
  (internal/mariadb/mariadb.go:174-192, internal/rabbitmq/rabbitmq.go:164-182): find the
  first map entry of the wanted type, skip everything malformed before it.
 */
module ConditionScan {
  import opened Types

  datatype Verdict = Verdict(phase: string, ready: bool)

  const UNKNOWN := Verdict("Unknown", false)

  function TextOf(v: Value, name: string): string {
    if v.Map? && name in v.m && v.m[name].Str? then v.m[name].s else ""
  }

  /** A well-formed entry of that type. */
  predicate OfType(v: Value, wanted: string) {
    v.Map? && TextOf(v, "type") == wanted
  }

  function Judge(v: Value): Verdict {
    Verdict(if TextOf(v, "reason") != "" then TextOf(v, "reason") else "Unknown", TextOf(v, "status") == "True")
  }

  /** The declarative lookup: the first entry of the wanted type decides alone. */
  ghost predicate Decides(conditions: seq<Value>, wanted: string, i: nat) {
    && i < |conditions| && OfType(conditions[i], wanted)
    && forall j :: 0 <= j < i ==> !OfType(conditions[j], wanted)
  }

  function Scan(conditions: seq<Value>, wanted: string): Verdict {
    if conditions == [] then UNKNOWN
    else if OfType(conditions[0], wanted) then Judge(conditions[0])
    else Scan(conditions[1..], wanted)
  }

  lemma {:induction false} ScanIsLookup(conditions: seq<Value>, wanted: string)
    ensures forall i: nat :: Decides(conditions, wanted, i) ==> Scan(conditions, wanted) == Judge(conditions[i])
    ensures (forall v :: v in conditions ==> !OfType(v, wanted)) ==> Scan(conditions, wanted) == UNKNOWN
  {
    if conditions != [] {
      var rest := conditions[1..];
      ScanIsLookup(rest, wanted);
      forall i: nat | Decides(conditions, wanted, i) ensures Scan(conditions, wanted) == Judge(conditions[i]) {
        if i > 0 {
          assert !OfType(conditions[0], wanted);
          forall j | 0 <= j < i - 1 ensures !OfType(rest[j], wanted) { assert rest[j] == conditions[j + 1]; }
          assert Decides(rest, wanted, i - 1);
        }
      }
    }
  }

  /** The loop as written, with its early exit. */
  method ScanConditions(conditions: seq<Value>, wanted: string) returns (v: Verdict)
    ensures v == Scan(conditions, wanted)
    ensures forall i: nat :: Decides(conditions, wanted, i) ==> v == Judge(conditions[i])
    ensures wanted != "" ==> Reports(conditions, wanted, v.phase, v.ready)
  {
    ScanIsLookup(conditions, wanted);
    if wanted != "" { ScanReports(conditions, wanted); }
    var phase := "Unknown";
    var ready := false;
    var i := 0;
    while i < |conditions|
      invariant 0 <= i <= |conditions|
      invariant phase == "Unknown" && !ready
      invariant Scan(conditions, wanted) == Scan(conditions[i..], wanted)
    {
      var c := conditions[i];
      assert conditions[i..][0] == c && conditions[i..][1..] == conditions[i + 1..];
      i := i + 1;
      if !c.Map? {
        continue;
      }
      if TextOf(c, "type") != wanted {
        continue;
      }
      if TextOf(c, "status") == "True" {
        ready := true;
      }
      if TextOf(c, "reason") != "" {
        phase := TextOf(c, "reason");
      }
      return Verdict(phase, ready);
    }
    return Verdict(phase, ready);
  }

  /** All entries of the wanted type say the same; in particular when there is only one. */
  ghost predicate Unanimous(conditions: seq<Value>, wanted: string) {
    forall v, w :: v in conditions && w in conditions && OfType(v, wanted) && OfType(w, wanted) ==> Judge(v) == Judge(w)
  }

  lemma {:induction false} ScanByMember(conditions: seq<Value>, wanted: string, v: Value)
    requires Unanimous(conditions, wanted) && v in conditions && OfType(v, wanted)
    ensures Scan(conditions, wanted) == Judge(v)
  {
    if !OfType(conditions[0], wanted) {
      assert v in conditions[1..];
      ScanByMember(conditions[1..], wanted, v);
    }
  }

  /** For such lists, as with unique condition types, the order does not matter. */
  lemma ScanPermutation(a: seq<Value>, b: seq<Value>, wanted: string)
    requires multiset(a) == multiset(b) && Unanimous(a, wanted)
    ensures Scan(a, wanted) == Scan(b, wanted)
  {
    assert forall v :: v in a <==> v in multiset(a);
    assert forall v :: v in b <==> v in multiset(b);
    if v :| v in a && OfType(v, wanted) {
      ScanByMember(a, wanted, v);
      ScanByMember(b, wanted, v);
    } else {
      ScanIsLookup(a, wanted);
      ScanIsLookup(b, wanted);
    }
  }

  // ---------------------------------------------------------------- what a verdict says

  /** A JSON map with exactly this string under that name. */
  predicate Says(v: Value, name: string, text: string) {
    v.Map? && name in v.m && v.m[name] == Str(text)
  }

  /** The i-th entry is the first that is a map and says it is of that type. */
  ghost predicate FirstOfType(conditions: seq<Value>, wanted: string, i: nat) {
    && i < |conditions| && Says(conditions[i], "type", wanted)
    && forall j :: 0 <= j < i ==> !Says(conditions[j], "type", wanted)
  }

  ghost predicate NoneOfType(conditions: seq<Value>, wanted: string) {
    forall j :: 0 <= j < |conditions| ==> !Says(conditions[j], "type", wanted)
  }

  /** What that list says about the type: ready exactly if its first entry has status "True", the
      phase being the entry's reason if it has one; without an entry, not ready and Unknown. */
  ghost predicate Reports(conditions: seq<Value>, wanted: string, phase: string, ready: bool) {
    && (NoneOfType(conditions, wanted) ==> phase == "Unknown" && !ready)
    && (forall i: nat :: FirstOfType(conditions, wanted, i) ==>
          && (ready <==> Says(conditions[i], "status", "True"))
          && (forall r: string :: r != "" && Says(conditions[i], "reason", r) ==> phase == r)
          && ((forall r: string :: r != "" ==> !Says(conditions[i], "reason", r)) ==> phase == "Unknown"))
  }

  lemma TextIs(v: Value, name: string, text: string)
    requires text != ""
    ensures v.Map? && TextOf(v, name) == text <==> Says(v, name, text)
  {
  }

  lemma JudgeSays(v: Value)
    requires v.Map?
    ensures Judge(v).ready <==> Says(v, "status", "True")
    ensures forall r: string :: r != "" && Says(v, "reason", r) ==> Judge(v).phase == r
    ensures (forall r: string :: r != "" ==> !Says(v, "reason", r)) ==> Judge(v).phase == "Unknown"
  {
    TextIs(v, "status", "True");
    if TextOf(v, "reason") != "" {
      TextIs(v, "reason", TextOf(v, "reason"));
    }
  }

  /** Either no entry is of the type, or there is a first one. */
  lemma {:induction false} FirstExists(conditions: seq<Value>, wanted: string)
    ensures NoneOfType(conditions, wanted) || exists i: nat :: FirstOfType(conditions, wanted, i)
  {
    if conditions != [] {
      var n := |conditions| - 1;
      FirstExists(conditions[..n], wanted);
      if i: nat :| FirstOfType(conditions[..n], wanted, i) {
        assert FirstOfType(conditions, wanted, i);
      } else if Says(conditions[n], "type", wanted) {
        assert forall j :: 0 <= j < n ==> conditions[..n][j] == conditions[j];
        assert FirstOfType(conditions, wanted, n);
      } else {
        assert forall j :: 0 <= j < n ==> conditions[..n][j] == conditions[j];
      }
    }
  }

  /** The scan says what the list reports, over any list, malformed entries and duplicates
      included. */
  lemma ScanReports(conditions: seq<Value>, wanted: string)
    requires wanted != ""
    ensures var v := Scan(conditions, wanted); Reports(conditions, wanted, v.phase, v.ready)
    ensures NoneOfType(conditions, wanted) || exists i: nat :: FirstOfType(conditions, wanted, i)
  {
    FirstExists(conditions, wanted);
    ScanIsLookup(conditions, wanted);
    forall v ensures OfType(v, wanted) <==> Says(v, "type", wanted) { TextIs(v, "type", wanted); }
    forall i: nat | FirstOfType(conditions, wanted, i)
      ensures Scan(conditions, wanted) == Judge(conditions[i]) && conditions[i].Map?
    {
      assert Decides(conditions, wanted, i);
    }
    forall i: nat | FirstOfType(conditions, wanted, i)
      ensures var v := Scan(conditions, wanted);
              && (v.ready <==> Says(conditions[i], "status", "True"))
              && (forall r: string :: r != "" && Says(conditions[i], "reason", r) ==> v.phase == r)
              && ((forall r: string :: r != "" ==> !Says(conditions[i], "reason", r)) ==> v.phase == "Unknown")
    {
      JudgeSays(conditions[i]);
    }
    if NoneOfType(conditions, wanted) {
      forall v | v in conditions ensures !OfType(v, wanted) {
        var j :| 0 <= j < |conditions| && conditions[j] == v;
      }
    }
  }
}

/**
  The `.status` of a custom resource and how every adapter's ApplyStatus mirrors the
  target onto it (for example internal/cnpg/cnpg.go:186-214), built on
  meta.SetStatusCondition.
 */
module StatusMirror {
  import opened Types

  /** metav1.Condition without its message and transition time. */
  datatype Condition = Condition(ctype: string, status: string, reason: string, observedGeneration: nat)

  datatype CrStatus = CrStatus(ready: bool, phase: string, count: int32, readyCount: int32, conditions: seq<Condition>)

  const NO_STATUS := CrStatus(false, "", 0, 0, [])

  const READY := "Ready"

  /** meta.SetStatusCondition: overwrite the first entry of that type, else append. */
  function SetCondition(cs: seq<Condition>, c: Condition): seq<Condition> {
    if cs == [] then [c]
    else if cs[0].ctype == c.ctype then [c] + cs[1..]
    else [cs[0]] + SetCondition(cs[1..], c)
  }

  predicate UniqueTypes(cs: seq<Condition>) {
    forall i, j :: 0 <= i < j < |cs| ==> cs[i].ctype != cs[j].ctype
  }

  /** All entries but those of one type, in order. */
  function Others(cs: seq<Condition>, ctype: string): seq<Condition> {
    if cs == [] then []
    else if cs[0].ctype == ctype then Others(cs[1..], ctype)
    else [cs[0]] + Others(cs[1..], ctype)
  }

  predicate Holds(cs: seq<Condition>, ctype: string) {
    exists i :: 0 <= i < |cs| && cs[i].ctype == ctype && cs[i].status == "True"
  }

  lemma {:induction false} SetConditionTypes(cs: seq<Condition>, c: Condition, t: string)
    ensures (exists x :: x in SetCondition(cs, c) && x.ctype == t)
            <==> t == c.ctype || exists x :: x in cs && x.ctype == t
  {
    if cs == [] {
      assert c in SetCondition(cs, c);
    } else {
      var s := SetCondition(cs, c);
      assert cs == [cs[0]] + cs[1..];
      assert forall x :: x in cs <==> x == cs[0] || x in cs[1..];
      if cs[0].ctype == c.ctype {
        assert forall x :: x in s <==> x == c || x in cs[1..];
      } else {
        SetConditionTypes(cs[1..], c, t);
        assert forall x :: x in s <==> x == cs[0] || x in SetCondition(cs[1..], c);
      }
    }
  }

  /** Setting a condition keeps types unique and keeps every condition of another type. */
  lemma {:induction false} SetConditionLaws(cs: seq<Condition>, c: Condition)
    requires UniqueTypes(cs)
    ensures UniqueTypes(SetCondition(cs, c))
    ensures Others(SetCondition(cs, c), c.ctype) == Others(cs, c.ctype)
    ensures c in SetCondition(cs, c)
    ensures SetCondition(SetCondition(cs, c), c) == SetCondition(cs, c)
  {
    if cs != [] {
      var rest := cs[1..];
      assert forall i :: 0 <= i < |rest| ==> rest[i] == cs[i + 1];
      if cs[0].ctype == c.ctype {
        var s := [c] + rest;
        assert s[1..] == rest;
      } else {
        SetConditionLaws(rest, c);
        var t := SetCondition(rest, c);
        var s := [cs[0]] + t;
        assert s[1..] == t;
        SetConditionTypes(rest, c, cs[0].ctype);
        assert forall x :: x in rest ==> x.ctype != cs[0].ctype;
        forall i, j | 0 <= i < j < |s| ensures s[i].ctype != s[j].ctype {
          if i == 0 {
            assert t[j - 1] in t;
          } else {
            assert s[i] == t[i - 1] && s[j] == t[j - 1];
          }
        }
      }
    }
  }

  lemma HoldsOfUnique(cs: seq<Condition>, c: Condition)
    requires UniqueTypes(cs) && c in cs
    ensures Holds(cs, c.ctype) <==> c.status == "True"
  {
    var n :| 0 <= n < |cs| && cs[n] == c;
    if Holds(cs, c.ctype) {
      var i :| 0 <= i < |cs| && cs[i].ctype == c.ctype && cs[i].status == "True";
      assert i == n;
    }
  }

  /** What every reachable status satisfies: `.status.ready` agrees with the one Ready
      condition. A status nobody wrote yet is not ready and has no condition. */
  predicate Consistent(st: CrStatus) {
    && UniqueTypes(st.conditions)
    && (st.ready <==> Holds(st.conditions, READY))
  }

  function ReadyCondition(ts: TargetStatus, reasons: (string, string), generation: nat): Condition {
    if ts.ready then Condition(READY, "True", reasons.0, generation)
    else Condition(READY, "False", reasons.1, generation)
  }

  /** ApplyStatus: reasons are the adapter's (ready, not ready) pair; counts its choice of
      which target counts to store. */
  function Mirror(st: CrStatus, ts: TargetStatus, reasons: (string, string), counts: (int32, int32),
                  generation: nat): CrStatus {
    CrStatus(ts.ready, ts.phase, counts.0, counts.1,
           SetCondition(st.conditions, ReadyCondition(ts, reasons, generation)))
  }

  lemma MirrorLaws(st: CrStatus, ts: TargetStatus, reasons: (string, string), counts: (int32, int32), generation: nat)
    requires UniqueTypes(st.conditions)
    ensures var m := Mirror(st, ts, reasons, counts, generation);
            && m.ready == ts.ready && m.phase == ts.phase && m.count == counts.0 && m.readyCount == counts.1
            && Consistent(m)
            && Others(m.conditions, READY) == Others(st.conditions, READY)
            && ReadyCondition(ts, reasons, generation) in m.conditions
            && Mirror(m, ts, reasons, counts, generation) == m
  {
    var c := ReadyCondition(ts, reasons, generation);
    SetConditionLaws(st.conditions, c);
    HoldsOfUnique(SetCondition(st.conditions, c), c);
  }

  /** Another controller writing a condition of its own leaves the status consistent. */
  lemma ForeignConditionKeeps(st: CrStatus, c: Condition)
    requires Consistent(st) && c.ctype != READY
    ensures Consistent(st.(conditions := SetCondition(st.conditions, c)))
  {
    SetConditionLaws(st.conditions, c);
    HoldsElsewhere(st.conditions, c, READY);
  }

  lemma {:induction false} HoldsElsewhere(cs: seq<Condition>, c: Condition, t: string)
    requires c.ctype != t
    ensures Holds(SetCondition(cs, c), t) <==> Holds(cs, t)
  {
    if cs == [] {
      assert SetCondition(cs, c) == [c];
    } else {
      var rest := cs[1..];
      assert cs == [cs[0]] + rest;
      HoldsCons(cs[0], rest, t);
      if cs[0].ctype == c.ctype {
        HoldsCons(c, rest, t);
      } else {
        HoldsElsewhere(rest, c, t);
        HoldsCons(cs[0], SetCondition(rest, c), t);
      }
    }
  }

  lemma HoldsCons(c: Condition, cs: seq<Condition>, t: string)
    ensures Holds([c] + cs, t) <==> (c.ctype == t && c.status == "True") || Holds(cs, t)
  {
    var s := [c] + cs;
    assert s[0] == c;
    if Holds(s, t) {
      var i :| 0 <= i < |s| && s[i].ctype == t && s[i].status == "True";
      assert i > 0 ==> cs[i - 1] == s[i];
    }
    if Holds(cs, t) {
      var i :| 0 <= i < |cs| && cs[i].ctype == t && cs[i].status == "True";
      assert s[i + 1] == cs[i];
    }
  }
}

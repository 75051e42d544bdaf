/** The verdict on a frontmatter depends on which keys it holds with which values, not on their order. */
module KeyOrder {
  import opened JsString
  import opened AcceptGuard
  import opened AcceptTransition
  import opened FlowModel
  import opened TopFields
  import opened Assignments

  // ── Objects of distinct keys ──────────────────────────────────────────────

  lemma DistinctTail(fm: Fields)
    requires DistinctKeys(fm) && fm != []
    ensures DistinctKeys(fm[1..]) && !Named(fm[1..], fm[0].0)
  {
  }

  lemma {:induction false} ValueAt(fm: Fields, i: nat)
    requires DistinctKeys(fm) && i < |fm|
    ensures ValueOf(fm, fm[i].0) == Some(fm[i].1)
  {
    if i > 0 {
      DistinctTail(fm);
      ValueAt(fm[1..], i - 1);
    }
  }

  lemma {:induction false} ValueStands(fm: Fields, k: string)
    requires ValueOf(fm, k).Some?
    ensures (k, ValueOf(fm, k).value) in fm
  {
    if fm[0].0 != k {
      ValueStands(fm[1..], k);
    }
  }

  lemma {:induction false} RemovedAreFields(fm: Fields, key: string)
    ensures forall f :: f in RemoveField(fm, key) ==> f in fm
  {
    if fm != [] {
      RemovedAreFields(fm[1..], key);
      assert fm == [fm[0]] + fm[1..];
    }
  }

  lemma {:induction false} RemovedDistinct(fm: Fields, key: string)
    requires DistinctKeys(fm)
    ensures DistinctKeys(RemoveField(fm, key))
  {
    if fm != [] {
      DistinctTail(fm);
      RemovedDistinct(fm[1..], key);
      RemovedAreFields(fm[1..], key);
      var rest := RemoveField(fm[1..], key);
      assert forall i :: 0 <= i < |rest| ==> rest[i] in fm[1..];
    }
  }

  lemma RemoveTree(fm: Fields, key: string)
    requires Tree(fm)
    ensures Tree(RemoveField(fm, key))
  {
    hide WellFormed;
    RemovedDistinct(fm, key);
    RemovedAreFields(fm, key);
    var rest := RemoveField(fm, key);
    assert forall i :: 0 <= i < |rest| ==> rest[i] in fm;
  }

  // ── The values of a property ──────────────────────────────────────────────

  lemma {:induction false} CountConcat(a: seq<Value>, b: seq<Value>, v: Value)
    ensures Count(a + b, v) == Count(a, v) + Count(b, v)
  {
    hide FmEqual;
    if a == [] {
      assert a + b == b;
    } else {
      CountConcat(a[1..], b, v);
      assert (a + b)[1..] == a[1..] + b;
    }
  }

  lemma {:induction false} MatchingConcat(norm: string -> string, a: Fields, b: Fields, prop: string)
    ensures Matching(norm, a + b, prop) == Matching(norm, a, prop) + Matching(norm, b, prop)
    decreases |b|
  {
    hide Canonical;
    if b == [] {
      assert a + b == a;
      assert Matching(norm, a, prop) + [] == Matching(norm, a, prop);
    } else {
      MatchingConcat(norm, a, b[..|b| - 1], prop);
      assert (a + b)[..|a + b| - 1] == a + b[..|b| - 1];
      var last := if Canonical(norm, b[|b| - 1].0) == prop then [b[|b| - 1]] else [];
      assert Matching(norm, a, prop) + Matching(norm, b[..|b| - 1], prop) + last
          == Matching(norm, a, prop) + (Matching(norm, b[..|b| - 1], prop) + last);
    }
  }

  /** How often the property holds a value. */
  function Holdings(norm: string -> string, fm: Fields, prop: string, v: Value): nat {
    Count(ValuesOf(Matching(norm, fm, prop)), v)
  }

  lemma HoldingsConcat(norm: string -> string, a: Fields, b: Fields, prop: string, v: Value)
    ensures Holdings(norm, a + b, prop, v) == Holdings(norm, a, prop, v) + Holdings(norm, b, prop, v)
  {
    hide Matching, Count;
    var x, y := Matching(norm, a, prop), Matching(norm, b, prop);
    MatchingConcat(norm, a, b, prop);
    assert ValuesOf(x + y) == ValuesOf(x) + ValuesOf(y);
    CountConcat(ValuesOf(x), ValuesOf(y), v);
  }

  lemma {:induction false} HoldingsWithout(norm: string -> string, fm: Fields, k: string, prop: string, v: Value)
    requires DistinctKeys(fm) && ValueOf(fm, k).Some?
    ensures Holdings(norm, fm, prop, v)
         == Holdings(norm, [(k, ValueOf(fm, k).value)], prop, v) + Holdings(norm, RemoveField(fm, k), prop, v)
    decreases |fm|
  {
    hide Holdings;
    var head, rest := [fm[0]], fm[1..];
    assert fm == head + rest;
    DistinctTail(fm);
    HoldingsConcat(norm, head, rest, prop, v);
    if fm[0].0 == k {
      RemoveAbsent(rest, k);
      assert [] + rest == rest;
    } else {
      HoldingsWithout(norm, rest, k, prop, v);
      HoldingsConcat(norm, head, RemoveField(rest, k), prop, v);
    }
  }

  lemma NothingSame(g: Fields)
    requires g != []
    ensures !SameObject([], g)
  {
    assert ValueOf([], g[0].0) != ValueOf(g, g[0].0);
  }

  /** What is left of the same object without one key. */
  lemma SameWithout(f: Fields, g: Fields)
    requires f != [] && DistinctKeys(f) && SameObject(f, g)
    ensures SameObject(f[1..], RemoveField(g, f[0].0))
  {
    hide RemoveField;
    DistinctTail(f);
    forall j
      ensures ValueOf(f[1..], j) == ValueOf(RemoveField(g, f[0].0), j)
    {
      RemoveValue(g, f[0].0, j);
      ValueNamed(f[1..], j);
      assert ValueOf(f, j) == ValueOf(g, j);
    }
  }

  lemma {:induction false} SameHoldings(norm: string -> string, f: Fields, g: Fields, prop: string, v: Value)
    requires DistinctKeys(f) && DistinctKeys(g) && SameObject(f, g)
    ensures Holdings(norm, f, prop, v) == Holdings(norm, g, prop, v)
    decreases |f|
  {
    hide Holdings, SameObject, DistinctKeys, RemoveField;
    if f == [] {
      if g != [] {
        NothingSame(g);
      }
    } else {
      var k := f[0].0;
      assert ValueOf(g, k) == Some(f[0].1) by { FirstValue(f, g); }
      HoldingsWithout(norm, g, k, prop, v);
      HoldingsConcat(norm, [f[0]], f[1..], prop, v);
      assert f == [f[0]] + f[1..];
      DistinctTail(f);
      RemovedDistinct(g, k);
      SameWithout(f, g);
      SameHoldings(norm, f[1..], RemoveField(g, k), prop, v);
    }
  }

  lemma FirstValue(f: Fields, g: Fields)
    requires f != [] && SameObject(f, g)
    ensures ValueOf(g, f[0].0) == Some(f[0].1)
  {
    assert ValueOf(f, f[0].0) == ValueOf(g, f[0].0);
  }

  // ── The verdict ───────────────────────────────────────────────────────────

  lemma SameFloor(norm: string -> string, before: Fields, f: Fields, g: Fields)
    requires DistinctKeys(f) && SameObject(f, g) && FloorHeld(norm, before, g)
    ensures FloorHeld(norm, before, f)
  {
    hide Asserts, CarriedForward;
    forall i | 0 <= i < |f| && Asserts(norm, f[i])
      ensures CarriedForward(norm, before, f[i])
    {
      ValueAt(f, i);
      assert ValueOf(f, f[i].0) == ValueOf(g, f[i].0);
      ValueStands(g, f[i].0);
      var m :| 0 <= m < |g| && g[m] == f[i];
    }
  }

  lemma SameProperty(norm: string -> string, before: Fields, f: Fields, g: Fields, prop: string)
    requires DistinctKeys(f) && DistinctKeys(g) && SameObject(f, g)
    ensures PropertyHeld(norm, before, f, prop) <==> PropertyHeld(norm, before, g, prop)
  {
    hide SameObject, DistinctKeys, Count, Matching, WellFormed, ValuesOf;
    forall v
      ensures Count(ValuesOf(Matching(norm, f, prop)), v) == Count(ValuesOf(Matching(norm, g, prop)), v)
    {
      SameHoldings(norm, f, g, prop, v);
    }
  }

  lemma SameObjectTurned(f: Fields, g: Fields)
    requires SameObject(f, g)
    ensures SameObject(g, f)
  {
  }

  /** Two results that are the same object pass alike. */
  lemma SameVerdict(p: Policy, before: Fields, f: Fields, g: Fields)
    requires Tree(before) && Tree(f) && Tree(g) && SameObject(f, g)
    ensures TransitionReason(p, before, f).None? <==> TransitionReason(p, before, g).None?
  {
    hide SameObject, DistinctKeys, FloorHeld, PropertyHeld, TransitionReason, WellFormed;
    CleanExactly(p, before, f);
    CleanExactly(p, before, g);
    SameObjectTurned(f, g);
    if FloorHeld(p.norm, before, f) {
      SameFloor(p.norm, before, g, f);
    }
    if FloorHeld(p.norm, before, g) {
      SameFloor(p.norm, before, f, g);
    }
    forall prop
      ensures PropertyHeld(p.norm, before, f, prop) <==> PropertyHeld(p.norm, before, g, prop)
    {
      SameProperty(p.norm, before, f, g, prop);
    }
  }
}

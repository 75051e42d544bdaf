/** Fields assigned in turn to an object: what removing or assigning one key does to the outcome. */
module Assignments {
  import opened JsString
  import opened AcceptGuard
  import opened AcceptTransition
  import opened FlowModel
  import opened BlockSound
  import opened TopFields

  /** The object without a key. */
  function RemoveField(m: Fields, key: string): Fields {
    if m == [] then [] else (if m[0].0 == key then [] else [m[0]]) + RemoveField(m[1..], key)
  }

  lemma {:induction false} PutAllConcat(out: Fields, a: Fields, b: Fields)
    ensures PutAll(out, a + b) == PutAll(PutAll(out, a), b)
    decreases |a|
  {
    hide PutField;
    if a == [] {
      assert a + b == b;
    } else {
      assert (a + b)[1..] == a[1..] + b;
      PutAllConcat(PutField(out, a[0].0, a[0].1), a[1..], b);
    }
  }

  lemma {:induction false} PutAllTree(out: Fields, fields: Fields)
    requires Tree(out) && forall i :: 0 <= i < |fields| ==> WellFormed(fields[i].1)
    ensures Tree(PutAll(out, fields))
    decreases |fields|
  {
    hide PutField, Tree, WellFormed;
    if fields != [] {
      PutTree(out, fields[0].0, fields[0].1);
      PutAllTree(PutField(out, fields[0].0, fields[0].1), fields[1..]);
    }
  }

  // ── Keys ──────────────────────────────────────────────────────────────────

  lemma {:induction false} PutNames(m: Fields, k: string, v: Value, key: string)
    ensures Named(PutField(m, k, v), key) <==> Named(m, key) || k == key
  {
    if m == [] {
      assert PutField(m, k, v)[0].0 == k;
    } else if m[0].0 == k {
      NamedFirst(m[0], m[1..], key);
      NamedFirst((k, v), m[1..], key);
      assert m == [m[0]] + m[1..];
    } else {
      PutNames(m[1..], k, v, key);
      NamedFirst(m[0], m[1..], key);
      NamedFirst(m[0], PutField(m[1..], k, v), key);
      assert m == [m[0]] + m[1..];
    }
  }

  lemma {:induction false} PutAllNames(out: Fields, fields: Fields, key: string)
    ensures Named(PutAll(out, fields), key) <==> Named(out, key) || Named(fields, key)
    decreases |fields|
  {
    hide PutField;
    if fields != [] {
      PutNames(out, fields[0].0, fields[0].1, key);
      PutAllNames(PutField(out, fields[0].0, fields[0].1), fields[1..], key);
      assert fields == [fields[0]] + fields[1..];
      NamedFirst(fields[0], fields[1..], key);
    }
  }

  lemma NamedConcat(a: Fields, b: Fields, key: string)
    ensures Named(a + b, key) <==> Named(a, key) || Named(b, key)
  {
    assert forall i :: 0 <= i < |a| ==> (a + b)[i] == a[i];
    assert forall i :: 0 <= i < |b| ==> (a + b)[|a| + i] == b[i];
  }

  // ── Removing ──────────────────────────────────────────────────────────────

  lemma {:induction false} RemovedIsGone(m: Fields, key: string)
    ensures !Named(RemoveField(m, key), key)
  {
    if m != [] {
      RemovedIsGone(m[1..], key);
      NamedFirst(m[0], RemoveField(m[1..], key), key);
      assert [] + RemoveField(m[1..], key) == RemoveField(m[1..], key);
    }
  }

  lemma {:induction false} RemoveAbsent(m: Fields, key: string)
    requires !Named(m, key)
    ensures RemoveField(m, key) == m
  {
    if m != [] {
      assert m == [m[0]] + m[1..];
      NamedFirst(m[0], m[1..], key);
      assert m[0].0 != key;
      RemoveAbsent(m[1..], key);
    }
  }

  lemma {:induction false} RemovePut(m: Fields, k: string, v: Value, key: string)
    ensures RemoveField(PutField(m, k, v), key)
         == if k == key then RemoveField(m, key) else PutField(RemoveField(m, key), k, v)
  {
    if m == [] {
      assert PutField(m, k, v)[1..] == [];
    } else if m[0].0 == k {
      assert ([(k, v)] + m[1..])[1..] == m[1..];
      if k != key {
        assert ([(k, v)] + RemoveField(m[1..], key)) == PutField([m[0]] + RemoveField(m[1..], key), k, v);
      }
    } else {
      RemovePut(m[1..], k, v, key);
      assert ([m[0]] + PutField(m[1..], k, v))[1..] == PutField(m[1..], k, v);
      if m[0].0 == key {
        assert [] + RemoveField(m[1..], key) == RemoveField(m[1..], key);
      } else {
        assert ([m[0]] + RemoveField(m[1..], key))[1..] == RemoveField(m[1..], key);
      }
    }
  }

  /** Removing a key after the assignments is assigning only the others. */
  lemma {:induction false} RemovePutAll(out: Fields, fields: Fields, key: string)
    ensures RemoveField(PutAll(out, fields), key) == PutAll(RemoveField(out, key), RemoveField(fields, key))
    decreases |fields|
  {
    hide PutField;
    if fields != [] {
      var f := fields[0];
      RemovePutAll(PutField(out, f.0, f.1), fields[1..], key);
      RemovePut(out, f.0, f.1, key);
      if f.0 == key {
        assert [] + RemoveField(fields[1..], key) == RemoveField(fields[1..], key);
      } else {
        assert ([f] + RemoveField(fields[1..], key))[1..] == RemoveField(fields[1..], key);
      }
    }
  }

  lemma {:induction false} RemoveConcat(a: Fields, b: Fields, key: string)
    ensures RemoveField(a + b, key) == RemoveField(a, key) + RemoveField(b, key)
  {
    if a == [] {
      assert a + b == b;
      assert [] + RemoveField(b, key) == RemoveField(b, key);
    } else {
      assert (a + b)[1..] == a[1..] + b;
      RemoveConcat(a[1..], b, key);
      var head := if a[0].0 == key then [] else [a[0]];
      assert head + RemoveField(a[1..], key) + RemoveField(b, key)
          == head + (RemoveField(a[1..], key) + RemoveField(b, key));
    }
  }

  // ── Assigning one key differently ─────────────────────────────────────────

  lemma {:induction false} PutTwice(m: Fields, k: string, v: Value, u: Value)
    ensures PutField(PutField(m, k, v), k, u) == PutField(m, k, u)
  {
    if m == [] {
    } else if m[0].0 == k {
      assert ([(k, v)] + m[1..])[1..] == m[1..];
    } else {
      PutTwice(m[1..], k, v, u);
      assert ([m[0]] + PutField(m[1..], k, v))[1..] == PutField(m[1..], k, v);
    }
  }

  lemma {:induction false} PutTells(m: Fields, k: string, v: Value, u: Value)
    requires PutField(m, k, v) == PutField(m, k, u)
    ensures v == u
  {
    if m == [] {
      assert PutField(m, k, v)[0] == PutField(m, k, u)[0];
    } else if m[0].0 == k {
      assert PutField(m, k, v)[0] == PutField(m, k, u)[0];
    } else {
      assert PutField(m, k, v)[1..] == PutField(m[1..], k, v) && PutField(m, k, u)[1..] == PutField(m[1..], k, u);
      PutTells(m[1..], k, v, u);
    }
  }

  /** Two different keys, the first already there, are assigned in either order. */
  lemma {:induction false} PutSwap(m: Fields, k: string, v: Value, j: string, u: Value)
    requires k != j && Named(m, k)
    ensures PutField(PutField(m, j, u), k, v) == PutField(PutField(m, k, v), j, u)
  {
    assert m == [m[0]] + m[1..];
    NamedFirst(m[0], m[1..], k);
    if m[0].0 == k {
      assert ([m[0]] + PutField(m[1..], j, u))[1..] == PutField(m[1..], j, u);
      assert ([(k, v)] + m[1..])[1..] == m[1..];
    } else if m[0].0 == j {
      assert ([(j, u)] + m[1..])[1..] == m[1..];
      assert ([m[0]] + PutField(m[1..], k, v))[1..] == PutField(m[1..], k, v);
    } else {
      PutSwap(m[1..], k, v, j, u);
      assert ([m[0]] + PutField(m[1..], j, u))[1..] == PutField(m[1..], j, u);
      assert ([m[0]] + PutField(m[1..], k, v))[1..] == PutField(m[1..], k, v);
    }
  }

  /** Assigning a key after others that do not name it is assigning it before them. */
  lemma {:induction false} PutLate(m: Fields, fields: Fields, k: string, v: Value)
    requires Named(m, k) && !Named(fields, k)
    ensures PutField(PutAll(m, fields), k, v) == PutAll(PutField(m, k, v), fields)
    decreases |fields|
  {
    hide PutField;
    if fields != [] {
      var f := fields[0];
      assert fields == [f] + fields[1..];
      NamedFirst(f, fields[1..], k);
      PutSwap(m, k, v, f.0, f.1);
      PutNames(m, f.0, f.1, k);
      PutLate(PutField(m, f.0, f.1), fields[1..], k, v);
    }
  }

  /** What a key was given before does not matter once a later field names it. */
  lemma {:induction false} PutOverridden(m: Fields, fields: Fields, k: string, v: Value, u: Value)
    requires Named(fields, k)
    ensures PutAll(PutField(m, k, v), fields) == PutAll(PutField(m, k, u), fields)
    decreases |fields|
  {
    hide PutField;
    var f := fields[0];
    assert fields == [f] + fields[1..];
    NamedFirst(f, fields[1..], k);
    if f.0 == k {
      PutTwice(m, k, v, f.1);
      PutTwice(m, k, u, f.1);
    } else {
      var mv, mu := PutField(m, k, v), PutField(m, k, u);
      PutTwice(m, k, u, v);
      PutTwice(m, k, u, u);
      PutNames(m, k, u, k);
      PutNames(mu, f.0, f.1, k);
      PutSwap(mu, k, v, f.0, f.1);
      PutTwiceKeep(PutField(mu, f.0, f.1), k, u, mu, f);
      PutOverridden(PutField(mu, f.0, f.1), fields[1..], k, v, u);
    }
  }

  /** Assigning what is there already changes nothing. */
  lemma PutTwiceKeep(m': Fields, k: string, u: Value, mu: Fields, f: (string, Value))
    requires m' == PutField(mu, f.0, f.1) && f.0 != k && Named(mu, k) && PutField(mu, k, u) == mu
    ensures PutField(m', k, u) == m'
  {
    PutSwap(mu, k, u, f.0, f.1);
  }

  /** The outcome tells two values of a key apart just when no later field names it. */
  lemma OutcomeTellsIff(out: Fields, k: string, v: Value, u: Value, later: Fields)
    ensures PutAll(PutField(out, k, v), later) == PutAll(PutField(out, k, u), later) <==> v == u || Named(later, k)
  {
    if Named(later, k) {
      PutOverridden(out, later, k, v, u);
    } else if PutAll(PutField(out, k, v), later) == PutAll(PutField(out, k, u), later) {
      var all := PutAll(PutField(out, k, v), later);
      PutNames(out, k, v, k);
      PutNames(out, k, u, k);
      PutLate(PutField(out, k, v), later, k, u);
      PutLate(PutField(out, k, u), later, k, v);
      PutTwice(out, k, v, u);
      PutTwice(out, k, u, v);
      PutTells(all, k, v, u);
    }
  }

  /** The value an object has for a key. */
  function ValueOf(m: Fields, k: string): Option<Value> {
    if m == [] then None else if m[0].0 == k then Some(m[0].1) else ValueOf(m[1..], k)
  }

  /** Assigning a key changes nothing just when it has the value already. */
  lemma {:induction false} PutSameIff(m: Fields, k: string, v: Value)
    ensures PutField(m, k, v) == m <==> ValueOf(m, k) == Some(v)
  {
    if m == [] {
    } else if m[0].0 == k {
      assert m == [m[0]] + m[1..];
      assert PutField(m, k, v)[0] == (k, v);
    } else {
      PutSameIff(m[1..], k, v);
      assert m == [m[0]] + m[1..];
      assert PutField(m, k, v)[1..] == PutField(m[1..], k, v);
    }
  }

  // ── Objects, whatever the order of their keys ─────────────────────────────

  /** The value the last field of that key gives it. */
  function LastOf(fields: Fields, k: string): Option<Value> {
    if fields == [] then None
    else if LastOf(fields[1..], k).Some? then LastOf(fields[1..], k)
    else if fields[0].0 == k then Some(fields[0].1)
    else None
  }

  /** The same keys with the same values. */
  ghost predicate SameObject(f: Fields, g: Fields) {
    forall k :: ValueOf(f, k) == ValueOf(g, k)
  }

  lemma {:induction false} PutValue(m: Fields, k: string, v: Value, j: string)
    ensures ValueOf(PutField(m, k, v), j) == if j == k then Some(v) else ValueOf(m, j)
  {
    if m == [] {
      assert PutField(m, k, v)[1..] == [];
    } else if m[0].0 == k {
      assert PutField(m, k, v)[1..] == m[1..];
    } else {
      PutValue(m[1..], k, v, j);
      assert PutField(m, k, v)[1..] == PutField(m[1..], k, v);
    }
  }

  lemma {:induction false} PutAllValue(out: Fields, fields: Fields, k: string)
    ensures ValueOf(PutAll(out, fields), k) == if LastOf(fields, k).Some? then LastOf(fields, k) else ValueOf(out, k)
    decreases |fields|
  {
    hide PutField, ValueOf;
    if fields != [] {
      PutValue(out, fields[0].0, fields[0].1, k);
      PutAllValue(PutField(out, fields[0].0, fields[0].1), fields[1..], k);
    }
  }

  lemma {:induction false} LastOfConcat(a: Fields, b: Fields, k: string)
    ensures LastOf(a + b, k) == if LastOf(b, k).Some? then LastOf(b, k) else LastOf(a, k)
  {
    if a == [] {
      assert a + b == b;
    } else {
      LastOfConcat(a[1..], b, k);
      assert (a + b)[1..] == a[1..] + b;
    }
  }

  lemma {:induction false} LastOfNamed(fields: Fields, k: string)
    ensures LastOf(fields, k).Some? <==> Named(fields, k)
  {
    if fields != [] {
      LastOfNamed(fields[1..], k);
      assert fields == [fields[0]] + fields[1..];
      NamedFirst(fields[0], fields[1..], k);
    }
  }

  /** It stands in one of the fields. */
  lemma {:induction false} LastOfIsIn(fields: Fields, k: string)
    ensures LastOf(fields, k).Some? ==> (k, LastOf(fields, k).value) in fields
  {
    if fields != [] {
      LastOfIsIn(fields[1..], k);
      assert fields == [fields[0]] + fields[1..];
    }
  }

  lemma {:induction false} ValueNamed(m: Fields, k: string)
    ensures ValueOf(m, k).Some? <==> Named(m, k)
  {
    if m != [] {
      ValueNamed(m[1..], k);
      assert m == [m[0]] + m[1..];
      NamedFirst(m[0], m[1..], k);
    }
  }

  lemma {:induction false} RemoveValue(m: Fields, key: string, k: string)
    ensures ValueOf(RemoveField(m, key), k) == if k == key then None else ValueOf(m, k)
  {
    if m != [] {
      RemoveValue(m[1..], key, k);
      var rest := RemoveField(m[1..], key);
      if m[0].0 == key {
        assert [] + rest == rest;
      } else {
        assert ([m[0]] + rest)[1..] == rest;
      }
    }
  }
}

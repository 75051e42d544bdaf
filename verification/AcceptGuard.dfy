/**
 * The accept-forbidden guard: a write may carry a human-granted acceptance or a protected property forward
 * unchanged, never introduce, change or remove one.
 *
 * `norm` stands for `trim().toLowerCase()`; everything below holds for any such function.
 */
module AcceptGuard {
  import opened JsString

  /** A parsed frontmatter value. An object's fields keep their insertion order. */
  datatype Value =
    | Str(s: string)
    | Num(n: real)
    | Bool(b: bool)
    | Null
    | List(items: seq<Value>)
    | Map(fields: seq<(string, Value)>)

  type Fields = seq<(string, Value)>

  function KeySet(m: Fields): set<string> {
    set i | 0 <= i < |m| :: m[i].0
  }

  /** The value under a key: the first field with that name. */
  function Get(m: Fields, k: string): (v: Value)
    requires k in KeySet(m)
    ensures exists i :: 0 <= i < |m| && m[i].0 == k && m[i].1 == v
    ensures v in Contents(m)
  {
    if m[0].0 == k then m[0].1
    else
      assert forall i :: 0 <= i < |m| - 1 ==> m[1..][i] == m[i + 1];
      var v := Get(m[1..], k);
      assert v in Contents(m);
      v
  }

  function Contents(m: Fields): set<Value> {
    set i | 0 <= i < |m| :: m[i].1
  }

  ghost predicate DistinctKeys(m: Fields) {
    forall i, j :: 0 <= i < j < |m| ==> m[i].0 != m[j].0
  }

  /** Objects name each key once, at every depth. */
  ghost predicate WellFormed(v: Value) {
    match v
    case List(items) => forall i :: 0 <= i < |items| ==> WellFormed(items[i])
    case Map(fields) => DistinctKeys(fields) && forall i :: 0 <= i < |fields| ==> WellFormed(fields[i].1)
    case _ => true
  }

  /** `fmEqual`: deep equality, blind to the order of an object's keys. */
  predicate FmEqual(a: Value, b: Value) {
    match (a, b)
    case (List(x), List(y)) => |x| == |y| && forall i :: 0 <= i < |x| ==> FmEqual(x[i], y[i])
    case (Map(x), Map(y)) =>
      |x| == |y| && forall i :: 0 <= i < |x| ==> x[i].0 in KeySet(y) && FmEqual(x[i].1, Get(y, x[i].0))
    case _ => a == b
  }

  lemma GetAt(m: Fields, i: nat)
    requires i < |m| && DistinctKeys(m)
    ensures m[i].0 in KeySet(m) && Get(m, m[i].0) == m[i].1
  {
  }

  lemma {:induction false} FmEqualReflexive(a: Value)
    requires WellFormed(a)
    ensures FmEqual(a, a)
  {
    match a
    case List(items) =>
      forall i | 0 <= i < |items| {
        FmEqualReflexive(items[i]);
      }
    case Map(fields) =>
      forall i | 0 <= i < |fields|
        ensures fields[i].0 in KeySet(fields) && FmEqual(fields[i].1, Get(fields, fields[i].0))
      {
        GetAt(fields, i);
        FmEqualReflexive(fields[i].1);
      }
    case _ =>
  }

  lemma {:induction false} KeyCount(m: Fields)
    requires DistinctKeys(m)
    ensures |KeySet(m)| == |m|
  {
    if m != [] {
      var front := m[..|m| - 1];
      KeyCount(front);
      assert KeySet(m) == KeySet(front) + {m[|m| - 1].0};
    }
  }

  lemma SubsetOfSameSize(s: set<string>, t: set<string>)
    requires s <= t && |s| == |t|
    ensures s == t
  {
    assert |t - s| == |t| - |s|;
  }

  /** Objects of the same size where every key of one is a key of the other have the same keys. */
  lemma SameKeys(x: Fields, y: Fields)
    requires DistinctKeys(x) && DistinctKeys(y) && |x| == |y|
    requires forall i :: 0 <= i < |x| ==> x[i].0 in KeySet(y)
    ensures KeySet(x) == KeySet(y)
  {
    KeyCount(x);
    KeyCount(y);
    SubsetOfSameSize(KeySet(x), KeySet(y));
  }

  lemma {:induction false} FmEqualSymmetric(a: Value, b: Value)
    requires WellFormed(a) && WellFormed(b) && FmEqual(a, b)
    ensures FmEqual(b, a)
  {
    match (a, b)
    case (List(x), List(y)) =>
      forall i | 0 <= i < |x| {
        FmEqualSymmetric(x[i], y[i]);
      }
    case (Map(x), Map(y)) =>
      SameKeys(x, y);
      forall j | 0 <= j < |y|
        ensures y[j].0 in KeySet(x) && FmEqual(y[j].1, Get(x, y[j].0))
      {
        assert y[j].0 in KeySet(y);
        var i :| 0 <= i < |x| && x[i].0 == y[j].0;
        GetAt(x, i);
        GetAt(y, j);
        FmEqualSymmetric(x[i].1, y[j].1);
      }
    case _ =>
  }

  lemma {:induction false} FmEqualTransitive(a: Value, b: Value, c: Value)
    requires FmEqual(a, b) && FmEqual(b, c)
    ensures FmEqual(a, c)
  {
    match (a, b, c)
    case (List(x), List(y), List(z)) =>
      forall i | 0 <= i < |x| {
        FmEqualTransitive(x[i], y[i], z[i]);
      }
    case (Map(x), Map(y), Map(z)) =>
      forall i | 0 <= i < |x|
        ensures x[i].0 in KeySet(z) && FmEqual(x[i].1, Get(z, x[i].0))
      {
        var v := Get(y, x[i].0);
        var j :| 0 <= j < |y| && y[j].0 == x[i].0 && y[j].1 == v;
        FmEqualTransitive(x[i].1, v, Get(z, y[j].0));
      }
    case _ =>
  }

  // ── The accepted family ───────────────────────────────────────────────────

  /** `^accepted([-_ ].*)?$` */
  predicate AcceptedName(s: string) {
    || s == "accepted"
    || (|s| > 8 && s[..8] == "accepted" && s[8] in {'-', '_', ' '} && forall c :: c in s[9..] ==> !IsLineTerminator(c))
  }

  predicate StatusName(s: string) {
    s == "acceptance-status" || s == "acceptance_status"
  }

  predicate IsAcceptedValue(norm: string -> string, v: Value) {
    match v
    case Str(s) => norm(s) == "accepted" || "accepted-" <= norm(s) || "accepted " <= norm(s)
    case List(items) => exists i :: 0 <= i < |items| && IsAcceptedValue(norm, items[i])
    case Map(fields) => exists i :: 0 <= i < |fields| && IsAcceptedValue(norm, fields[i].1)
    case _ => false
  }

  /** Equal values assert acceptance alike. */
  lemma {:induction false} AcceptedValueRespectsEquality(norm: string -> string, a: Value, b: Value)
    requires FmEqual(a, b) && IsAcceptedValue(norm, a)
    ensures IsAcceptedValue(norm, b)
  {
    match (a, b)
    case (List(x), List(y)) =>
      var i :| 0 <= i < |x| && IsAcceptedValue(norm, x[i]);
      AcceptedValueRespectsEquality(norm, x[i], y[i]);
    case (Map(x), Map(y)) =>
      var i :| 0 <= i < |x| && IsAcceptedValue(norm, x[i].1);
      var v := Get(y, x[i].0);
      AcceptedValueRespectsEquality(norm, x[i].1, v);
    case _ =>
  }

  /** The field asserts acceptance: an acceptance-provenance key, or a status holding an accepted value. */
  predicate Asserts(norm: string -> string, field: (string, Value)) {
    AcceptedName(norm(field.0)) || (StatusName(norm(field.0)) && IsAcceptedValue(norm, field.1))
  }

  /** `lookupCI`: the first field whose normalized key matches. */
  function LookupCI(norm: string -> string, fm: Fields, key: string): (r: Option<Value>)
    ensures r.Some? ==> exists i :: 0 <= i < |fm| && norm(fm[i].0) == norm(key) && fm[i].1 == r.value
    ensures r.None? ==> forall i :: 0 <= i < |fm| ==> norm(fm[i].0) != norm(key)
  {
    if fm == [] then None
    else if norm(fm[0].0) == norm(key) then Some(fm[0].1)
    else LookupCI(norm, fm[1..], key)
  }

  /** The note's frontmatter already held this assertion with an equal value. */
  predicate CarriedForward(norm: string -> string, before: Fields, field: (string, Value)) {
    var prev := LookupCI(norm, before, field.0);
    prev.Some? && FmEqual(prev.value, field.1)
  }

  // ── Declared protected properties ─────────────────────────────────────────

  function FoldUnderscores(s: string): string {
    seq(|s|, i requires 0 <= i < |s| => if s[i] == '_' then '-' else s[i])
  }

  function Canonical(norm: string -> string, key: string): string {
    FoldUnderscores(norm(key))
  }

  /** `findPropertiesCanonical`: every field whose canonical key is `prop`. */
  function Matching(norm: string -> string, fm: Fields, prop: string): Fields {
    if fm == [] then []
    else
      Matching(norm, fm[..|fm| - 1], prop) + if Canonical(norm, fm[|fm| - 1].0) == prop then [fm[|fm| - 1]] else []
  }

  /** How many fields hold a value equal to `v`. */
  function Count(s: seq<Value>, v: Value): nat {
    if s == [] then 0 else (if FmEqual(s[0], v) then 1 else 0) + Count(s[1..], v)
  }

  function ValuesOf(m: Fields): seq<Value> {
    seq(|m|, i requires 0 <= i < |m| => m[i].1)
  }

  function FindEqual(s: seq<Value>, v: Value): (k: nat)
    ensures k <= |s|
    ensures k < |s| ==> FmEqual(s[k], v)
    ensures forall i :: 0 <= i < k ==> !FmEqual(s[i], v)
  {
    if s == [] || FmEqual(s[0], v) then 0 else 1 + FindEqual(s[1..], v)
  }

  function Splice(s: seq<Value>, i: nat): seq<Value>
    requires i < |s|
  {
    s[..i] + s[i + 1..]
  }

  /** The first value of `nexts` that finds no equal partner left, taking partners greedily; None when all do. */
  function FirstUnmatched(remaining: seq<Value>, nexts: seq<Value>): Option<nat>
    decreases |nexts|
  {
    if nexts == [] then None
    else
      var i := FindEqual(remaining, nexts[0]);
      if i == |remaining| then Some(0)
      else
        match FirstUnmatched(Splice(remaining, i), nexts[1..])
        case None => None
        case Some(k) => Some(k + 1)
  }

  ghost predicate AllWellFormed(s: seq<Value>) {
    forall i :: 0 <= i < |s| ==> WellFormed(s[i])
  }

  lemma {:induction false} CountConcat(s: seq<Value>, t: seq<Value>, v: Value)
    ensures Count(s + t, v) == Count(s, v) + Count(t, v)
  {
    if s == [] {
      assert s + t == t;
    } else {
      assert (s + t)[1..] == s[1..] + t;
      CountConcat(s[1..], t, v);
    }
  }

  lemma CountSplice(s: seq<Value>, i: nat, v: Value)
    requires i < |s|
    ensures Count(Splice(s, i), v) == Count(s, v) - if FmEqual(s[i], v) then 1 else 0
  {
    assert s == s[..i] + ([s[i]] + s[i + 1..]);
    CountConcat(s[..i], [s[i]] + s[i + 1..], v);
    CountConcat(s[..i], s[i + 1..], v);
    CountConcat([s[i]], s[i + 1..], v);
  }

  /** Equal representatives count alike. */
  lemma {:induction false} EqualCountsAlike(a: Value, b: Value, v: Value)
    requires WellFormed(a) && WellFormed(b) && FmEqual(a, b)
    ensures FmEqual(a, v) <==> FmEqual(b, v)
  {
    FmEqualSymmetric(a, b);
    if FmEqual(a, v) {
      FmEqualTransitive(b, a, v);
    }
    if FmEqual(b, v) {
      FmEqualTransitive(a, b, v);
    }
  }

  /** The two sides hold the same multiset of values, up to equality. */
  ghost predicate SameMultiset(s: seq<Value>, t: seq<Value>) {
    forall v :: WellFormed(v) ==> Count(s, v) == Count(t, v)
  }

  /** Greedy matching is exact: it succeeds just when the two sides hold the same multiset of values. */
  lemma {:induction false} GreedyIsExact(remaining: seq<Value>, nexts: seq<Value>)
    requires AllWellFormed(remaining) && AllWellFormed(nexts) && |remaining| == |nexts|
    ensures FirstUnmatched(remaining, nexts).None? <==> SameMultiset(remaining, nexts)
    decreases |nexts|
  {
    if nexts != [] {
      var n, i := nexts[0], FindEqual(remaining, nexts[0]);
      FmEqualReflexive(n);
      if i == |remaining| {
        NoneCounted(remaining, n);
        assert Count(nexts, n) > 0;
      } else {
        GreedyIsExact(Splice(remaining, i), nexts[1..]);
        forall v | WellFormed(v)
          ensures Count(remaining, v) == Count(nexts, v) <==> Count(Splice(remaining, i), v) == Count(nexts[1..], v)
        {
          CountSplice(remaining, i, v);
          EqualCountsAlike(remaining[i], n, v);
        }
      }
    }
  }

  lemma {:induction false} NoneCounted(s: seq<Value>, v: Value)
    requires forall i :: 0 <= i < |s| ==> !FmEqual(s[i], v)
    ensures Count(s, v) == 0
  {
    if s != [] {
      NoneCounted(s[1..], v);
    }
  }
}

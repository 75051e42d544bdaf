/** The verdict over (before, after), and what it guarantees over any sequence of frontmatters it lets through. */
module AcceptTransition {
  import opened JsString
  import opened AcceptGuard

  /** Why a write is refused, and the frontmatter key at fault. */
  datatype Reason =
    | ChangesAcceptance(key: string)
    | IntroducesAcceptance(key: string)
    | SetsAccepted(key: string)
    | IntroducesProtected(key: string)
    | RemovesProtected(key: string)
    | ChangesProtected(key: string)

  /** `declared` holds canonical keys. A note without frontmatter has no fields. */
  datatype Policy = Policy(norm: string -> string, declared: seq<string>)

  // ── The verdict as a function ─────────────────────────────────────────────

  function FieldReason(norm: string -> string, before: Fields, field: (string, Value)): Option<Reason> {
    if !Asserts(norm, field) || CarriedForward(norm, before, field) then None
    else if !AcceptedName(norm(field.0)) then Some(SetsAccepted(field.0))
    else if LookupCI(norm, before, field.0).Some? then Some(ChangesAcceptance(field.0))
    else Some(IntroducesAcceptance(field.0))
  }

  /** The first refusal among the result's fields. */
  function FloorReason(norm: string -> string, before: Fields, after: Fields): Option<Reason> {
    if after == [] then None
    else
      var earlier := FloorReason(norm, before, after[..|after| - 1]);
      if earlier.Some? then earlier else FieldReason(norm, before, after[|after| - 1])
  }

  function PropertyReason(norm: string -> string, before: Fields, after: Fields, prop: string): Option<Reason> {
    var prevs, nexts := Matching(norm, before, prop), Matching(norm, after, prop);
    if prevs == [] && nexts == [] then None
    else if prevs == [] then Some(IntroducesProtected(nexts[0].0))
    else if nexts == [] then Some(RemovesProtected(prevs[0].0))
    else if |prevs| != |nexts| then Some(ChangesProtected(nexts[0].0))
    else
      match FirstUnmatched(ValuesOf(prevs), ValuesOf(nexts))
      case Some(k) => if k < |nexts| then Some(ChangesProtected(nexts[k].0)) else None
      case None => None
  }

  function DeclaredReason(norm: string -> string, before: Fields, after: Fields,
                          declared: seq<string>): Option<Reason> {
    if declared == [] then None
    else
      var earlier := DeclaredReason(norm, before, after, declared[..|declared| - 1]);
      if earlier.Some? then earlier else PropertyReason(norm, before, after, declared[|declared| - 1])
  }

  function TransitionReason(p: Policy, before: Fields, after: Fields): Option<Reason> {
    var floor := FloorReason(p.norm, before, after);
    if floor.Some? then floor else DeclaredReason(p.norm, before, after, p.declared)
  }

  // ── The verdict as the loops of the source ────────────────────────────────

  /** The inner loop of the declared check: strike a partner for each new value off a shrinking list. */
  method MatchGreedily(prevs: seq<Value>, nexts: seq<Value>) returns (mismatch: Option<nat>)
    ensures mismatch == FirstUnmatched(prevs, nexts)
    ensures mismatch.Some? ==> mismatch.value < |nexts|
  {
    var remaining := prevs;
    for k := 0 to |nexts|
      invariant FirstUnmatched(prevs, nexts)
        == match FirstUnmatched(remaining, nexts[k..])
           case None => None
           case Some(j) => Some(k + j)
    {
      var i := FindEqual(remaining, nexts[k]);
      assert nexts[k..][1..] == nexts[k + 1..];
      if i == |remaining| {
        return Some(k);
      }
      remaining := Splice(remaining, i);
    }
    return None;
  }

  /** The checks for one declared property. */
  method PropertyVerdict(norm: string -> string, before: Fields, after: Fields,
                         prop: string) returns (r: Option<Reason>)
    ensures r == PropertyReason(norm, before, after, prop)
  {
    var prevs, nexts := Matching(norm, before, prop), Matching(norm, after, prop);
    if prevs == [] && nexts == [] {
      return None;
    }
    if prevs == [] {
      return Some(IntroducesProtected(nexts[0].0));
    }
    if nexts == [] {
      return Some(RemovesProtected(prevs[0].0));
    }
    if |prevs| != |nexts| {
      return Some(ChangesProtected(nexts[0].0));
    }
    var mismatch := MatchGreedily(ValuesOf(prevs), ValuesOf(nexts));
    return if mismatch.Some? then Some(ChangesProtected(nexts[mismatch.value].0)) else None;
  }

  /** `acceptTransitionReason`. */
  method AcceptTransitionReason(p: Policy, before: Fields, after: Fields) returns (r: Option<Reason>)
    ensures r == TransitionReason(p, before, after)
  {
    hide FieldReason, PropertyReason;
    for i := 0 to |after|
      invariant FloorReason(p.norm, before, after[..i]) == None
    {
      assert after[..i + 1][..i] == after[..i];
      r := FieldReason(p.norm, before, after[i]);
      if r.Some? {
        FloorStops(p.norm, before, after, i + 1);
        return;
      }
    }
    assert after[..|after|] == after;
    for d := 0 to |p.declared|
      invariant DeclaredReason(p.norm, before, after, p.declared[..d]) == None
    {
      assert p.declared[..d + 1][..d] == p.declared[..d];
      r := PropertyVerdict(p.norm, before, after, p.declared[d]);
      if r.Some? {
        DeclaredStops(p.norm, before, after, p.declared, d + 1);
        return;
      }
    }
    assert p.declared[..|p.declared|] == p.declared;
    return None;
  }

  lemma {:induction false} FloorStops(norm: string -> string, before: Fields, after: Fields, i: nat)
    requires i <= |after| && FloorReason(norm, before, after[..i]).Some?
    ensures FloorReason(norm, before, after) == FloorReason(norm, before, after[..i])
  {
    if i < |after| {
      assert after[..|after| - 1][..i] == after[..i];
      FloorStops(norm, before, after[..|after| - 1], i);
    } else {
      assert after[..i] == after;
    }
  }

  lemma {:induction false} DeclaredStops(norm: string -> string, before: Fields, after: Fields, declared: seq<string>,
                                         d: nat)
    requires d <= |declared|
    ensures DeclaredReason(norm, before, after, declared[..d]).Some? ==>
      DeclaredReason(norm, before, after, declared) == DeclaredReason(norm, before, after, declared[..d])
  {
    if d < |declared| {
      assert declared[..|declared| - 1][..d] == declared[..d];
      DeclaredStops(norm, before, after, declared[..|declared| - 1], d);
    } else {
      assert declared[..d] == declared;
    }
  }

  // ── What a clean verdict means ────────────────────────────────────────────

  ghost predicate Tree(fm: Fields) {
    DistinctKeys(fm) && forall i :: 0 <= i < |fm| ==> WellFormed(fm[i].1)
  }

  /** Every assertion in the result was there before with an equal value. */
  ghost predicate FloorHeld(norm: string -> string, before: Fields, after: Fields) {
    forall i :: 0 <= i < |after| && Asserts(norm, after[i]) ==> CarriedForward(norm, before, after[i])
  }

  /** The property carries the same multiset of values, up to equality, on both sides. */
  ghost predicate PropertyHeld(norm: string -> string, before: Fields, after: Fields, prop: string) {
    SameMultiset(ValuesOf(Matching(norm, before, prop)), ValuesOf(Matching(norm, after, prop)))
  }

  lemma {:induction false} FloorIsExact(norm: string -> string, before: Fields, after: Fields)
    ensures FloorReason(norm, before, after).None? <==> FloorHeld(norm, before, after)
  {
    if after != [] {
      FloorIsExact(norm, before, after[..|after| - 1]);
    }
  }

  lemma {:induction false} MatchingIsTree(norm: string -> string, fm: Fields, prop: string)
    requires Tree(fm)
    ensures AllWellFormed(ValuesOf(Matching(norm, fm, prop)))
  {
    if fm != [] {
      var front, last := fm[..|fm| - 1], fm[|fm| - 1];
      MatchingIsTree(norm, front, prop);
      assert ValuesOf(Matching(norm, front, prop) + [last]) == ValuesOf(Matching(norm, front, prop)) + [last.1];
      assert Matching(norm, front, prop) + [] == Matching(norm, front, prop);
    }
  }

  /** A value with no partner on the other side tells the two sides apart. */
  lemma NoPartner(s: seq<Value>, t: seq<Value>)
    requires s != [] && AllWellFormed(s) && FindEqual(t, s[0]) == |t|
    ensures !SameMultiset(s, t)
  {
    FmEqualReflexive(s[0]);
    NoneCounted(t, s[0]);
    assert Count(s, s[0]) != Count(t, s[0]);
  }

  /** Sides of different sizes hold different multisets. */
  lemma {:induction false} SameMultisetSameSize(s: seq<Value>, t: seq<Value>)
    requires AllWellFormed(s) && AllWellFormed(t) && SameMultiset(s, t)
    ensures |s| == |t|
    decreases |s|
  {
    if s == [] {
      if t != [] {
        NoPartner(t, s);
      }
    } else {
      var i := FindEqual(t, s[0]);
      if i == |t| {
        NoPartner(s, t);
      } else {
        forall v | WellFormed(v)
          ensures Count(s[1..], v) == Count(Splice(t, i), v)
        {
          CountSplice(t, i, v);
          EqualCountsAlike(t[i], s[0], v);
        }
        SameMultisetSameSize(s[1..], Splice(t, i));
      }
    }
  }

  lemma PropertyIsExact(norm: string -> string, before: Fields, after: Fields, prop: string)
    requires Tree(before) && Tree(after)
    ensures PropertyReason(norm, before, after, prop).None? <==> PropertyHeld(norm, before, after, prop)
  {
    var prevs, nexts := ValuesOf(Matching(norm, before, prop)), ValuesOf(Matching(norm, after, prop));
    MatchingIsTree(norm, before, prop);
    MatchingIsTree(norm, after, prop);
    if |prevs| == |nexts| {
      GreedyIsExact(prevs, nexts);
      UnmatchedInRange(prevs, nexts);
    } else if SameMultiset(prevs, nexts) {
      SameMultisetSameSize(prevs, nexts);
    }
  }

  lemma {:induction false} UnmatchedInRange(remaining: seq<Value>, nexts: seq<Value>)
    ensures FirstUnmatched(remaining, nexts).Some? ==> FirstUnmatched(remaining, nexts).value < |nexts|
    decreases |nexts|
  {
    if nexts != [] {
      var i := FindEqual(remaining, nexts[0]);
      if i < |remaining| {
        UnmatchedInRange(Splice(remaining, i), nexts[1..]);
      }
    }
  }

  lemma {:induction false} DeclaredIsExact(norm: string -> string, before: Fields, after: Fields, declared: seq<string>)
    requires Tree(before) && Tree(after)
    ensures DeclaredReason(norm, before, after, declared).None?
       <==> forall prop :: prop in declared ==> PropertyHeld(norm, before, after, prop)
  {
    if declared != [] {
      var front, last := declared[..|declared| - 1], declared[|declared| - 1];
      assert declared == front + [last];
      DeclaredIsExact(norm, before, after, front);
      PropertyIsExact(norm, before, after, last);
    }
  }

  /** A write is let through exactly when it keeps every assertion and every protected multiset. */
  lemma CleanExactly(p: Policy, before: Fields, after: Fields)
    requires Tree(before) && Tree(after)
    ensures TransitionReason(p, before, after).None?
       <==> FloorHeld(p.norm, before, after)
            && forall prop :: prop in p.declared ==> PropertyHeld(p.norm, before, after, prop)
  {
    FloorIsExact(p.norm, before, after);
    DeclaredIsExact(p.norm, before, after, p.declared);
  }

  // ── Runs of transitions ────────────────────────────────────────────────────

  /** Successive frontmatters, each let through by the guard after the one before. */
  ghost predicate GuardedRun(p: Policy, run: seq<Fields>) {
    && (forall i :: 0 <= i < |run| ==> Tree(run[i]))
    && forall i :: 0 < i < |run| ==> TransitionReason(p, run[i - 1], run[i]).None?
  }

  /** `fm` has a field of that normalized name, itself an assertion, with an equal value. */
  ghost predicate AlreadyAsserted(norm: string -> string, fm: Fields, field: (string, Value)) {
    exists i :: 0 <= i < |fm| && norm(fm[i].0) == norm(field.0) && Asserts(norm, fm[i]) && FmEqual(fm[i].1, field.1)
  }

  /** A carried-forward assertion was an assertion before. */
  lemma CarriedWasAsserted(norm: string -> string, before: Fields, after: Fields, field: (string, Value))
    requires Tree(before) && Tree(after) && field in after
    requires Asserts(norm, field) && CarriedForward(norm, before, field)
    ensures AlreadyAsserted(norm, before, field)
  {
    var v := LookupCI(norm, before, field.0).value;
    var i :| 0 <= i < |before| && norm(before[i].0) == norm(field.0) && before[i].1 == v;
    if !AcceptedName(norm(field.0)) {
      FmEqualSymmetric(v, field.1);
      AcceptedValueRespectsEquality(norm, field.1, v);
    }
  }

  /**
   * However many transitions let through: what the last frontmatter asserts, the first asserted with an equal value.
   */
  lemma {:induction false} AssertionsCarried(p: Policy, run: seq<Fields>, field: (string, Value))
    requires GuardedRun(p, run) && run != []
    requires field in run[|run| - 1] && Asserts(p.norm, field)
    ensures AlreadyAsserted(p.norm, run[0], field)
  {
    if |run| == 1 {
      FmEqualReflexive(field.1);
    } else {
      var front, last := run[..|run| - 1], run[|run| - 1];
      var before := front[|front| - 1];
      assert TransitionReason(p, run[|run| - 2], last).None?;
      CleanExactly(p, before, last);
      CarriedWasAsserted(p.norm, before, last, field);
      var i :| 0 <= i < |before| && p.norm(before[i].0) == p.norm(field.0)
        && Asserts(p.norm, before[i]) && FmEqual(before[i].1, field.1);
      AssertionsCarried(p, front, before[i]);
      var j :| 0 <= j < |run[0]| && p.norm(run[0][j].0) == p.norm(before[i].0)
        && Asserts(p.norm, run[0][j]) && FmEqual(run[0][j].1, before[i].1);
      FmEqualTransitive(run[0][j].1, before[i].1, field.1);
    }
  }

  /** However many transitions let through: a declared property ends with the multiset of values it started with. */
  lemma {:induction false} PropertyCarried(p: Policy, run: seq<Fields>, prop: string)
    requires GuardedRun(p, run) && run != [] && prop in p.declared
    ensures PropertyHeld(p.norm, run[0], run[|run| - 1], prop)
  {
    if |run| > 1 {
      var front := run[..|run| - 1];
      PropertyCarried(p, front, prop);
      assert TransitionReason(p, run[|run| - 2], run[|run| - 1]).None?;
      CleanExactly(p, run[|run| - 2], run[|run| - 1]);
    }
  }

  /** `acceptTransitionNeedsBefore`: whether the note on disk must be read to decide. */
  predicate NeedsBefore(p: Policy, after: Fields) {
    p.declared != [] || TransitionReason(p, [], after).Some?
  }

  /** Skipping the read never changes the verdict. */
  lemma ShortcutIsSound(p: Policy, before: Fields, after: Fields)
    requires !NeedsBefore(p, after)
    ensures TransitionReason(p, before, after) == None
  {
    FloorIsExact(p.norm, [], after);
    FloorIsExact(p.norm, before, after);
  }
}

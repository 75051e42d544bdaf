/**
 * The standing ref and its compare-and-set in claim ids: calls of `standingAdvance` cut at every await, in
 * any interleaving. An object id stands for the commit it names, so a commit is its own id.
 */
module Standing {
  import opened JsString

  datatype Commit = Commit(message: string, blob: string, parents: seq<Commit>, timestamp: int)

  // ── Claim ids in commit messages ──────────────────────────────────────────

  predicate IsIdChar(c: char) {
    '0' <= c <= '9' || 'a' <= c <= 'f' || c == '-'
  }

  function IdEnd(s: string, i: nat): (k: nat)
    requires i <= |s|
    ensures i <= k <= |s| && (k < |s| ==> !IsIdChar(s[k]))
    ensures forall j :: i <= j < k ==> IsIdChar(s[j])
    decreases |s| - i
  {
    if i < |s| && IsIdChar(s[i]) then IdEnd(s, i + 1) else i
  }

  const PREFIX := "admission "

  /** `STANDING_MESSAGE`: the captured claim id. */
  function MatchStanding(text: string): Option<string> {
    if !At(text, 0, PREFIX) then None
    else
      var k := IdEnd(text, |PREFIX|);
      if k > |PREFIX| && k < |text| && text[k] == '\n' then Some(text[|PREFIX|..k]) else None
  }

  /** `claimIdOf`; a commit that is no admission record has none. */
  function ClaimIdOf(c: Commit): Option<string> {
    MatchStanding(c.message + "\n")
  }

  function ClaimAt(ref: Option<Commit>): Option<string> {
    if ref.None? then None else ClaimIdOf(ref.value)
  }

  datatype CurrentStanding = Nothing | Claim(id: string) | CriticalFailure

  /** `currentStanding`: a ref that names anything but an admission record is a failure, never absence. */
  function Current(ref: Option<Commit>): CurrentStanding {
    match ref
    case None => Nothing
    case Some(c) => match ClaimIdOf(c) case None => CriticalFailure case Some(id) => Claim(id)
  }

  predicate IsClaimId(id: string) {
    id != "" && forall i :: 0 <= i < |id| ==> IsIdChar(id[i])
  }

  function Admission(claimId: string, blob: string, parent: Option<Commit>, timestamp: int): Commit {
    Commit(PREFIX + claimId + "\n", blob, if parent.None? then [] else [parent.value], timestamp)
  }

  lemma {:induction false} IdEndIs(s: string, i: nat, k: nat)
    requires i <= k < |s| && !IsIdChar(s[k]) && forall j :: i <= j < k ==> IsIdChar(s[j])
    ensures IdEnd(s, i) == k
    decreases k - i
  {
    if i < k {
      IdEndIs(s, i + 1, k);
    }
  }

  /** The id written into a commit is read back exactly when it is a well-formed claim id. */
  lemma ClaimIdComesBackIff(claimId: string, blob: string, parent: Option<Commit>, timestamp: int)
    ensures ClaimIdOf(Admission(claimId, blob, parent, timestamp)) == Some(claimId) <==> IsClaimId(claimId)
  {
    var text := PREFIX + claimId + "\n" + "\n";
    assert Admission(claimId, blob, parent, timestamp).message + "\n" == text;
    assert text[..|PREFIX|] == PREFIX;
    assert text[|PREFIX|..|PREFIX| + |claimId|] == claimId;
    if IsClaimId(claimId) {
      assert forall j :: |PREFIX| <= j < |PREFIX| + |claimId| ==> text[j] == claimId[j - |PREFIX|];
      IdEndIs(text, |PREFIX|, |PREFIX| + |claimId|);
    }
  }

  /**
   * What reads back of an id written into a commit: its leading id characters, if the text ends or a line feed follows.
   */
  function ReadBack(claimId: string): Option<string> {
    var k := IdEnd(claimId, 0);
    if k > 0 && (k == |claimId| || claimId[k] == '\n') then Some(claimId[..k]) else None
  }

  lemma ReadBackIs(claimId: string, blob: string, parent: Option<Commit>, timestamp: int)
    ensures ClaimIdOf(Admission(claimId, blob, parent, timestamp)) == ReadBack(claimId)
  {
    var text := PREFIX + claimId + "\n" + "\n";
    var k := IdEnd(claimId, 0);
    assert Admission(claimId, blob, parent, timestamp).message + "\n" == text;
    assert text[..|PREFIX|] == PREFIX;
    assert forall j :: 0 <= j < |claimId| ==> text[|PREFIX| + j] == claimId[j];
    assert text[|PREFIX| + |claimId|] == '\n';
    IdEndIs(text, |PREFIX|, |PREFIX| + k);
    assert text[|PREFIX|..|PREFIX| + k] == claimId[..k];
  }

  // ── Interleaved calls ─────────────────────────────────────────────────────

  /** Where a call stands: `cur` is what the ref named when it looked. */
  datatype Phase =
    | Asked
    | Resolved(cur: Option<Commit>)
    | Prepared(cur: Option<Commit>, commit: Commit)
    | Advanced
    | Refused

  datatype Call = Call(expected: Option<string>, next: string, phase: Phase)

  /** `heads` is every value the ref was set to, and `winners` the call that set each. */
  datatype World = World(ref: Option<Commit>, calls: seq<Call>, heads: seq<Commit>, winners: seq<nat>)

  datatype Step =
    | Ask(expected: Option<string>, next: string)
    | Resolve(call: nat)
    | Compare(call: nat, blob: string, timestamp: int)
    | CasRef(call: nat)

  const INITIAL := World(None, [], [], [])

  function PhaseOf(w: World, c: nat): Option<Phase> {
    if c < |w.calls| then Some(w.calls[c].phase) else None
  }

  function Move(w: World, c: nat, phase: Phase): World
    requires c < |w.calls|
  {
    w.(calls := w.calls[c := w.calls[c].(phase := phase)])
  }

  function Compared(w: World, c: nat, blob: string, timestamp: int): World
    requires c < |w.calls| && w.calls[c].phase.Resolved?
  {
    var call := w.calls[c];
    var cur := call.phase.cur;
    if ClaimAt(cur) != call.expected then Move(w, c, Refused)
    else Move(w, c, Prepared(cur, Admission(call.next, blob, cur, timestamp)))
  }

  /** `casRef`, atomic: the ref moves only if it still names what the call saw. */
  function Cas(w: World, c: nat): World
    requires c < |w.calls| && w.calls[c].phase.Prepared?
  {
    var p := w.calls[c].phase;
    if w.ref != p.cur then Move(w, c, Refused)
    else Move(w, c, Advanced).(ref := Some(p.commit), heads := w.heads + [p.commit], winners := w.winners + [c])
  }

  function Take(w: World, step: Step): World {
    match step
    case Ask(expected, next) => w.(calls := w.calls + [Call(expected, next, Asked)])
    case Resolve(c) => if PhaseOf(w, c) == Some(Asked) then Move(w, c, Resolved(w.ref)) else w
    case Compare(c, blob, timestamp) =>
      if PhaseOf(w, c).Some? && PhaseOf(w, c).value.Resolved? then Compared(w, c, blob, timestamp) else w
    case CasRef(c) => if PhaseOf(w, c).Some? && PhaseOf(w, c).value.Prepared? then Cas(w, c) else w
  }

  function After(steps: seq<Step>): World {
    if steps == [] then INITIAL else Take(After(steps[..|steps| - 1]), steps[|steps| - 1])
  }

  // ── The invariant ─────────────────────────────────────────────────────────

  /** What the ref named before its `i`-th advance. */
  function HeadBefore(heads: seq<Commit>, i: nat): Option<Commit>
    requires i <= |heads|
  {
    if i == 0 then None else Some(heads[i - 1])
  }

  function ParentsOf(parent: Option<Commit>): seq<Commit> {
    if parent.None? then [] else [parent.value]
  }

  /** Each head has the one before it as its only parent. */
  ghost predicate Chained(heads: seq<Commit>) {
    forall i :: 0 <= i < |heads| ==> heads[i].parents == ParentsOf(HeadBefore(heads, i))
  }

  /**
   * The `i`-th advance was made by a call whose expected claim stood just before it, and left its next claim's commit.
   */
  ghost predicate Won(w: World, i: nat)
    requires i < |w.heads| && |w.winners| == |w.heads|
  {
    var c := w.winners[i];
    && c < |w.calls| && w.calls[c].phase.Advanced?
    && ClaimAt(HeadBefore(w.heads, i)) == w.calls[c].expected
    && w.heads[i].message == PREFIX + w.calls[c].next + "\n"
  }

  ghost predicate Pending(w: World, c: nat)
    requires c < |w.calls|
  {
    w.calls[c].phase.Prepared? ==>
      var p := w.calls[c].phase;
      && ClaimAt(p.cur) == w.calls[c].expected
      && p.commit.message == PREFIX + w.calls[c].next + "\n"
      && p.commit.parents == ParentsOf(p.cur)
  }

  ghost predicate Inv(w: World) {
    && w.ref == HeadBefore(w.heads, |w.heads|)
    && Chained(w.heads)
    && |w.winners| == |w.heads|
    && (forall i :: 0 <= i < |w.heads| ==> Won(w, i))
    && (forall i, j :: 0 <= i < j < |w.winners| ==> w.winners[i] != w.winners[j])
    && (forall c :: 0 <= c < |w.calls| ==> Pending(w, c))
    && (forall c :: 0 <= c < |w.calls| && w.calls[c].phase.Advanced? ==> c in w.winners)
  }

  /** A call moves on without touching the ref; it neither was nor becomes a success. */
  lemma MoveKeeps(w: World, c: nat, phase: Phase)
    requires Inv(w) && c < |w.calls| && !w.calls[c].phase.Advanced? && !phase.Advanced?
    requires Pending(Move(w, c, phase), c)
    ensures Inv(Move(w, c, phase))
  {
    hide ClaimAt, Chained;
    var w' := Move(w, c, phase);
    forall i | 0 <= i < |w.heads|
      ensures Won(w', i)
    {
      assert Won(w, i);
    }
    forall d | 0 <= d < |w.calls|
      ensures Pending(w', d)
    {
      assert Pending(w, d);
    }
  }

  lemma AskKeeps(w: World, expected: Option<string>, next: string)
    requires Inv(w)
    ensures Inv(Take(w, Ask(expected, next)))
  {
    hide ClaimAt, Chained;
    var w' := Take(w, Ask(expected, next));
    forall i | 0 <= i < |w.heads|
      ensures Won(w', i)
    {
      assert Won(w, i);
    }
    forall c | 0 <= c < |w.calls|
      ensures Pending(w', c)
    {
      assert Pending(w, c);
    }
  }

  lemma CasKeeps(w: World, c: nat)
    requires Inv(w) && c < |w.calls| && w.calls[c].phase.Prepared?
    ensures Inv(Cas(w, c))
  {
    hide ClaimAt;
    assert Pending(w, c);
    if w.ref != w.calls[c].phase.cur {
      MoveKeeps(w, c, Refused);
    } else {
      var w' := Cas(w, c);
      ChainGrows(w.heads, w.calls[c].phase.commit);
      hide Chained;
      forall i | 0 <= i < |w'.heads|
        ensures Won(w', i)
      {
        if i < |w.heads| {
          assert Won(w, i);
        }
      }
      forall d | 0 <= d < |w.calls|
        ensures Pending(w', d)
      {
        assert Pending(w, d);
      }
      if c in w.winners {
        WinnersAdvanced(w, c);
      }
      forall d | 0 <= d < |w'.calls| && w'.calls[d].phase.Advanced?
        ensures d in w'.winners
      {
        assert w'.winners[|w.winners|] == c;
        assert d == c || d in w.winners;
      }
    }
  }

  lemma WinnersAdvanced(w: World, c: nat)
    requires Inv(w) && c in w.winners
    ensures c < |w.calls| && w.calls[c].phase.Advanced?
  {
    hide ClaimAt, Chained;
    var i :| 0 <= i < |w.winners| && w.winners[i] == c;
    assert Won(w, i);
  }

  lemma ChainGrows(heads: seq<Commit>, c: Commit)
    requires Chained(heads) && c.parents == ParentsOf(HeadBefore(heads, |heads|))
    ensures Chained(heads + [c])
  {
    hide ParentsOf;
    forall i | 0 <= i <= |heads|
      ensures HeadBefore(heads + [c], i) == HeadBefore(heads, i)
    {
    }
  }

  lemma StepKeeps(w: World, step: Step)
    requires Inv(w)
    ensures Inv(Take(w, step))
  {
    hide Inv, ClaimAt, Cas;
    match step
    case Ask(expected, next) => AskKeeps(w, expected, next);
    case Resolve(c) =>
      if PhaseOf(w, c) == Some(Asked) {
        MoveKeeps(w, c, Resolved(w.ref));
      }
    case Compare(c, blob, timestamp) =>
      if c < |w.calls| && w.calls[c].phase.Resolved? {
        MoveKeeps(w, c, Compared(w, c, blob, timestamp).calls[c].phase);
      }
    case CasRef(c) =>
      if c < |w.calls| && w.calls[c].phase.Prepared? {
        CasKeeps(w, c);
      }
  }

  lemma {:induction false} RunKeeps(steps: seq<Step>)
    ensures Inv(After(steps))
  {
    hide Take;
    if steps != [] {
      RunKeeps(steps[..|steps| - 1]);
      StepKeeps(After(steps[..|steps| - 1]), steps[|steps| - 1]);
    }
  }

  // ── What every interleaving guarantees ────────────────────────────────────

  /** The history of the ref is one chain that only ever grows at its head. */
  lemma StandingIsOneChain(steps: seq<Step>, more: seq<Step>)
    ensures Chained(After(steps).heads) && After(steps).ref == HeadBefore(After(steps).heads, |After(steps).heads|)
    ensures After(steps).heads <= After(steps + more).heads
  {
    hide Take;
    RunKeeps(steps);
    HeadsGrow(steps, more);
  }

  lemma {:induction false} HeadsGrow(steps: seq<Step>, more: seq<Step>)
    ensures After(steps).heads <= After(steps + more).heads
  {
    if more == [] {
      assert steps + more == steps;
    } else {
      HeadsGrow(steps, more[..|more| - 1]);
      assert (steps + more)[..|steps + more| - 1] == steps + more[..|more| - 1];
    }
  }

  function Depth(c: Commit): nat {
    if c.parents == [] then 0 else 1 + Depth(c.parents[0])
  }

  lemma DepthStep(c: Commit, parent: Option<Commit>)
    requires c.parents == ParentsOf(parent)
    ensures Depth(c) == if parent.None? then 0 else 1 + Depth(parent.value)
  {
  }

  lemma ChainStep(heads: seq<Commit>, i: nat)
    requires Chained(heads) && i < |heads|
    ensures Depth(heads[i]) == if i == 0 then 0 else 1 + Depth(heads[i - 1])
  {
    hide Depth;
    DepthStep(heads[i], HeadBefore(heads, i));
  }

  lemma {:induction false} DepthIsPosition(heads: seq<Commit>, i: nat)
    requires Chained(heads) && i < |heads|
    ensures Depth(heads[i]) == i
    decreases i
  {
    hide Depth, Chained;
    ChainStep(heads, i);
    if i > 0 {
      DepthIsPosition(heads, i - 1);
    }
  }

  /** No value of the ref ever returns, so a compare-and-set cannot mistake a later value for the one it saw. */
  lemma HeadsNeverRepeat(steps: seq<Step>, i: nat, j: nat)
    requires i < j < |After(steps).heads|
    ensures After(steps).heads[i] != After(steps).heads[j]
  {
    hide After;
    RunKeeps(steps);
    DepthIsPosition(After(steps).heads, i);
    DepthIsPosition(After(steps).heads, j);
  }

  /** A call that advances the ref does so while its expected claim stands; otherwise the ref does not move. */
  lemma AdvanceNeedsItsClaim(steps: seq<Step>, step: Step)
    ensures var w, w' := After(steps), Take(After(steps), step);
      w'.ref == w.ref ||
      (step.CasRef? && step.call < |w.calls| && w'.calls[step.call].phase.Advanced?
       && ClaimAt(w.ref) == w.calls[step.call].expected && w'.heads == w.heads + [w'.ref.value])
  {
    hide After;
    RunKeeps(steps);
    var w := After(steps);
    if step.CasRef? && step.call < |w.calls| {
      assert Pending(w, step.call);
    }
  }

  /** Advances and the calls that report success are the same thing, one for one. */
  lemma OneAdvancePerSuccess(steps: seq<Step>, c: nat)
    requires c < |After(steps).calls|
    ensures var w := After(steps);
      w.calls[c].phase.Advanced? <==> exists i :: 0 <= i < |w.winners| && w.winners[i] == c
    ensures var w := After(steps);
      |w.winners| == |w.heads| && forall i, j :: 0 <= i < j < |w.winners| ==> w.winners[i] != w.winners[j]
  {
    hide After;
    RunKeeps(steps);
    var w := After(steps);
    if c in w.winners {
      var i :| 0 <= i < |w.winners| && w.winners[i] == c;
      assert Won(w, i);
    }
  }

  /**
   * In claim ids the successful calls form one chain as well: the first expected nothing, and each later one
   * what reads back of the claim admitted before it, which is that claim exactly when its id was well-formed.
   */
  lemma ClaimsChain(steps: seq<Step>, i: nat)
    requires i < |After(steps).heads|
    ensures var w := After(steps);
      && |w.winners| == |w.heads| && w.winners[i] < |w.calls|
      && (i == 0 ==> w.calls[w.winners[i]].expected == None)
      && (i > 0 ==>
            w.winners[i - 1] < |w.calls| &&
            var previous, expected := w.calls[w.winners[i - 1]].next, w.calls[w.winners[i]].expected;
            expected == ReadBack(previous) && (expected == Some(previous) <==> IsClaimId(previous)))
  {
    hide After, ReadBack;
    RunKeeps(steps);
    var w := After(steps);
    assert Won(w, i);
    if i > 0 {
      assert Won(w, i - 1);
      var h := w.heads[i - 1];
      var next := w.calls[w.winners[i - 1]].next;
      ClaimIdComesBackIff(next, h.blob, HeadBefore(w.heads, i - 1), h.timestamp);
      ReadBackIs(next, h.blob, HeadBefore(w.heads, i - 1), h.timestamp);
      assert h == Admission(next, h.blob, HeadBefore(w.heads, i - 1), h.timestamp);
    }
  }

  /** One call from its start to its compare-and-set, with no other in between. */
  function Alone(c: nat, expected: Option<string>, next: string): seq<Step> {
    [Ask(expected, next), Resolve(c), Compare(c, "", 0), CasRef(c)]
  }

  lemma Extend(steps: seq<Step>, step: Step)
    ensures After(steps + [step]) == Take(After(steps), step)
  {
  }

  lemma AloneIsFourSteps(steps: seq<Step>, c: nat, expected: Option<string>, next: string)
    ensures After(steps + Alone(c, expected, next))
         == Take(Take(Take(Take(After(steps), Ask(expected, next)), Resolve(c)), Compare(c, "", 0)), CasRef(c))
  {
    hide Take, After;
    Extend(steps, Ask(expected, next));
    Extend(steps + [Ask(expected, next)], Resolve(c));
    Extend(steps + [Ask(expected, next)] + [Resolve(c)], Compare(c, "", 0));
    Extend(steps + [Ask(expected, next)] + [Resolve(c)] + [Compare(c, "", 0)], CasRef(c));
    assert steps + Alone(c, expected, next)
      == steps + [Ask(expected, next)] + [Resolve(c)] + [Compare(c, "", 0)] + [CasRef(c)];
  }

  function With(w: World, call: Call): World {
    w.(calls := w.calls + [call])
  }

  lemma MoveLast(w: World, call: Call, phase: Phase)
    ensures Move(With(w, call), |w.calls|, phase) == With(w, call.(phase := phase))
  {
    assert (w.calls + [call])[|w.calls| := call.(phase := phase)] == w.calls + [call.(phase := phase)];
  }

  lemma ResolveLast(w: World, expected: Option<string>, next: string)
    ensures Take(With(w, Call(expected, next, Asked)), Resolve(|w.calls|))
         == With(w, Call(expected, next, Resolved(w.ref)))
  {
    hide Move;
    MoveLast(w, Call(expected, next, Asked), Resolved(w.ref));
  }

  lemma CompareLast(w: World, expected: Option<string>, next: string)
    requires ClaimAt(w.ref) == expected
    ensures Take(With(w, Call(expected, next, Resolved(w.ref))), Compare(|w.calls|, "", 0))
         == With(w, Call(expected, next, Prepared(w.ref, Admission(next, "", w.ref, 0))))
  {
    hide Move, ClaimAt, Admission;
    MoveLast(w, Call(expected, next, Resolved(w.ref)), Prepared(w.ref, Admission(next, "", w.ref, 0)));
  }

  lemma CasLast(w: World, expected: Option<string>, next: string, commit: Commit)
    ensures Take(With(w, Call(expected, next, Prepared(w.ref, commit))), CasRef(|w.calls|))
         == World(Some(commit), w.calls + [Call(expected, next, Advanced)], w.heads + [commit], w.winners + [|w.calls|])
  {
    hide Move;
    MoveLast(w, Call(expected, next, Prepared(w.ref, commit)), Advanced);
  }

  /** Left alone, a call that expects what stands succeeds. */
  lemma AloneSucceeds(steps: seq<Step>, expected: Option<string>, next: string)
    requires ClaimAt(After(steps).ref) == expected
    ensures var w := After(steps); var commit := Admission(next, "", w.ref, 0);
      After(steps + Alone(|w.calls|, expected, next))
      == World(Some(commit), w.calls + [Call(expected, next, Advanced)], w.heads + [commit], w.winners + [|w.calls|])
  {
    var w := After(steps);
    AloneIsFourSteps(steps, |w.calls|, expected, next);
    assert Take(w, Ask(expected, next)) == With(w, Call(expected, next, Asked));
    hide After, Take, ClaimAt, Admission, Alone, With;
    ResolveLast(w, expected, next);
    CompareLast(w, expected, next);
    CasLast(w, expected, next, Admission(next, "", w.ref, 0));
  }

  /**
   * Two calls that both expect nothing: the second wins over the first exactly when nothing reads back of the first's
   * id.
   */
  lemma ExpectingNothingWinsTwiceIff(first: string, second: string)
    ensures var w := After(Alone(0, None, first) + Alone(1, None, second));
      |w.calls| == 2 && w.winners == (if ReadBack(first).None? then [0, 1] else [0])
      && w.calls[1].phase == (if ReadBack(first).None? then Advanced else Refused)
  {
    hide After, ReadBack;
    assert [] + Alone(0, None, first) == Alone(0, None, first) && After([]) == INITIAL by { Start(); }
    AloneSucceeds([], None, first);
    ReadBackIs(first, "", None, 0);
    if ReadBack(first).None? {
      AloneSucceeds(Alone(0, None, first), None, second);
    } else {
      AloneIsFourSteps(Alone(0, None, first), 1, None, second);
    }
  }

  lemma Start()
    ensures After([]) == INITIAL
  {
  }

  /**
   * With a well-formed id the ref then names it; otherwise it names none, and reading it is a critical failure or
   * another id.
   */
  lemma AdvancedRefNamesTheClaimIff(w: World, c: nat)
    requires Inv(w) && c < |w.calls| && w.calls[c].phase.Prepared? && w.ref == w.calls[c].phase.cur
    ensures Current(Cas(w, c).ref) == Claim(w.calls[c].next) <==> IsClaimId(w.calls[c].next)
  {
    assert Pending(w, c);
    var k := w.calls[c].phase.commit;
    ClaimIdComesBackIff(w.calls[c].next, k.blob, w.calls[c].phase.cur, k.timestamp);
    assert k == Admission(w.calls[c].next, k.blob, w.calls[c].phase.cur, k.timestamp);
  }

  // ── The calls as the source runs them ─────────────────────────────────────

  /** The repository's standing ref and the calls in flight on it. */
  class StandingRef {
    var ref: Option<Commit>
    var calls: seq<Call>
    ghost var heads: seq<Commit>
    ghost var winners: seq<nat>

    constructor ()
      ensures View() == INITIAL
    {
      ref, calls, heads, winners := None, [], [], [];
    }

    ghost function View(): World
      reads this
    {
      World(ref, calls, heads, winners)
    }

    method StandingAdvance(expected: Option<string>, next: string) returns (c: nat)
      modifies this`calls
      ensures View() == Take(old(View()), Ask(expected, next)) && c == |old(calls)|
    {
      c := |calls|;
      calls := calls + [Call(expected, next, Asked)];
    }

    method ResolveRef(c: nat)
      requires PhaseOf(View(), c) == Some(Asked)
      modifies this`calls
      ensures View() == Take(old(View()), Resolve(c))
    {
      var curOid := ref;
      calls := calls[c := calls[c].(phase := Resolved(curOid))];
    }

    /** Compare the claim the call saw with the one it expects, and write its commit. */
    method CompareAndWrite(c: nat, blob: string, timestamp: int)
      requires c < |calls| && calls[c].phase.Resolved?
      modifies this`calls
      ensures View() == Take(old(View()), Compare(c, blob, timestamp))
    {
      var curOid := calls[c].phase.cur;
      var curClaim := if curOid.None? then None else ClaimIdOf(curOid.value);
      if curClaim != calls[c].expected {
        calls := calls[c := calls[c].(phase := Refused)];
        return;
      }
      var parents := if curOid.None? then [] else [curOid.value];
      var commit := Commit(PREFIX + calls[c].next + "\n", blob, parents, timestamp);
      calls := calls[c := calls[c].(phase := Prepared(curOid, commit))];
    }

    method CompareAndSet(c: nat)
      requires c < |calls| && calls[c].phase.Prepared?
      modifies this
      ensures View() == Take(old(View()), CasRef(c))
    {
      var p := calls[c].phase;
      if ref != p.cur {
        calls := calls[c := calls[c].(phase := Refused)];
        return;
      }
      ref := Some(p.commit);
      heads, winners := heads + [p.commit], winners + [c];
      calls := calls[c := calls[c].(phase := Advanced)];
    }
  }
}

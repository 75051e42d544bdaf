/**
 * The server's write kernel: operations chained on one another's promises, each journaled inside its slot.
 * Nothing here says that one runs at a time or in order; that follows from what each is chained on.
 */
module FsWriteKernel {
  import opened JsString

  datatype Outcome = Ok | Error(text: string)

  /** `Settled`: the caller has its result. `Drained`: the tail after it has resolved and the depth was lowered. */
  datatype Phase =
    | Waiting
    | Running
    | Journaling(outcome: Outcome)
    | Settled(outcome: Outcome)
    | Drained(outcome: Outcome)

  /** `after` is the operation whose tail was current when this one was chained. */
  datatype Op = Op(after: Option<nat>, phase: Phase)

  datatype Record = Record(op: nat, outcome: Outcome)

  /** `attempts` is every append tried, `file` those the disk took. */
  datatype Kernel = Kernel(ops: seq<Op>, depth: int, attempts: seq<Record>, file: seq<Record>)

  datatype Step =
    | Run
    | Start(op: nat)
    | Handled(op: nat, outcome: Outcome)
    | Journaled(op: nat, written: bool)
    | Drain(op: nat)

  const INITIAL := Kernel([], 0, [], [])

  function Set(k: Kernel, i: nat, phase: Phase): Kernel
    requires i < |k.ops|
  {
    k.(ops := k.ops[i := k.ops[i].(phase := phase)])
  }

  /** What it was chained on has resolved: never a rejection, whatever became of that operation. */
  predicate TailResolved(k: Kernel, i: nat)
    requires i < |k.ops|
  {
    k.ops[i].after.None? || (k.ops[i].after.value < |k.ops| && k.ops[k.ops[i].after.value].phase.Drained?)
  }

  predicate Enabled(k: Kernel, step: Step) {
    match step
    case Run => true
    case Start(i) => i < |k.ops| && k.ops[i].phase.Waiting? && TailResolved(k, i)
    case Handled(i, _) => i < |k.ops| && k.ops[i].phase.Running?
    case Journaled(i, _) => i < |k.ops| && k.ops[i].phase.Journaling?
    case Drain(i) => i < |k.ops| && k.ops[i].phase.Settled?
  }

  function Take(k: Kernel, step: Step): Kernel {
    if !Enabled(k, step) then k
    else
      match step
      case Run =>
        k.(ops := k.ops + [Op(if k.ops == [] then None else Some(|k.ops| - 1), Waiting)], depth := k.depth + 1)
      case Start(i) => Set(k, i, Running)
      case Handled(i, outcome) => Set(k, i, Journaling(outcome))
      case Journaled(i, written) =>
        var r := Record(i, k.ops[i].phase.outcome);
        Set(k, i, Settled(r.outcome)).(attempts := k.attempts + [r], file := if written then k.file + [r] else k.file)
      case Drain(i) => Set(k, i, Drained(k.ops[i].phase.outcome)).(depth := k.depth - 1)
  }

  function After(steps: seq<Step>): Kernel {
    if steps == [] then INITIAL else Take(After(steps[..|steps| - 1]), steps[|steps| - 1])
  }

  predicate Recorded(phase: Phase) {
    phase.Settled? || phase.Drained?
  }

  function DrainedCount(ops: seq<Op>): nat {
    if ops == [] then 0
    else DrainedCount(ops[..|ops| - 1]) + if ops[|ops| - 1].phase.Drained? then 1 else 0
  }

  ghost predicate OneAtATime(k: Kernel) {
    forall i, j :: 0 <= i < j < |k.ops| && !k.ops[j].phase.Waiting? ==> k.ops[i].phase.Drained?
  }

  /** Attempts name operations 0, 1, 2, … with the outcome each one's caller gets. */
  ghost predicate InOrder(k: Kernel) {
    && |k.attempts| <= |k.ops|
    && (forall i :: 0 <= i < |k.ops| ==> (Recorded(k.ops[i].phase) <==> i < |k.attempts|))
    && (forall i :: 0 <= i < |k.attempts| ==> k.attempts[i] == Record(i, k.ops[i].phase.outcome))
  }

  ghost predicate Inv(k: Kernel) {
    && (forall i :: 0 <= i < |k.ops| ==> k.ops[i].after == if i == 0 then None else Some(i - 1))
    && OneAtATime(k)
    && InOrder(k)
    && k.depth == |k.ops| - DrainedCount(k.ops)
  }

  lemma {:induction false} CountSet(ops: seq<Op>, i: nat, op: Op)
    requires i < |ops|
    ensures DrainedCount(ops[i := op]) == DrainedCount(ops)
      + (if op.phase.Drained? then 1 else 0) - (if ops[i].phase.Drained? then 1 else 0)
  {
    var init := ops[..|ops| - 1];
    if i < |ops| - 1 {
      CountSet(init, i, op);
      assert ops[i := op][..|ops| - 1] == init[i := op];
    } else {
      assert ops[i := op][..|ops| - 1] == init;
    }
  }

  lemma RunKeeps(k: Kernel)
    requires Inv(k)
    ensures Inv(Take(k, Run))
  {
    var k' := Take(k, Run);
    assert k'.ops[..|k.ops|] == k.ops;
  }

  lemma StepKeeps(k: Kernel, step: Step)
    requires Inv(k)
    ensures Inv(Take(k, step))
  {
    hide DrainedCount;
    if Enabled(k, step) {
      match step
      case Run => RunKeeps(k);
      case Start(i) => CountSet(k.ops, i, Take(k, step).ops[i]);
      case Handled(i, _) => CountSet(k.ops, i, Take(k, step).ops[i]);
      case Journaled(i, _) =>
        CountSet(k.ops, i, Take(k, step).ops[i]);
        NextToRecord(k, i);
      case Drain(i) => CountSet(k.ops, i, Take(k, step).ops[i]);
    }
  }

  /** The operation about to be journaled is the first without a record. */
  lemma NextToRecord(k: Kernel, i: nat)
    requires OneAtATime(k) && InOrder(k) && i < |k.ops| && k.ops[i].phase.Journaling?
    ensures |k.attempts| == i
  {
    if i > 0 {
      assert k.ops[i - 1].phase.Drained?;
    }
  }

  lemma {:induction false} RunsKeep(steps: seq<Step>)
    ensures Inv(After(steps))
  {
    hide Take;
    if steps != [] {
      RunsKeep(steps[..|steps| - 1]);
      StepKeeps(After(steps[..|steps| - 1]), steps[|steps| - 1]);
    }
  }

  // ── What every run guarantees ─────────────────────────────────────────────

  /** No operation has begun before every one enqueued earlier is done, so none runs beside another or out of turn. */
  lemma RunsOneAtATimeInOrder(steps: seq<Step>, i: nat, j: nat)
    requires i < j < |After(steps).ops|
    ensures After(steps).ops[j].phase.Waiting? || After(steps).ops[i].phase.Drained?
  {
    hide After;
    RunsKeep(steps);
  }

  /** Each operation whose caller has a result was journaled exactly once, in its turn, with that result's outcome. */
  lemma OneAttemptEachInOrder(steps: seq<Step>, i: nat)
    requires i < |After(steps).ops|
    ensures var k := After(steps);
      && (Recorded(k.ops[i].phase) <==> i < |k.attempts|)
      && (i < |k.attempts| ==> k.attempts[i] == Record(i, k.ops[i].phase.outcome))
      && |k.attempts| <= |k.ops|
  {
    hide After;
    RunsKeep(steps);
  }

  lemma StepAppends(k: Kernel, step: Step)
    ensures var k' := Take(k, step);
      || (k'.attempts == k.attempts && k'.file == k.file)
      || exists r :: k'.attempts == k.attempts + [r] && (k'.file == k.file || k'.file == k.file + [r])
  {
  }

  lemma WithinGrows(a: seq<Record>, b: seq<Record>, r: Record)
    requires Within(a, b)
    ensures Within(a, b + [r]) && Within(a + [r], b + [r])
  {
    assert (a + [r])[..|a|] == a && (b + [r])[..|b|] == b;
  }

  /** The file holds attempts only, in their order: what the disk refused is missing, nothing else is. */
  lemma {:induction false} FileIsOfAttempts(steps: seq<Step>)
    ensures Within(After(steps).file, After(steps).attempts)
  {
    hide Take, Within;
    if steps == [] {
      NothingWithin();
    } else {
      var k := After(steps[..|steps| - 1]);
      FileIsOfAttempts(steps[..|steps| - 1]);
      StepAppends(k, steps[|steps| - 1]);
      var k' := After(steps);
      if k'.attempts != k.attempts {
        var r :| k'.attempts == k.attempts + [r] && (k'.file == k.file || k'.file == k.file + [r]);
        WithinGrows(k.file, k.attempts, r);
      }
    }
  }

  lemma NothingWithin()
    ensures Within([], [])
  {
  }

  /** `a` is `b` with some records left out. */
  predicate Within(a: seq<Record>, b: seq<Record>) {
    a == [] ||
    (b != [] &&
      if a[|a| - 1] == b[|b| - 1] then Within(a[..|a| - 1], b[..|b| - 1]) || Within(a, b[..|b| - 1])
      else Within(a, b[..|b| - 1]))
  }

  /** `depth` counts what was enqueued and has not drained. */
  lemma DepthIsWhatIsLeft(steps: seq<Step>)
    ensures After(steps).depth == |After(steps).ops| - DrainedCount(After(steps).ops)
  {
    RunsKeep(steps);
  }

  /** The next step of an operation that is not done. */
  function NextStep(i: nat, phase: Phase): Step
    requires !phase.Drained?
  {
    match phase
    case Waiting => Start(i)
    case Running => Handled(i, Ok)
    case Journaling(_) => Journaled(i, true)
    case Settled(_) => Drain(i)
  }

  /** Nothing blocks: the first operation not done can always move, however those before it ended. */
  lemma SomethingCanMove(steps: seq<Step>, i: nat)
    requires i < |After(steps).ops| && !After(steps).ops[i].phase.Drained?
    requires forall j :: 0 <= j < i ==> After(steps).ops[j].phase.Drained?
    ensures Enabled(After(steps), NextStep(i, After(steps).ops[i].phase))
  {
    hide After;
    RunsKeep(steps);
  }

  // ── The queue as the source runs it ───────────────────────────────────────

  class FsWriteQueue {
    var ops: seq<Op>
    var depth: int
    var tail: Option<nat>
    var attempts: seq<Record>
    var file: seq<Record>

    constructor ()
      ensures View() == INITIAL && Valid()
    {
      ops, depth, tail, attempts, file := [], 0, None, [], [];
    }

    ghost function View(): Kernel
      reads this
    {
      Kernel(ops, depth, attempts, file)
    }

    ghost predicate Valid()
      reads this
    {
      tail == if ops == [] then None else Some(|ops| - 1)
    }

    /** `run`: count it, chain it on the tail, and make it the tail. */
    method Run() returns (i: nat)
      requires Valid()
      modifies this
      ensures Valid() && View() == Take(old(View()), Step.Run) && i == |old(ops)|
    {
      depth := depth + 1;
      i := |ops|;
      ops := ops + [Op(tail, Waiting)];
      tail := Some(i);
    }

    method Begin(i: nat)
      requires Valid() && Enabled(View(), Start(i))
      modifies this`ops
      ensures Valid() && View() == Take(old(View()), Start(i))
    {
      ops := ops[i := ops[i].(phase := Running)];
    }

    /** The `try` of `runMutation`: `thrown` is the handler's failure, if it failed. */
    method HandlerEnds(i: nat, thrown: Option<string>)
      requires Valid() && i < |ops| && ops[i].phase.Running?
      modifies this`ops
      ensures Valid() && View() == Take(old(View()), Handled(i, if thrown.Some? then Error(thrown.value) else Ok))
    {
      var outcome := Ok;
      if thrown.Some? {
        outcome := Error(thrown.value);
      }
      ops := ops[i := ops[i].(phase := Journaling(outcome))];
    }

    /** The `finally`: one append, whose failure is swallowed, and only then the caller's result. */
    method AppendAndSettle(i: nat, written: bool)
      requires Valid() && i < |ops| && ops[i].phase.Journaling?
      modifies this
      ensures Valid() && View() == Take(old(View()), Journaled(i, written))
    {
      var record := Record(i, ops[i].phase.outcome);
      attempts := attempts + [record];
      if written {
        file := file + [record];
      }
      ops := ops[i := ops[i].(phase := Settled(record.outcome))];
    }

    method TailSettles(i: nat)
      requires Valid() && i < |ops| && ops[i].phase.Settled?
      modifies this
      ensures Valid() && View() == Take(old(View()), Drain(i))
    {
      depth := depth - 1;
      ops := ops[i := ops[i].(phase := Drained(ops[i].phase.outcome))];
    }
  }
}

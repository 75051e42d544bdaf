/** The guarantees of the mutation kernel over whole runs. */
module KernelTheorems {
  import opened JsString
  import opened IdempotencyModel
  import opened KernelModel
  import opened KernelRuns

  /** In every run each call journals exactly one record, when it ends. */
  lemma OneRecordPerCall(cfg: Config, steps: seq<Step>, c: nat)
    ensures Count(After(cfg, steps).journal, c) == if IsDone(After(cfg, steps), c) then 1 else 0
  {
    hide After, Count, Tied, Backed, Queueing, Sourced, IsDone;
    RunKeeps(cfg, steps);
  }

  /**
   * A deduplicated record names a record already in the journal: that of an owner of the same key, which
   * asked the same thing and gave its own caller the same reply.
   */
  lemma DedupeNamesAnOwnersRecord(cfg: Config, steps: seq<Step>, j: nat) returns (i: nat)
    requires j < |After(cfg, steps).journal| && After(cfg, steps).journal[j].outcome.Deduped?
    ensures i < j
    ensures var w := After(cfg, steps);
      Sources(w, i, w.journal[j].call) && w.journal[j].dedupeOf == Some(w.journal[i].ts)
  {
    hide After, Count, Tied, Backed, Queueing, Sources;
    RunKeeps(cfg, steps);
    var w := After(cfg, steps);
    assert Sourced(w, j);
    i :| i < j && Sources(w, i, w.journal[j].call) && w.journal[i].ts == w.journal[j].dedupeOf.value;
  }

  /** Calls begin in the order they were queued, one at a time, and none is lost from the queue. */
  lemma BegunInOrder(cfg: Config, steps: seq<Step>)
    ensures var w := After(cfg, steps); w.begun <= w.enqueued && w.enqueued == w.begun + w.queue
    ensures forall i, j :: 0 <= i < j < |After(cfg, steps).enqueued| ==>
      After(cfg, steps).enqueued[i] < After(cfg, steps).enqueued[j]
    ensures var w := After(cfg, steps);
      forall c :: 0 <= c < |w.calls| ==>
        (w.calls[c].phase.Queued? ==> c in w.queue) && (w.calls[c].phase.Running? ==> w.running == Some(c))
  {
    hide After, Count, Tied, Backed, Sourced;
    RunKeeps(cfg, steps);
  }

  // ── Optimistic concurrency ────────────────────────────────────────────────

  /** Call `c` asked to write `path` only if it stands at revision `rev`. */
  predicate Guards(w: Kernel, c: nat, path: string, rev: int) {
    c < |w.calls| && w.calls[c].mc.path == Some(path) && w.calls[c].mc.req.ifRev == Some(rev)
  }

  predicate StandsAt(w: Kernel, path: string, rev: int) {
    path in w.revs && w.revs[path] == rev
  }

  ghost predicate Spent(w: Kernel) {
    && (forall p :: p in w.revs ==> (p, w.revs[p]) in w.seen)
    && (forall c, p, r :: (c, p) in w.wrote && Guards(w, c, p, r) ==> (p, r) in w.seen && !StandsAt(w, p, r))
    && (forall p, r :: w.running.Some? && Guards(w, w.running.value, p, r) ==>
         (p, r) in w.seen && NoOtherWrote(w, w.running.value, p, r))
    && (forall c, d, p, r ::
         (c, p) in w.wrote && (d, p) in w.wrote && Guards(w, c, p, r) && Guards(w, d, p, r) ==> c == d)
  }

  ghost predicate NoOtherWrote(w: Kernel, c: nat, path: string, rev: int) {
    forall d :: (d, path) in w.wrote && Guards(w, d, path, rev) ==> d == c
  }

  /** Only calls that were queued write or hold the queue; waiters and replays never were. */
  ghost predicate Apart(w: Kernel) {
    && (forall i :: 0 <= i < |w.enqueued| ==> w.enqueued[i] < |w.calls|)
    && (forall c :: 0 <= c < |w.calls| && w.calls[c].phase.Waiting? ==> c !in w.enqueued)
    && (forall j :: 0 <= j < |w.journal| && w.journal[j].outcome.Deduped? ==>
          w.journal[j].call < |w.calls| && w.journal[j].call !in w.enqueued)
    && (forall c, p :: (c, p) in w.wrote ==> c in w.enqueued)
    && (forall i :: 0 <= i < |w.queue| ==> w.queue[i] in w.enqueued)
    && (w.running.Some? ==> w.running.value in w.enqueued)
  }

  /** Neither what calls asked nor what was written has changed, except for calls that have written nothing. */
  ghost predicate SameWrites(w: Kernel, w': Kernel) {
    && w'.revs == w.revs && w'.seen == w.seen && w'.wrote == w.wrote
    && |w.calls| <= |w'.calls| && forall c :: 0 <= c < |w.calls| ==> w'.calls[c].mc == w.calls[c].mc
  }

  lemma SpentQuiet(w: Kernel, w': Kernel)
    requires Spent(w) && Apart(w) && SameWrites(w, w')
    requires w'.running == w.running || w'.running.None?
    ensures Spent(w')
  {
    GuardsSame(w, w');
  }

  lemma GuardsSame(w: Kernel, w': Kernel)
    requires Apart(w) && SameWrites(w, w')
    ensures forall c: nat, p, r :: c < |w.calls| ==> Guards(w', c, p, r) == Guards(w, c, p, r)
    ensures forall c, p :: (c, p) in w.wrote ==> c < |w.calls|
    ensures w.running.Some? ==> w.running.value < |w.calls|
  {
  }

  /** The check that lets a call run found its revision standing, so no writer of that revision came before. */
  lemma SpentBegin(w: Kernel, w': Kernel, c: nat)
    requires Spent(w) && Apart(w) && SameWrites(w, w') && w'.running == Some(c) && c < |w.calls|
    requires w.calls[c].mc.req.ifRev.None? || Rev(w, w.calls[c].mc.path) == w.calls[c].mc.req.ifRev
    ensures Spent(w')
  {
    GuardsSame(w, w');
    forall p, r | Guards(w', c, p, r)
      ensures (p, r) in w.seen && NoOtherWrote(w', c, p, r)
    {
      assert StandsAt(w, p, r);
    }
  }

  /** A change spends the revision that stood, and the new one has never stood. */
  lemma SpentChange(w: Kernel, byRunning: bool, path: string, rev: Option<int>)
    requires Spent(w) && Apart(w) && Enabled(w, Change(byRunning, path, rev))
    ensures Spent(ChangePath(w, byRunning, path, rev))
  {
    var w' := ChangePath(w, byRunning, path, rev);
    forall c: nat, p, r
      ensures Guards(w', c, p, r) == Guards(w, c, p, r)
    {
    }
    forall c, p, r | (c, p) in w'.wrote && Guards(w, c, p, r)
      ensures (p, r) in w'.seen && !StandsAt(w', p, r)
    {
      assert (p, r) in w.seen;
    }
  }

  /** A call joins the others, in the queue or with its record, or to wait. */
  predicate Joins(w: Kernel, w': Kernel, call: Call) {
    && w'.calls == w.calls + [call] && w'.wrote == w.wrote && w'.running == w.running
    && (if call.phase.Queued? then w'.queue == w.queue + [|w.calls|] && w'.enqueued == w.enqueued + [|w.calls|]
        else w'.queue == w.queue && w'.enqueued == w.enqueued)
    && (w'.journal == w.journal
        || (!call.phase.Queued? && |w'.journal| == |w.journal| + 1 && w'.journal[|w.journal|].call == |w.calls|
            && w'.journal == w.journal + [w'.journal[|w.journal|]]))
  }

  lemma ApartAdd(w: Kernel, w': Kernel, call: Call)
    requires Apart(w) && Joins(w, w', call)
    ensures Apart(w')
  {
  }

  predicate OfAWaiter(w: Kernel, r: Record) {
    r.outcome.Deduped? ==> r.call < |w.calls| && w.calls[r.call].phase.Waiting?
  }

  lemma ApartStep(w: Kernel, w': Kernel)
    requires Apart(w) && |w'.calls| == |w.calls| && w'.enqueued == w.enqueued
    requires forall c :: 0 <= c < |w.calls| && w'.calls[c].phase.Waiting? ==> w.calls[c].phase.Waiting?
    requires w'.queue == w.queue || (w.queue != [] && w'.queue == w.queue[1..])
    requires w'.running == w.running || w'.running.None? || (w.queue != [] && w'.running == Some(w.queue[0]))
    requires forall c, p :: (c, p) in w'.wrote && (c, p) !in w.wrote ==> w.running == Some(c)
    requires w'.journal == w.journal || exists r: Record :: w'.journal == w.journal + [r] && OfAWaiter(w, r)
    ensures Apart(w')
  {
  }

  lemma WritesKeep(cfg: Config, w: Kernel, step: Step)
    requires Spent(w) && Apart(w) && Enabled(w, step)
    ensures Spent(Take(cfg, w, step)) && Apart(Take(cfg, w, step))
  {
    hide Spent, Apart, StartCall, BeginCall, FinalizeCall, WakeCall;
    var w' := Take(cfg, w, step);
    match step
    case Start(mc, now, ts) => StartWrites(cfg, w, mc, now, ts);
    case Begin(refusal) => BeginWrites(w, refusal);
    case Change(own, path, rev) =>
      SpentChange(w, own, path, rev);
      ApartStep(w, w');
    case Settle(end) =>
      SpentQuiet(w, w');
      ApartStep(w, w');
    case Finalize(c, now, ts) => FinalizeWrites(cfg, w, c, now, ts);
    case Wake(c, ts) => WakeWrites(w, c, ts);
  }

  lemma BeginWrites(w: Kernel, refusal: Option<string>)
    requires Spent(w) && Apart(w) && CanBegin(w)
    ensures Spent(BeginCall(w, refusal)) && Apart(BeginCall(w, refusal))
  {
    hide Spent, Apart;
    var w' := BeginCall(w, refusal);
    if w'.running.Some? {
      SpentBegin(w, w', w.queue[0]);
    } else {
      SpentQuiet(w, w');
    }
    ApartStep(w, w');
  }

  lemma FinalizeWrites(cfg: Config, w: Kernel, c: nat, now: int, ts: string)
    requires Spent(w) && Apart(w) && Enabled(w, Finalize(c, now, ts))
    ensures Spent(FinalizeCall(cfg, w, c, now, ts)) && Apart(FinalizeCall(cfg, w, c, now, ts))
  {
    hide Spent, Apart;
    var w' := FinalizeCall(cfg, w, c, now, ts);
    SpentQuiet(w, w');
    var r := Record(c, ts, OutcomeOf(w.calls[c].phase.end), None);
    assert w'.journal == w.journal + [r] && OfAWaiter(w, r);
    ApartStep(w, w');
  }

  lemma WakeWrites(w: Kernel, c: nat, ts: string)
    requires Spent(w) && Apart(w) && Enabled(w, Wake(c, ts))
    ensures Spent(WakeCall(w, c, ts)) && Apart(WakeCall(w, c, ts))
  {
    hide Spent, Apart;
    var w' := WakeCall(w, c, ts);
    SpentQuiet(w, w');
    var r := w'.journal[|w.journal|];
    assert w'.journal == w.journal + [r] && OfAWaiter(w, r);
    ApartStep(w, w');
  }

  lemma StartWrites(cfg: Config, w: Kernel, mc: Context, now: int, ts: string)
    requires Spent(w) && Apart(w)
    ensures Spent(StartCall(cfg, w, mc, now, ts)) && Apart(StartCall(cfg, w, mc, now, ts))
  {
    hide Spent, Apart, StartCall, Joins, SameWrites;
    var w' := StartCall(cfg, w, mc, now, ts);
    var call := StartJoins(cfg, w, mc, now, ts);
    assert w'.running == w.running by { JoinsQuietly(w, w', call); }
    SpentQuiet(w, w');
    ApartAdd(w, w', call);
  }

  lemma StartJoins(cfg: Config, w: Kernel, mc: Context, now: int, ts: string) returns (call: Call)
    ensures var w' := StartCall(cfg, w, mc, now, ts); Joins(w, w', call) && SameWrites(w, w')
  {
    hide Present, MismatchText, I.Take;
    call := StartCall(cfg, w, mc, now, ts).calls[|w.calls|];
  }

  lemma JoinsQuietly(w: Kernel, w': Kernel, call: Call)
    requires Joins(w, w', call)
    ensures w'.running == w.running
  {
  }

  lemma {:induction false} WritesHold(cfg: Config, steps: seq<Step>)
    ensures Spent(After(cfg, steps)) && Apart(After(cfg, steps))
  {
    hide Take, Spent, Apart;
    if steps == [] {
      NothingWritten();
    } else {
      WritesHold(cfg, steps[..|steps| - 1]);
      var w, step := After(cfg, steps[..|steps| - 1]), steps[|steps| - 1];
      if Enabled(w, step) {
        WritesKeep(cfg, w, step);
      } else {
        DisabledStep(cfg, w, step);
      }
    }
  }

  lemma DisabledStep(cfg: Config, w: Kernel, step: Step)
    requires !Enabled(w, step)
    ensures Take(cfg, w, step) == w
  {
  }

  lemma NothingWritten()
    ensures Spent(INITIAL) && Apart(INITIAL)
  {
  }

  /** Of all calls that present one revision of one note, at most one ever writes the note. */
  lemma OneWriterPerRevision(cfg: Config, steps: seq<Step>, c: nat, d: nat, path: string, rev: int)
    requires var w := After(cfg, steps);
      && (c, path) in w.wrote && (d, path) in w.wrote && Guards(w, c, path, rev) && Guards(w, d, path, rev)
    ensures c == d
  {
    hide After, Apart;
    WritesHold(cfg, steps);
  }

  /** A call that adopted another's outcome was never queued, and wrote nothing. */
  lemma DedupedCallsNeverWrite(cfg: Config, steps: seq<Step>, j: nat, path: string)
    requires j < |After(cfg, steps).journal| && After(cfg, steps).journal[j].outcome.Deduped?
    ensures var w := After(cfg, steps); w.journal[j].call !in w.enqueued && (w.journal[j].call, path) !in w.wrote
  {
    hide After, Spent;
    WritesHold(cfg, steps);
  }

  // ── Nobody is stranded ────────────────────────────────────────────────────

  /** How many steps of its own a call still has before it. */
  function Left(phase: Phase): nat {
    match phase
    case Queued => 3
    case Running => 2
    case Finished(_) => 1
    case Waiting(_) => 1
    case Done(_) => 0
  }

  function Remaining(calls: seq<Call>): nat {
    if calls == [] then 0 else Remaining(calls[..|calls| - 1]) + Left(calls[|calls| - 1].phase)
  }

  /** A step that carries a call already there towards its end. */
  predicate Completing(step: Step) {
    step.Begin? || step.Settle? || step.Finalize? || step.Wake?
  }

  lemma {:induction false} RemainingUpdate(calls: seq<Call>, c: nat, call: Call)
    requires c < |calls|
    ensures Remaining(calls[c := call]) + Left(calls[c].phase) == Remaining(calls) + Left(call.phase)
  {
    hide Left;
    var front, last := calls[..|calls| - 1], |calls| - 1;
    if c == last {
      assert calls[c := call][..last] == front;
    } else {
      RemainingUpdate(front, c, call);
      assert calls[c := call][..last] == front[c := call];
    }
  }

  /** The call a completing step carries on. */
  function Carried(w: Kernel, step: Step): nat
    requires Completing(step) && Enabled(w, step)
  {
    match step
    case Begin(_) => w.queue[0]
    case Settle(_) => w.running.value
    case Finalize(c, _, _) => c
    case Wake(c, _) => c
  }

  /** Only that call moves, and it moves on. */
  lemma CarriedMoves(cfg: Config, w: Kernel, step: Step)
    requires Queueing(w) && Completing(step) && Enabled(w, step)
    ensures var c, w' := Carried(w, step), Take(cfg, w, step);
      && c < |w.calls| == |w'.calls| && w'.calls == w.calls[c := w'.calls[c]]
      && Left(w'.calls[c].phase) < Left(w.calls[c].phase)
  {
    hide I.Take;
    match step
    case Begin(_) => assert w.calls[w.queue[0]].phase.Queued?;
    case Settle(_) => assert w.calls[w.running.value].phase.Running?;
    case Finalize(c, _, _) =>
    case Wake(c, _) =>
  }

  /** Every such step brings some call nearer its end and no call farther from it. */
  lemma CompletingLowers(cfg: Config, steps: seq<Step>, step: Step)
    requires Completing(step) && Enabled(After(cfg, steps), step)
    ensures var w, w' := After(cfg, steps), Take(cfg, After(cfg, steps), step);
      |w'.calls| == |w.calls| && Remaining(w'.calls) < Remaining(w.calls)
  {
    hide After, Take, Remaining, Left, Tied, Backed, Recorded, Queueing, Enabled, Completing;
    RunKeeps(cfg, steps);
    var w := After(cfg, steps);
    var c := Carried(w, step);
    CarriedMoves(cfg, w, step);
    RemainingUpdate(w.calls, c, Take(cfg, w, step).calls[c]);
  }

  /** A call that neither waits nor has ended can be carried on, itself or the one the queue is busy with. */
  lemma QueueCanMove(w: Kernel, c: nat) returns (step: Step)
    requires Queueing(w) && c < |w.calls| && !w.calls[c].phase.Done? && !w.calls[c].phase.Waiting?
    ensures Completing(step) && Enabled(w, step)
  {
    match w.calls[c].phase
    case Finished(_) => step := Finalize(c, 0, "");
    case Running => step := Settle(Envelope("", false));
    case Queued => step := if w.running.Some? then Settle(Envelope("", false)) else Begin(None);
  }

  /** While any call is unfinished, some call already there can be carried on: a waiter's owner, if not the waiter. */
  lemma NobodyIsStranded(cfg: Config, steps: seq<Step>, c: nat) returns (step: Step)
    requires c < |After(cfg, steps).calls| && !IsDone(After(cfg, steps), c)
    ensures Completing(step) && Enabled(After(cfg, steps), step)
  {
    hide After, Backed, Recorded, Queueing;
    RunKeeps(cfg, steps);
    var w := After(cfg, steps);
    if !w.calls[c].phase.Waiting? {
      step := QueueCanMove(w, c);
    } else if w.calls[c].phase.on in w.idem.store.promises {
      step := Wake(c, "");
    } else {
      assert CallTied(w, c);
      var owner := w.owners[w.calls[c].phase.on];
      assert CallTied(w, owner);
      step := QueueCanMove(w, owner);
    }
  }

  /** From every reachable state the calls already there can all be carried to their ends, with no other arriving. */
  lemma EveryCallCanFinish(cfg: Config, steps: seq<Step>) returns (more: seq<Step>)
    ensures forall i :: 0 <= i < |more| ==> Completing(more[i])
    ensures |After(cfg, steps + more).calls| == |After(cfg, steps).calls|
    ensures forall c :: 0 <= c < |After(cfg, steps).calls| ==> IsDone(After(cfg, steps + more), c)
    decreases Remaining(After(cfg, steps).calls)
  {
    hide Remaining, Take, Enabled;
    var w := After(cfg, steps);
    if c :| 0 <= c < |w.calls| && !IsDone(w, c) {
      var step := NobodyIsStranded(cfg, steps, c);
      CompletingLowers(cfg, steps, step);
      assert After(cfg, steps + [step]) == Take(cfg, w, step);
      var rest := EveryCallCanFinish(cfg, steps + [step]);
      more := [step] + rest;
      assert steps + more == steps + [step] + rest;
    } else {
      more := [];
      assert steps + more == steps;
    }
  }
}

/**
 * The mutation kernel as the interleaving of its calls: `runMutation` is cut at every point where the
 * source gives up control, and the pieces of all calls may alternate in any order.
 */
module KernelModel {
  import opened JsString
  import opened IdempotencyModel
  import I = IdempotencyRuns

  /** What a caller hands in: an optional idempotency key, the call's identity and its primary target. */
  datatype Context = Context(key: Option<string>, req: Request, path: Option<string>)

  /** How the queued closure ended: an envelope, possibly reporting failure, or a throw. */
  datatype End = Envelope(result: string, isError: bool) | Throw(error: string, conflict: bool)

  datatype Reply = Gave(result: string) | Failed(error: string)

  datatype Phase =
    | Queued
    | Running
    | Finished(end: End)
    | Waiting(on: nat)
    | Done(reply: Reply)

  /** `token` is the reservation a call owns. */
  datatype Call = Call(mc: Context, token: Option<nat>, phase: Phase)

  datatype Outcome = Ok | Error | Conflict | Deduped

  datatype Record = Record(call: nat, ts: string, outcome: Outcome, dedupeOf: Option<string>)

  /**
   * `revs` is the live revision of every path that has one. The last four fields are history: which call
   * owned each token, every revision a path has had, who wrote what, and the order calls were queued and begun.
   */
  datatype Kernel = Kernel(
    idem: I.World,
    calls: seq<Call>,
    queue: seq<nat>,
    running: Option<nat>,
    journal: seq<Record>,
    revs: map<string, int>,
    owners: map<nat, nat>,
    seen: set<(string, int)>,
    wrote: set<(nat, string)>,
    enqueued: seq<nat>,
    begun: seq<nat>)

  datatype Step =
    /** A call arrives; everything up to its first wait. */
    | Start(mc: Context, now: int, ts: string)
    /** The queue is free and runs its oldest call's checks; `refusal` is a failed probe or an immutable record. */
    | Begin(refusal: Option<string>)
    /** The running call, or someone outside the kernel, changes a path; a deleted path has no revision. */
    | Change(byRunning: bool, path: string, rev: Option<int>)
    /** The running call's handler settles. */
    | Settle(end: End)
    /** The `finally` block of a finished call. */
    | Finalize(call: nat, now: int, ts: string)
    /** A waiter resumes after its owner settled. */
    | Wake(call: nat, ts: string)

  const INITIAL := Kernel(I.START, [], [], None, [], map[], map[], {}, {}, [], [])

  function Rev(w: Kernel, path: Option<string>): Option<int> {
    if path.Some? && path.value in w.revs then Some(w.revs[path.value]) else None
  }

  function SetPhase(w: Kernel, c: nat, phase: Phase): Kernel
    requires c < |w.calls|
  {
    w.(calls := w.calls[c := w.calls[c].(phase := phase)])
  }

  function Append(w: Kernel, r: Record): Kernel {
    w.(journal := w.journal + [r])
  }

  function Enqueue(w: Kernel, mc: Context, token: Option<nat>): Kernel {
    w.(calls := w.calls + [Call(mc, token, Queued)], queue := w.queue + [|w.calls|],
       enqueued := w.enqueued + [|w.calls|])
  }

  /** A call that ends without being queued. */
  function Terminal(w: Kernel, mc: Context, reply: Reply, ts: string, outcome: Outcome,
                    dedupeOf: Option<string>): Kernel {
    Append(w.(calls := w.calls + [Call(mc, None, Done(reply))]), Record(|w.calls|, ts, outcome, dedupeOf))
  }

  function MismatchText(first: string, reason: Reason): string {
    first + match reason { case Op => "op" case Args => "args" case IfRev => "if_rev" }
  }

  function StartCall(cfg: Config, w: Kernel, mc: Context, now: int, ts: string): Kernel {
    if mc.key.None? then Enqueue(w, mc, None)
    else
      var claim := Present(cfg, w.idem.store, mc.key.value, mc.req, now).1;
      var w' := w.(idem := I.Take(cfg, w.idem, I.Claims(mc.key.value, mc.req, now)));
      match claim
      case Mismatch(first, reason) => Terminal(w', mc, Failed(MismatchText(first, reason)), ts, Error, None)
      case Replay(e) => Terminal(w', mc, Gave(e.result), ts, Deduped, Some(e.ts))
      case Wait(t) => w'.(calls := w.calls + [Call(mc, None, Waiting(t))])
      case Owner(t) => Enqueue(w'.(owners := w.owners[t := |w.calls|]), mc, Some(t))
  }

  predicate CanBegin(w: Kernel) {
    w.running.None? && w.queue != [] && w.queue[0] < |w.calls|
  }

  /** The checks of the queued closure, in the source's order. */
  function BeginCall(w: Kernel, refusal: Option<string>): Kernel
    requires CanBegin(w)
  {
    var c := w.queue[0];
    var mc := w.calls[c].mc;
    var w' := w.(queue := w.queue[1..], begun := w.begun + [c]);
    if refusal.Some? then SetPhase(w', c, Finished(Throw(refusal.value, false)))
    else if mc.req.ifRev.Some? && Rev(w, mc.path) != mc.req.ifRev then
      SetPhase(w', c, Finished(Throw("rev_conflict", true)))
    else SetPhase(w', c, Running).(running := Some(c))
  }

  function ChangePath(w: Kernel, byRunning: bool, path: string, rev: Option<int>): Kernel
    requires byRunning ==> w.running.Some?
  {
    w.(revs := if rev.Some? then w.revs[path := rev.value] else w.revs - {path},
       seen := if rev.Some? then w.seen + {(path, rev.value)} else w.seen,
       wrote := if byRunning then w.wrote + {(w.running.value, path)} else w.wrote)
  }

  function OutcomeOf(end: End): Outcome {
    match end
    case Envelope(_, isError) => if isError then Error else Ok
    case Throw(_, conflict) => if conflict then Conflict else Error
  }

  function ReplyOf(end: End): Reply {
    match end
    case Envelope(result, _) => Gave(result)
    case Throw(error, _) => Failed(error)
  }

  function SettlementOf(end: End, ts: string): Settlement {
    match end
    case Envelope(result, _) => Returned(result, ts)
    case Throw(error, _) => Threw(error, ts)
  }

  /** Journal first, then release the key. */
  function FinalizeCall(cfg: Config, w: Kernel, c: nat, now: int, ts: string): Kernel
    requires c < |w.calls| && w.calls[c].phase.Finished?
  {
    var call := w.calls[c];
    var end := call.phase.end;
    var w' := SetPhase(Append(w, Record(c, ts, OutcomeOf(end), None)), c, Done(ReplyOf(end)));
    if call.token.None? then w'
    else w'.(idem := I.Take(cfg, w.idem, I.Settles(call.token.value, SettlementOf(end, ts), now)))
  }

  function Adopted(s: Settlement): Reply {
    match s
    case Returned(result, _) => Gave(result)
    case Threw(error, _) => Failed(error)
  }

  function WakeCall(w: Kernel, c: nat, ts: string): Kernel
    requires c < |w.calls| && w.calls[c].phase.Waiting? && w.calls[c].phase.on in w.idem.store.promises
  {
    var s := w.idem.store.promises[w.calls[c].phase.on];
    SetPhase(Append(w, Record(c, ts, Deduped, Some(s.ts))), c, Done(Adopted(s)))
  }

  /** What the steps need to be possible; a changed path gets a revision it has never had. */
  predicate Enabled(w: Kernel, step: Step) {
    match step
    case Start(_, _, _) => true
    case Begin(_) => CanBegin(w)
    case Change(byRunning, path, rev) =>
      (byRunning ==> w.running.Some?) && (rev.Some? ==> (path, rev.value) !in w.seen)
    case Settle(_) => w.running.Some? && w.running.value < |w.calls|
    case Finalize(c, _, _) => c < |w.calls| && w.calls[c].phase.Finished?
    case Wake(c, _) => c < |w.calls| && w.calls[c].phase.Waiting? && w.calls[c].phase.on in w.idem.store.promises
  }

  function Take(cfg: Config, w: Kernel, step: Step): Kernel {
    if !Enabled(w, step) then w
    else
      match step
      case Start(mc, now, ts) => StartCall(cfg, w, mc, now, ts)
      case Begin(refusal) => BeginCall(w, refusal)
      case Change(byRunning, path, rev) => ChangePath(w, byRunning, path, rev)
      case Settle(end) => SetPhase(w, w.running.value, Finished(end)).(running := None)
      case Finalize(c, now, ts) => FinalizeCall(cfg, w, c, now, ts)
      case Wake(c, ts) => WakeCall(w, c, ts)
  }

  function After(cfg: Config, steps: seq<Step>): Kernel {
    if steps == [] then INITIAL else Take(cfg, After(cfg, steps[..|steps| - 1]), steps[|steps| - 1])
  }
}

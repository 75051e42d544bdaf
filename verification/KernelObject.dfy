/** The kernel as the source keeps it: one object whose fields each piece of `runMutation` updates. */
module KernelObject {
  import opened JsString
  import opened IdempotencyModel
  import opened IdempotencyObjects
  import opened KernelModel
  import opened KernelRuns
  import I = IdempotencyRuns

  class MutationKernel {
    const idempotency: IdempotencyStore
    var calls: seq<Call>
    var queue: seq<nat>
    var running: Option<nat>
    var journal: seq<Record>
    var revs: map<string, int>
    ghost var tickets: map<nat, I.Ticket>
    ghost var log: I.Log
    ghost var owners: map<nat, nat>
    ghost var seen: set<(string, int)>
    ghost var wrote: set<(nat, string)>
    ghost var enqueued: seq<nat>
    ghost var begun: seq<nat>

    constructor (store: IdempotencyStore)
      requires store.View() == I.START.store
      ensures idempotency == store && View() == INITIAL
    {
      idempotency := store;
      calls, queue, running, journal, revs := [], [], None, [], map[];
      tickets, log, owners, seen, wrote, enqueued, begun := map[], [], map[], {}, {}, [], [];
    }

    ghost function View(): Kernel
      reads this, idempotency
    {
      Kernel(I.World(idempotency.View(), tickets, log), calls, queue, running, journal, revs, owners,
             seen, wrote, enqueued, begun)
    }

    method Enqueue(mc: Context, token: Option<nat>)
      modifies this
      ensures View() == KernelModel.Enqueue(old(View()), mc, token)
    {
      enqueued := enqueued + [|calls|];
      queue := queue + [|calls|];
      calls := calls + [Call(mc, token, Queued)];
    }

    /** `journalTerminal` and the return or throw after it. */
    method EndAtOnce(mc: Context, reply: Reply, ts: string, outcome: Outcome, dedupeOf: Option<string>)
      modifies this
      ensures View() == Terminal(old(View()), mc, reply, ts, outcome, dedupeOf)
    {
      journal := journal + [Record(|calls|, ts, outcome, dedupeOf)];
      calls := calls + [Call(mc, None, Done(reply))];
    }

    /** `runMutation` up to its first wait. */
    method Start(mc: Context, now: int, ts: string)
      modifies this, idempotency
      ensures View() == Take(idempotency.cfg, old(View()), Step.Start(mc, now, ts))
    {
      hide Present, MismatchText, I.ClaimEvents;
      if mc.key.None? {
        Enqueue(mc, None);
        return;
      }
      var key := mc.key.value;
      ghost var was := I.World(idempotency.View(), tickets, log);
      var claim := idempotency.Claim(key, mc.req, now);
      log := log + I.ClaimEvents(idempotency.cfg, was.store, key, now);
      match claim
      case Mismatch(first, reason) =>
        EndAtOnce(mc, Failed(MismatchText(first, reason)), ts, Error, None);
      case Replay(entry) =>
        EndAtOnce(mc, Gave(entry.result), ts, Deduped, Some(entry.ts));
      case Wait(t) =>
        calls := calls + [Call(mc, None, Waiting(t))];
      case Owner(t) =>
        tickets := tickets[t := I.Ticket(key, mc.req)];
        owners := owners[t := |calls|];
        Enqueue(mc, Some(t));
    }

    /** The queued closure: its checks, and the start of the handler when they pass. */
    method Dequeue(refusal: Option<string>)
      requires CanBegin(View())
      modifies this
      ensures View() == Take(idempotency.cfg, old(View()), Begin(refusal))
    {
      var c := queue[0];
      queue := queue[1..];
      begun := begun + [c];
      var mc := calls[c].mc;
      var revBefore := if mc.path.Some? && mc.path.value in revs then Some(revs[mc.path.value]) else None;
      if refusal.Some? {
        calls := calls[c := calls[c].(phase := Finished(Throw(refusal.value, false)))];
      } else if mc.req.ifRev.Some? && revBefore != mc.req.ifRev {
        calls := calls[c := calls[c].(phase := Finished(Throw("rev_conflict", true)))];
      } else {
        calls := calls[c := calls[c].(phase := Running)];
        running := Some(c);
      }
    }

    /** The handler of the running call settles. */
    method HandlerSettled(end: End)
      requires Enabled(View(), Settle(end))
      modifies this
      ensures View() == Take(idempotency.cfg, old(View()), Settle(end))
    {
      var c := running.value;
      calls := calls[c := calls[c].(phase := Finished(end))];
      running := None;
    }

    /** The `catch` and `finally` blocks: exactly one record, and then the key is released. */
    method Finalize(c: nat, now: int, ts: string)
      requires Enabled(View(), Step.Finalize(c, now, ts))
      requires calls[c].token.Some? ==> calls[c].token.value in tickets
      requires calls[c].token.Some? ==> Asked(View(), c, tickets[calls[c].token.value])
      modifies this, idempotency
      ensures View() == Take(idempotency.cfg, old(View()), Step.Finalize(c, now, ts))
    {
      var call := calls[c];
      var outcome, thrown := Ok, "";
      var settled: Option<string> := None;
      match call.phase.end {
        case Envelope(result, isError) =>
          settled := Some(result);
          if isError {
            outcome := Error;
          }
        case Throw(error, conflict) =>
          outcome := if conflict then Conflict else Error;
          thrown := error;
      }
      journal := journal + [Record(c, ts, outcome, None)];
      calls := calls[c := call.(phase := Done(if settled.Some? then Gave(settled.value) else Failed(thrown)))];
      if call.token.Some? {
        var t := call.token.value;
        var end := if settled.Some? then Returned(settled.value, ts) else Threw(thrown, ts);
        log := log + I.SettleEvents(idempotency.cfg, idempotency.View(), call.mc.key.value, call.mc.req, t, end, now);
        idempotency.Settle(call.mc.key.value, call.mc.req, t, end, now);
      }
    }

    /** A waiter resumes with the owner's outcome, success and failure alike. */
    method Wake(c: nat, ts: string)
      requires Enabled(View(), Step.Wake(c, ts))
      modifies this
      ensures View() == Take(idempotency.cfg, old(View()), Step.Wake(c, ts))
    {
      var settlement := idempotency.promises[calls[c].phase.on];
      journal := journal + [Record(c, ts, Deduped, Some(settlement.ts))];
      var reply := if settlement.Returned? then Gave(settlement.result) else Failed(settlement.error);
      calls := calls[c := calls[c].(phase := Done(reply))];
    }
  }
}

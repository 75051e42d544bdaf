/** What every interleaving of kernel calls guarantees. */
module KernelRuns {
  import opened JsString
  import opened IdempotencyModel
  import opened KernelModel
  import I = IdempotencyRuns

  // ── The invariant ─────────────────────────────────────────────────────────

  predicate IsDone(w: Kernel, c: nat) {
    c < |w.calls| && w.calls[c].phase.Done?
  }

  function Count(journal: seq<Record>, c: nat): nat {
    if journal == [] then 0
    else Count(journal[..|journal| - 1], c) + if journal[|journal| - 1].call == c then 1 else 0
  }

  /** Call `c` presented this key with this identity. */
  predicate Asked(w: Kernel, c: nat, ticket: I.Ticket) {
    c < |w.calls| && w.calls[c].mc.key == Some(ticket.key) && w.calls[c].mc.req == ticket.req
  }

  /** Every admitted owner is one call, unsettled until that call is done. */
  ghost predicate Tied(w: Kernel) {
    && w.owners.Keys == w.idem.tickets.Keys
    && (forall t :: t in w.idem.tickets ==>
          Asked(w, w.owners[t], w.idem.tickets[t]) && w.calls[w.owners[t]].token == Some(t))
    && (forall c :: 0 <= c < |w.calls| ==> CallTied(w, c))
  }

  ghost predicate CallTied(w: Kernel, c: nat)
    requires c < |w.calls|
  {
    var call := w.calls[c];
    && (call.token.Some? ==>
          && call.token.value in w.owners && w.owners[call.token.value] == c
          && I.Unsettled(w.idem, call.token.value) == !call.phase.Done?
          && !call.phase.Waiting?)
    && (call.phase.Waiting? ==> call.phase.on in w.idem.tickets && Asked(w, c, w.idem.tickets[call.phase.on]))
  }

  /** Record `i` is the one owner `o` wrote when it ended as `s` says. */
  predicate Backs(w: Kernel, i: nat, o: nat, s: Settlement) {
    && i < |w.journal| && w.journal[i].call == o && w.journal[i].ts == s.ts && !w.journal[i].outcome.Deduped?
    && o < |w.calls| && w.calls[o].phase == Done(Adopted(s))
  }

  /** The promise of every settled owner is backed by that owner's record. */
  ghost predicate Backed(w: Kernel) {
    forall t :: t in w.idem.store.promises ==>
      t in w.owners && exists i: nat :: Backs(w, i, w.owners[t], w.idem.store.promises[t])
  }

  /** Record `i` is an owner's own record, for the same key and request and with the same reply as call `c`. */
  predicate Sources(w: Kernel, i: nat, c: nat) {
    && i < |w.journal| && !w.journal[i].outcome.Deduped?
    && var o := w.journal[i].call;
       && o < |w.calls| && w.calls[o].token.Some? && c < |w.calls|
       && w.calls[o].mc.key.Some? && w.calls[o].mc.key == w.calls[c].mc.key && w.calls[o].mc.req == w.calls[c].mc.req
       && w.calls[o].phase.Done? && w.calls[o].phase == w.calls[c].phase
  }

  ghost predicate Sourced(w: Kernel, j: nat)
    requires j < |w.journal|
  {
    var r := w.journal[j];
    if r.outcome.Deduped? then
      r.dedupeOf.Some? && exists i: nat :: i < j && Sources(w, i, r.call) && w.journal[i].ts == r.dedupeOf.value
    else r.dedupeOf.None?
  }

  ghost predicate Recorded(w: Kernel) {
    && (forall c: nat :: Count(w.journal, c) == if IsDone(w, c) then 1 else 0)
    && (forall j :: 0 <= j < |w.journal| ==> Sourced(w, j))
  }

  ghost predicate Queueing(w: Kernel) {
    && w.enqueued == w.begun + w.queue
    && (forall i, j :: 0 <= i < j < |w.enqueued| ==> w.enqueued[i] < w.enqueued[j])
    && (forall i :: 0 <= i < |w.enqueued| ==> w.enqueued[i] < |w.calls|)
    && (forall i :: 0 <= i < |w.queue| ==> w.queue[i] < |w.calls| && w.calls[w.queue[i]].phase.Queued?)
    && (forall c :: 0 <= c < |w.calls| && w.calls[c].phase.Queued? ==> c in w.queue)
    && (forall c: nat :: w.running == Some(c) <==> c < |w.calls| && w.calls[c].phase.Running?)
  }

  ghost predicate Inv(cfg: Config, w: Kernel) {
    I.Inv(cfg, w.idem) && Tied(w) && Backed(w) && Recorded(w) && Queueing(w)
  }

  /** Calls keep what they asked, a finished call keeps its reply, and the journal is only appended to. */
  ghost predicate Grown(w: Kernel, w': Kernel) {
    && |w.calls| <= |w'.calls|
    && (forall c :: 0 <= c < |w.calls| ==>
          && w'.calls[c].mc == w.calls[c].mc && w'.calls[c].token == w.calls[c].token
          && (w.calls[c].phase.Done? ==> w'.calls[c].phase == w.calls[c].phase))
    && w.journal <= w'.journal
  }

  lemma GrownCalls(w: Kernel, w': Kernel)
    requires Grown(w, w')
    ensures |w.calls| <= |w'.calls| && |w.journal| <= |w'.journal|
    ensures forall c :: 0 <= c < |w.calls| ==> w'.calls[c].mc == w.calls[c].mc && w'.calls[c].token == w.calls[c].token
    ensures forall c :: 0 <= c < |w.calls| && w.calls[c].phase.Done? ==> w'.calls[c].phase == w.calls[c].phase
    ensures forall j :: 0 <= j < |w.journal| ==> w'.journal[j] == w.journal[j]
  {
  }

  lemma SourcedKept(w: Kernel, w': Kernel, j: nat)
    requires Grown(w, w') && j < |w.journal| && Sourced(w, j)
    ensures Sourced(w', j)
  {
  }

  lemma BackedKept(w: Kernel, w': Kernel)
    requires Grown(w, w') && Backed(w) && w'.idem.store.promises == w.idem.store.promises
    requires forall t :: t in w.owners ==> t in w'.owners && w'.owners[t] == w.owners[t]
    ensures Backed(w')
  {
    forall t | t in w.idem.store.promises
      ensures exists i: nat :: Backs(w', i, w'.owners[t], w'.idem.store.promises[t])
    {
      var i: nat :| Backs(w, i, w.owners[t], w.idem.store.promises[t]);
      assert w'.journal[i] == w.journal[i];
      assert Backs(w', i, w'.owners[t], w'.idem.store.promises[t]);
    }
  }

  /** Nothing was journaled and no call finished. */
  lemma RecordedQuiet(w: Kernel, w': Kernel)
    requires Grown(w, w') && Recorded(w) && w'.journal == w.journal
    requires forall c: nat :: IsDone(w', c) == IsDone(w, c)
    ensures Recorded(w')
  {
    forall j | 0 <= j < |w.journal|
      ensures Sourced(w', j)
    {
      SourcedKept(w, w', j);
    }
  }

  /** One call finished and wrote one record. */
  lemma RecordedOne(w: Kernel, w': Kernel, r: Record)
    requires Grown(w, w') && Recorded(w) && w'.journal == w.journal + [r]
    requires !IsDone(w, r.call) && forall c: nat :: IsDone(w', c) == (IsDone(w, c) || c == r.call)
    requires Sourced(w', |w.journal|)
    ensures Recorded(w')
  {
    forall j | 0 <= j < |w'.journal|
      ensures Sourced(w', j)
    {
      if j < |w.journal| {
        SourcedKept(w, w', j);
      }
    }
    forall c: nat
      ensures Count(w'.journal, c) == Count(w.journal, c) + if r.call == c then 1 else 0
    {
      assert w'.journal[..|w'.journal| - 1] == w.journal;
    }
  }

  // ── Steps ─────────────────────────────────────────────────────────────────

  /** A call joins the queue. */
  lemma EnqueueQueueing(w: Kernel, w': Kernel, call: Call)
    requires Queueing(w) && call.phase.Queued?
    requires w'.calls == w.calls + [call] && w'.queue == w.queue + [|w.calls|]
    requires w'.enqueued == w.enqueued + [|w.calls|]
    requires w'.begun == w.begun && w'.running == w.running
    ensures Queueing(w')
  {
  }

  /** A call that is neither queued nor running leaves the queue as it was. */
  lemma AddQueueing(w: Kernel, w': Kernel, call: Call)
    requires Queueing(w) && !call.phase.Queued? && !call.phase.Running?
    requires w'.calls == w.calls + [call] && w'.queue == w.queue && w'.enqueued == w.enqueued
    requires w'.begun == w.begun && w'.running == w.running
    ensures Queueing(w')
  {
  }

  lemma AddGrown(w: Kernel, w': Kernel, call: Call)
    requires w'.calls == w.calls + [call] && w.journal <= w'.journal
    ensures Grown(w, w')
  {
  }

  /** The kernel once the store has taken a claim that made no owner. */
  lemma AddTied(w: Kernel, w': Kernel, call: Call)
    requires Tied(w) && w'.calls == w.calls + [call] && w'.owners == w.owners && call.token.None?
    requires w'.idem.tickets == w.idem.tickets && w'.idem.store.promises == w.idem.store.promises
    requires call.phase.Waiting? ==> call.phase.on in w.idem.tickets
    requires call.phase.Waiting? ==>
      call.mc.key == Some(w.idem.tickets[call.phase.on].key) && call.mc.req == w.idem.tickets[call.phase.on].req
    ensures Tied(w')
  {
    forall c | 0 <= c < |w'.calls|
      ensures CallTied(w', c)
    {
      if c < |w.calls| {
        assert CallTied(w, c);
      }
    }
  }

  /** What a claim does to the store: only a new owner leaves a trace among owners and outcomes. */
  lemma ClaimEffect(cfg: Config, idem: I.World, key: string, req: Request, now: int)
    requires I.Inv(cfg, idem)
    ensures var idem', claim := I.Take(cfg, idem, I.Claims(key, req, now)), Present(cfg, idem.store, key, req, now).1;
      && I.Inv(cfg, idem') && I.Fits(cfg, idem, key, req, now, claim)
      && idem'.store.promises == idem.store.promises
      && idem'.tickets == if claim.Owner? then idem.tickets[claim.token := I.Ticket(key, req)] else idem.tickets
  {
    hide I.Inv;
    I.ClaimKeeps(cfg, idem, key, req, now);
    I.ReplyFits(cfg, idem, key, req, now);
  }

  lemma StartQueued(cfg: Config, w: Kernel, mc: Context, now: int, ts: string)
    requires Inv(cfg, w) && mc.key.None?
    ensures Inv(cfg, StartCall(cfg, w, mc, now, ts))
  {
    hide I.Inv, Count, Sourced, Backed, Tied, Queueing, Recorded, Grown;
    var w' := StartCall(cfg, w, mc, now, ts);
    var call := Call(mc, None, Queued);
    EnqueueQueueing(w, w', call);
    AddGrown(w, w', call);
    AddTied(w, w', call);
    RecordedQuiet(w, w');
    BackedKept(w, w');
  }

  lemma StartWaiting(cfg: Config, w: Kernel, mc: Context, now: int, ts: string)
    requires Inv(cfg, w) && mc.key.Some?
    requires Present(cfg, w.idem.store, mc.key.value, mc.req, now).1.Wait?
    ensures Inv(cfg, StartCall(cfg, w, mc, now, ts))
  {
    hide I.Inv, I.Take, Present, Count, Sourced, Backed, Tied, Queueing, Recorded, Grown;
    ClaimEffect(cfg, w.idem, mc.key.value, mc.req, now);
    var w' := StartCall(cfg, w, mc, now, ts);
    var t := Present(cfg, w.idem.store, mc.key.value, mc.req, now).1.on;
    var call := Call(mc, None, Waiting(t));
    AddQueueing(w, w', call);
    AddGrown(w, w', call);
    AddTied(w, w', call);
    RecordedQuiet(w, w');
    BackedKept(w, w');
  }

  lemma StartOwner(cfg: Config, w: Kernel, mc: Context, now: int, ts: string)
    requires Inv(cfg, w) && mc.key.Some?
    requires Present(cfg, w.idem.store, mc.key.value, mc.req, now).1.Owner?
    ensures Inv(cfg, StartCall(cfg, w, mc, now, ts))
  {
    hide I.Inv, I.Take, Present, Count, Sourced, Backed, Tied, Queueing, Recorded, Grown;
    ClaimEffect(cfg, w.idem, mc.key.value, mc.req, now);
    var w' := StartCall(cfg, w, mc, now, ts);
    var t := Present(cfg, w.idem.store, mc.key.value, mc.req, now).1.token;
    var call := Call(mc, Some(t), Queued);
    EnqueueQueueing(w, w', call);
    AddGrown(w, w', call);
    RecordedQuiet(w, w');
    PromisesAreOwned(cfg, w.idem, t);
    OwnersAreTickets(w);
    BackedKept(w, w');
    OwnerTied(w, w', call, t);
  }

  /** The new call owns the token `t`. */
  lemma OwnerTied(w: Kernel, w': Kernel, call: Call, t: nat)
    requires Tied(w) && w'.calls == w.calls + [call] && call.token == Some(t) && call.phase.Queued? && call.mc.key.Some?
    requires t !in w.idem.tickets && t !in w.idem.store.promises
    requires w'.owners == w.owners[t := |w.calls|]
    requires w'.idem.tickets == w.idem.tickets[t := I.Ticket(call.mc.key.value, call.mc.req)]
    requires w'.idem.store.promises == w.idem.store.promises
    ensures Tied(w')
  {
    forall c | 0 <= c < |w'.calls|
      ensures CallTied(w', c)
    {
      if c < |w.calls| {
        assert CallTied(w, c);
      }
    }
  }

  lemma OwnersAreTickets(w: Kernel)
    requires Tied(w)
    ensures w.owners.Keys == w.idem.tickets.Keys
  {
  }

  lemma PromisesAreOwned(cfg: Config, w: I.World, t: nat)
    requires I.Inv(cfg, w) && t !in w.tickets
    ensures t !in w.store.promises
  {
  }

  lemma StartTerminal(cfg: Config, w: Kernel, mc: Context, now: int, ts: string)
    requires Inv(cfg, w) && mc.key.Some?
    requires Present(cfg, w.idem.store, mc.key.value, mc.req, now).1.Mismatch?
          || Present(cfg, w.idem.store, mc.key.value, mc.req, now).1.Replay?
    ensures Inv(cfg, StartCall(cfg, w, mc, now, ts))
  {
    hide I.Inv, I.Take, Present, Count, Backed, Sourced, MismatchText, Tied, Queueing, Recorded, Grown;
    ClaimEffect(cfg, w.idem, mc.key.value, mc.req, now);
    var w' := StartCall(cfg, w, mc, now, ts);
    var call, r := w'.calls[|w.calls|], w'.journal[|w.journal|];
    AddQueueing(w, w', call);
    AddGrown(w, w', call);
    AddTied(w, w', call);
    BackedKept(w, w');
    assert r.outcome.Deduped? || Sourced(w', |w.journal|) by { SourcedPlain(w', |w.journal|); }
    if r.outcome.Deduped? {
      var e := Present(cfg, w.idem.store, mc.key.value, mc.req, now).1.entry;
      ReplaySourced(w, w', mc.key.value, e, call);
    }
    RecordedOne(w, w', r);
  }

  lemma SourcedPlain(w: Kernel, j: nat)
    requires j < |w.journal|
    ensures !w.journal[j].outcome.Deduped? && w.journal[j].dedupeOf.None? ==> Sourced(w, j)
  {
  }

  /** A replayed entry was returned by an owner whose record is in the journal. */
  lemma ReplaySourced(w: Kernel, w': Kernel, key: string, e: Entry, call: Call)
    requires Tied(w) && Backed(w) && Grown(w, w') && I.HasOrigin(w.idem, key, e)
    requires w'.calls == w.calls + [call] && call.mc.key == Some(key) && call.mc.req == e.req
    requires call.phase == Done(Gave(e.result))
    requires |w'.journal| == |w.journal| + 1
    requires w'.journal[|w.journal|].call == |w.calls| && w'.journal[|w.journal|].dedupeOf == Some(e.ts)
    requires w'.journal[|w.journal|].outcome.Deduped?
    ensures Sourced(w', |w.journal|)
  {
  }

  lemma StartKeeps(cfg: Config, w: Kernel, mc: Context, now: int, ts: string)
    requires Inv(cfg, w)
    ensures Inv(cfg, StartCall(cfg, w, mc, now, ts))
  {
    hide Inv, Present, StartCall;
    if mc.key.None? {
      StartQueued(cfg, w, mc, now, ts);
    } else {
      match Present(cfg, w.idem.store, mc.key.value, mc.req, now).1
      case Owner(_) => StartOwner(cfg, w, mc, now, ts);
      case Wait(_) => StartWaiting(cfg, w, mc, now, ts);
      case Replay(_) => StartTerminal(cfg, w, mc, now, ts);
      case Mismatch(_, _) => StartTerminal(cfg, w, mc, now, ts);
    }
  }

  /** One call moves to another phase, neither into nor out of `Done`, and nothing else about it changes. */
  ghost predicate Moved(w: Kernel, w': Kernel, c: nat, phase: Phase) {
    && c < |w.calls| && !w.calls[c].phase.Done? && !w.calls[c].phase.Waiting?
    && w'.calls == w.calls[c := w.calls[c].(phase := phase)]
    && w'.idem == w.idem && w'.owners == w.owners
  }

  lemma MoveKeeps(cfg: Config, w: Kernel, w': Kernel, c: nat, phase: Phase)
    requires Moved(w, w', c, phase) && !phase.Done? && !phase.Waiting? && w'.journal == w.journal
    requires Tied(w) && Backed(w) && Recorded(w)
    ensures Tied(w') && Backed(w') && Recorded(w')
  {
    hide Sourced, Count, Backed, Recorded;
    MoveTied(w, w', c, phase);
    BackedKept(w, w');
    RecordedQuiet(w, w');
  }

  lemma MoveTied(w: Kernel, w': Kernel, c: nat, phase: Phase)
    requires Moved(w, w', c, phase) && !phase.Done? && !phase.Waiting? && Tied(w)
    ensures Tied(w')
  {
    forall d | 0 <= d < |w'.calls|
      ensures CallTied(w', d)
    {
      assert CallTied(w, d);
    }
  }

  lemma HeadOfQueue(w: Kernel)
    requires Queueing(w) && w.queue != []
    ensures w.enqueued == (w.begun + [w.queue[0]]) + w.queue[1..]
    ensures forall i :: 0 < i < |w.queue| ==> w.queue[i] > w.queue[0]
  {
    assert w.queue == [w.queue[0]] + w.queue[1..];
    forall i | 0 < i < |w.queue|
      ensures w.queue[i] > w.queue[0]
    {
      assert w.queue[i] == w.enqueued[|w.begun| + i] && w.queue[0] == w.enqueued[|w.begun|];
    }
  }

  /** The oldest queued call leaves the queue, to run or not. */
  lemma BeginQueueing(w: Kernel, w': Kernel, phase: Phase)
    requires Queueing(w) && CanBegin(w) && !phase.Queued?
    requires w'.calls == w.calls[w.queue[0] := w.calls[w.queue[0]].(phase := phase)]
    requires w'.queue == w.queue[1..] && w'.begun == w.begun + [w.queue[0]] && w'.enqueued == w.enqueued
    requires w'.running == if phase.Running? then Some(w.queue[0]) else None
    ensures Queueing(w')
  {
    HeadOfQueue(w);
    forall d | 0 <= d < |w'.calls| && w'.calls[d].phase.Queued?
      ensures d in w'.queue
    {
      assert d in w.queue;
    }
  }

  lemma BeginKeeps(cfg: Config, w: Kernel, refusal: Option<string>)
    requires Inv(cfg, w) && CanBegin(w)
    ensures Inv(cfg, BeginCall(w, refusal))
  {
    hide I.Inv, Tied, Backed, Recorded;
    var c, w' := w.queue[0], BeginCall(w, refusal);
    BeginQueueing(w, w', w'.calls[c].phase);
    MoveKeeps(cfg, w, w', c, w'.calls[c].phase);
  }

  lemma SettleKeeps(cfg: Config, w: Kernel, end: End)
    requires Inv(cfg, w) && Enabled(w, Settle(end))
    ensures Inv(cfg, Take(cfg, w, Settle(end)))
  {
    hide I.Inv, Tied, Backed, Recorded;
    var c, w' := w.running.value, Take(cfg, w, Settle(end));
    MoveKeeps(cfg, w, w', c, Finished(end));
  }

  lemma ChangeKeeps(cfg: Config, w: Kernel, byRunning: bool, path: string, rev: Option<int>)
    requires Inv(cfg, w) && Enabled(w, Change(byRunning, path, rev))
    ensures Inv(cfg, ChangePath(w, byRunning, path, rev))
  {
    hide I.Inv, Sourced, Count, Backed, Recorded;
    var w' := ChangePath(w, byRunning, path, rev);
    BackedKept(w, w');
    RecordedQuiet(w, w');
    forall c | 0 <= c < |w.calls|
      ensures CallTied(w', c)
    {
      assert CallTied(w, c);
    }
  }

  /** A call outside the queue ends. */
  lemma EndQueueing(w: Kernel, w': Kernel, c: nat, reply: Reply)
    requires Queueing(w) && c < |w.calls| && !w.calls[c].phase.Queued? && !w.calls[c].phase.Running?
    requires w'.calls == w.calls[c := w.calls[c].(phase := Done(reply))]
    requires w'.queue == w.queue && w'.enqueued == w.enqueued && w'.begun == w.begun && w'.running == w.running
    ensures Queueing(w')
  {
  }

  lemma EndGrown(w: Kernel, w': Kernel, c: nat, reply: Reply)
    requires c < |w.calls| && !w.calls[c].phase.Done? && w.journal <= w'.journal
    requires w'.calls == w.calls[c := w.calls[c].(phase := Done(reply))]
    ensures Grown(w, w')
  {
  }

  /** A waiter resumes with the outcome its owner's record already tells. */
  lemma WakeKeeps(cfg: Config, w: Kernel, c: nat, ts: string)
    requires Inv(cfg, w) && Enabled(w, Wake(c, ts))
    ensures Inv(cfg, WakeCall(w, c, ts))
  {
    hide I.Inv, Sourced, Count, Backed, Recorded, Queueing, Grown, Tied;
    var w' := WakeCall(w, c, ts);
    var s := w.idem.store.promises[w.calls[c].phase.on];
    WaiterOwnsNothing(w, c);
    EndQueueing(w, w', c, Adopted(s));
    EndGrown(w, w', c, Adopted(s));
    BackedKept(w, w');
    WakeSourced(w, w', c, s);
    RecordedOne(w, w', Record(c, ts, Deduped, Some(s.ts)));
    EndTied(w, w', c, Adopted(s), s);
  }

  lemma WaiterOwnsNothing(w: Kernel, c: nat)
    requires Tied(w) && c < |w.calls| && w.calls[c].phase.Waiting?
    ensures w.calls[c].token.None?
  {
    assert CallTied(w, c);
  }

  lemma WakeSourced(w: Kernel, w': Kernel, c: nat, s: Settlement)
    requires Tied(w) && Backed(w) && Grown(w, w') && c < |w.calls| && w.calls[c].phase.Waiting?
    requires w.calls[c].phase.on in w.idem.store.promises && s == w.idem.store.promises[w.calls[c].phase.on]
    requires |w'.journal| == |w.journal| + 1 && w'.journal[|w.journal|].call == c
    requires w'.journal[|w.journal|].outcome.Deduped? && w'.journal[|w.journal|].dedupeOf == Some(s.ts)
    requires w'.calls[c].phase == Done(Adopted(s))
    ensures Sourced(w', |w.journal|)
  {
    hide Grown;
    GrownCalls(w, w');
    var t := w.calls[c].phase.on;
    assert CallTied(w, c);
    var i: nat :| Backs(w, i, w.owners[t], s);
    assert Sources(w', i, c);
  }

  /** A finished call writes its record and then settles its key. */
  lemma FinalizeKeeps(cfg: Config, w: Kernel, c: nat, now: int, ts: string)
    requires Inv(cfg, w) && Enabled(w, Finalize(c, now, ts))
    ensures Inv(cfg, FinalizeCall(cfg, w, c, now, ts))
  {
    hide I.Inv, I.Take, Count, Backed, Recorded, Queueing, Grown, Tied;
    var end := w.calls[c].phase.end;
    var w' := FinalizeCall(cfg, w, c, now, ts);
    EndQueueing(w, w', c, ReplyOf(end));
    EndGrown(w, w', c, ReplyOf(end));
    SourcedPlain(w', |w.journal|);
    RecordedOne(w, w', Record(c, ts, OutcomeOf(end), None));
    if w.calls[c].token.None? {
      BackedKept(w, w');
      EndTied(w, w', c, ReplyOf(end), SettlementOf(end, ts));
    } else {
      var t := w.calls[c].token.value;
      OwnerUnsettled(w, c);
      SettleEffect(cfg, w.idem, t, SettlementOf(end, ts), now);
      FinalizeBacked(w, w', c, SettlementOf(end, ts));
      EndTied(w, w', c, ReplyOf(end), SettlementOf(end, ts));
    }
  }

  lemma OwnerUnsettled(w: Kernel, c: nat)
    requires Tied(w) && c < |w.calls| && w.calls[c].token.Some? && !w.calls[c].phase.Done?
    ensures I.Unsettled(w.idem, w.calls[c].token.value) && w.calls[c].token.value in w.owners
    ensures w.owners[w.calls[c].token.value] == c
  {
    assert CallTied(w, c);
  }

  lemma SettleEffect(cfg: Config, idem: I.World, t: nat, s: Settlement, now: int)
    requires I.Inv(cfg, idem) && I.Unsettled(idem, t)
    ensures var idem' := I.Take(cfg, idem, I.Settles(t, s, now));
      I.Inv(cfg, idem') && idem'.tickets == idem.tickets && idem'.store.promises == idem.store.promises[t := s]
  {
    hide I.Inv;
    I.SettleKeeps(cfg, idem, t, s, now);
  }

  /** Only the ended call, and the promise of the token it owns, have changed. */
  lemma EndTied(w: Kernel, w': Kernel, c: nat, reply: Reply, s: Settlement)
    requires Tied(w) && c < |w.calls| && !w.calls[c].phase.Done? && w'.owners == w.owners
    requires w'.idem.tickets == w.idem.tickets
    requires w'.calls == w.calls[c := w.calls[c].(phase := Done(reply))]
    requires w.calls[c].token.None? ==> w'.idem.store.promises == w.idem.store.promises
    requires w.calls[c].token.Some? ==> w'.idem.store.promises == w.idem.store.promises[w.calls[c].token.value := s]
    ensures Tied(w')
  {
    forall d | 0 <= d < |w'.calls|
      ensures CallTied(w', d)
    {
      assert CallTied(w, d) && CallTied(w, c);
    }
  }

  lemma FinalizeBacked(w: Kernel, w': Kernel, c: nat, s: Settlement)
    requires Grown(w, w') && Backed(w) && w'.owners == w.owners
    requires c < |w'.calls| && w'.calls[c].phase == Done(Adopted(s))
    requires |w'.journal| == |w.journal| + 1 && w'.journal[|w.journal|].call == c
    requires w'.journal[|w.journal|].ts == s.ts && !w'.journal[|w.journal|].outcome.Deduped?
    requires exists t :: t in w.owners && w.owners[t] == c && w'.idem.store.promises == w.idem.store.promises[t := s]
    ensures Backed(w')
  {
    hide Grown;
    GrownCalls(w, w');
    forall t | t in w'.idem.store.promises
      ensures t in w'.owners && exists i: nat :: Backs(w', i, w'.owners[t], w'.idem.store.promises[t])
    {
      if t in w.idem.store.promises && w'.idem.store.promises[t] == w.idem.store.promises[t] {
        var i: nat :| Backs(w, i, w.owners[t], w.idem.store.promises[t]);
        assert Backs(w', i, w'.owners[t], w'.idem.store.promises[t]);
      } else {
        assert Backs(w', |w.journal|, c, s);
      }
    }
  }

  lemma StartHolds(cfg: Config)
    ensures Inv(cfg, INITIAL)
  {
  }

  lemma {:induction false} RunKeeps(cfg: Config, steps: seq<Step>)
    ensures Inv(cfg, After(cfg, steps))
  {
    if steps == [] {
      StartHolds(cfg);
    } else {
      RunKeeps(cfg, steps[..|steps| - 1]);
      StepKeeps(cfg, After(cfg, steps[..|steps| - 1]), steps[|steps| - 1]);
    }
  }

  lemma StepKeeps(cfg: Config, w: Kernel, step: Step)
    requires Inv(cfg, w)
    ensures Inv(cfg, Take(cfg, w, step))
  {
    hide Inv, StartCall, BeginCall, ChangePath, FinalizeCall, WakeCall, SetPhase;
    if Enabled(w, step) {
      match step
      case Start(mc, now, ts) => StartKeeps(cfg, w, mc, now, ts);
      case Begin(refusal) => BeginKeeps(cfg, w, refusal);
      case Change(own, path, rev) => ChangeKeeps(cfg, w, own, path, rev);
      case Settle(end) => SettleKeeps(cfg, w, end);
      case Finalize(c, now, ts) => FinalizeKeeps(cfg, w, c, now, ts);
      case Wake(c, ts) => WakeKeeps(cfg, w, c, ts);
    }
  }
}

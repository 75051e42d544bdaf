/** Whole runs of the bridge relay: every request answered at most once, none silently lost, lines in order. */
module RelayRuns {
  import opened JsString
  import opened RelayModel
  import opened RelayLemmas

  /**
   * The relay together with what its peers have done: `owed` are the ids the current connection, or the one
   * the relay hung up with, has been sent and has not answered, `received` every request id the client has sent.
   */
  datatype World = World(b: Bridge, owed: set<Id>, received: set<Id>)

  function Requests(f: Frame): seq<Id> {
    RequestIds(Messages(f))
  }

  function Responses(f: Frame): seq<Id> {
    ResponseIds(Messages(f))
  }

  function WireIds(wire: seq<Wire>): set<Id> {
    if wire == [] then {}
    else WireIds(wire[..|wire| - 1]) + match wire[|wire| - 1]
         case Preamble(_) => {}
         case Replay(_, f) => Elems(Requests(f))
         case Client(_, _, f) => Elems(Requests(f))
  }

  function InitIds(s: Relay): set<Id> {
    if s.initializeId.Some? then {s.initializeId.value} else {}
  }

  /**
   * What the peers may do. The client uses fresh ids and sends `initialized` as a notification; a server
   * answers on a connection only requests sent on it, each once, and `initialize` outside any batch.
   */
  ghost predicate Legal(w: World, e: Event) {
    && Enabled(w.b, e)
    && match e
       case ClientLineEv(f) =>
         && Distinct(Requests(f)) && Elems(Requests(f)) !! w.received
         && (f.Single? && f.msg.verb == Some(INITIALIZED) ==> f.msg.id.None?)
       case ServerLineEv(f) =>
         && Distinct(Responses(f)) && Elems(Responses(f)) <= w.owed
         && (!f.Single? ==> Elems(Responses(f)) !! InitIds(w.b.relay))
       case _ => true
  }

  ghost function Next(opts: Options, w: World, e: Event): World
    requires Legal(w, e)
  {
    var b := Step(opts, w.b, e);
    match e
    case ClientLineEv(f) =>
      World(b, if w.b.up then w.owed + Elems(Requests(f)) else w.owed, w.received + Elems(Requests(f)))
    case ServerLineEv(f) => World(b, w.owed - Elems(Responses(f)), w.received)
    case CloseEv(_) => World(b, if b.exit == HungUp then w.owed else {}, w.received)
    case ReconnectedEv =>
      var conn, replayed := b.conn, ReplayMessages(w.b.relay).1;
      World(b, WireIds(ReplayWire(conn, replayed) + FlushWire(conn, w.b.pending, replayed)), w.received)
    case _ => World(b, w.owed, w.received)
  }

  ghost predicate HandshakeOk(s: Relay) {
    && (s.initializeId.Some? <==> s.initializeRaw.Some?)
    && (s.initializeRaw.Some? ==>
          var f := s.initializeRaw.value;
          f.Single? && f.msg.id == s.initializeId && f.msg.verb.Some?)
    && (s.initializedRaw.Some? ==> s.initializedRaw.value.Single? && s.initializedRaw.value.msg.id.None?)
    && (s.initResponseSeen ==> s.initializeId.Some?)
    && (s.awaitingReplayResponse ==> s.initResponseSeen)
  }

  function Answered(b: Bridge): set<Id> {
    Elems(Answers(b.toClient))
  }

  /** Every request so far is either answered, once, or still outstanding. */
  ghost predicate Accounted(w: World) {
    && Distinct(Answers(w.b.toClient))
    && w.received == Ids(w.b.relay.outstanding) + Answered(w.b)
    && Ids(w.b.relay.outstanding) !! Answered(w.b)
  }

  /** With a connection: outstanding is exactly what that connection owes, a replayed `initialize` aside. */
  ghost predicate WhileUp(w: World) {
    var s := w.b.relay;
    && w.b.pending == [] && !w.b.graceArmed
    && Ids(s.outstanding) == w.owed - (if s.initResponseSeen then InitIds(s) else {})
    && (s.initResponseSeen ==> (s.awaitingReplayResponse <==> InitIds(s) <= w.owed))
  }

  /** Without one: outstanding is exactly the queued requests, plus an unanswered `initialize`. */
  ghost predicate WhileDown(w: World) {
    && w.owed == {}
    && Distinct(PendingIds(w.b.pending))
    && Ids(w.b.relay.outstanding) == Elems(PendingIds(w.b.pending)) + ExemptIds(w.b.relay)
  }

  ghost predicate Inv(w: World) {
    && Unique(w.b.relay.outstanding)
    && HandshakeOk(w.b.relay)
    && Accounted(w)
    && InitIds(w.b.relay) <= (if w.b.relay.initResponseSeen then Answered(w.b) else Ids(w.b.relay.outstanding))
    && (if w.b.up then WhileUp(w) else WhileDown(w))
    && (w.b.exit != Running ==> w.b.pending == [])
  }

  // ── Each kind of event ────────────────────────────────────────────────────

  lemma CaptureKeeps(s: Relay, f: Frame)
    requires HandshakeOk(s) && (f.Single? && f.msg.verb == Some(INITIALIZED) ==> f.msg.id.None?)
    ensures var s' := Capture(s, f);
      && HandshakeOk(s') && s'.outstanding == s.outstanding
      && s'.initResponseSeen == s.initResponseSeen && s'.awaitingReplayResponse == s.awaitingReplayResponse
      && InitIds(s) <= InitIds(s') <= InitIds(s) + Elems(Requests(f))
      && ExemptIds(s') == (if s.initResponseSeen then {} else InitIds(s'))
      && ExemptIds(s) == (if s.initResponseSeen then {} else InitIds(s))
      && (s.initResponseSeen ==> InitIds(s') == InitIds(s))
  {
  }

  /** Tracking a fresh client line: its requests become outstanding, and it may be the handshake. */
  lemma TrackKeeps(w: World, f: Frame)
    requires Inv(w) && Legal(w, ClientLineEv(f))
    ensures var s, s', own := w.b.relay, OnClientMessage(w.b.relay, f), Elems(Requests(f));
      && HandshakeOk(s') && Unique(s'.outstanding)
      && Ids(s'.outstanding) == Ids(s.outstanding) + own
      && own !! Answered(w.b) && own !! Ids(s.outstanding)
      && s'.initResponseSeen == s.initResponseSeen && s'.awaitingReplayResponse == s.awaitingReplayResponse
      && (if s.initResponseSeen then InitIds(s') == InitIds(s) <= Answered(w.b) && ExemptIds(s') == {} == ExemptIds(s)
          else InitIds(s) <= InitIds(s') <= Ids(s'.outstanding) && InitIds(s') <= InitIds(s) + own
               && ExemptIds(s') == InitIds(s') && ExemptIds(s) == InitIds(s))
  {
    hide Distinct, Elems, Unique, Ids, RequestIds, ResponseIds, Track, Answers, PendingIds;
    CaptureKeeps(w.b.relay, f);
    TrackIds(Capture(w.b.relay, f).outstanding, Messages(f));
  }

  lemma LineWhileUpKeeps(opts: Options, w: World, f: Frame)
    requires Inv(w) && Legal(w, ClientLineEv(f)) && w.b.up
    ensures Inv(Next(opts, w, ClientLineEv(f)))
  {
    hide Distinct, Elems, Unique, Ids, RequestIds, ResponseIds, Answers, PendingIds, OnClientMessage, InitIds;
    hide HandshakeOk, ExemptIds;
    TrackKeeps(w, f);
  }

  lemma LineQueuedKeeps(opts: Options, w: World, f: Frame)
    requires Inv(w) && Legal(w, ClientLineEv(f)) && !w.b.up && !w.b.graceExpired
    ensures Inv(Next(opts, w, ClientLineEv(f)))
  {
    hide Distinct, Elems, Unique, Ids, RequestIds, ResponseIds, Answers, PendingIds, OnClientMessage, InitIds;
    hide HandshakeOk, ExemptIds;
    TrackKeeps(w, f);
    PendingSnoc(w.b.pending, Queued(|w.b.lines|, f));
    DistinctConcat(PendingIds(w.b.pending), Requests(f));
  }

  lemma LineAfterGraceKeeps(opts: Options, w: World, f: Frame)
    requires Inv(w) && Legal(w, ClientLineEv(f)) && !w.b.up && w.b.graceExpired
    ensures Inv(Next(opts, w, ClientLineEv(f)))
  {
    hide Distinct, Elems, Unique, Ids, RequestIds, ResponseIds, Answers, PendingIds, OnClientMessage, InitIds;
    hide HandshakeOk, ExemptIds, FailRequest;
    var s1 := OnClientMessage(w.b.relay, f);
    TrackKeeps(w, f);
    FailRequestIds(s1, f);
    var (s2, r) := FailRequest(s1, f);
    HandshakeFrame(s1, s2);
    AnswersConcat(w.b.toClient, Opt(r.error));
    DistinctConcat(Answers(w.b.toClient), Answers(Opt(r.error)));
    if r.keep.Some? {
      PendingSnoc(w.b.pending, Queued(|w.b.lines|, r.keep.value));
      DistinctConcat(PendingIds(w.b.pending), Requests(r.keep.value));
    }
  }

  /** Only the outstanding entries differ. */
  lemma HandshakeFrame(s: Relay, s': Relay)
    requires s' == s.(outstanding := s'.outstanding)
    ensures HandshakeOk(s') <==> HandshakeOk(s)
    ensures InitIds(s') == InitIds(s) && ExemptIds(s') == ExemptIds(s)
  {
  }

  /** Failing the queue while no connection is up. */
  lemma QueueFailedKeeps(w: World, b': Bridge)
    requires Inv(w) && !w.b.up
    requires var (s, out, kept) := FailAll(w.b.relay, w.b.pending);
      b'.relay == s && b'.toClient == w.b.toClient + out && !b'.up
      && b'.pending == if b'.exit == Running then kept else []
    ensures Inv(World(b', w.owed, w.received))
    ensures Ids(b'.relay.outstanding) == ExemptIds(b'.relay)
  {
    hide Distinct, Elems, Unique, Ids, Answers, PendingIds, FailAll, InitIds, HandshakeOk, ExemptIds;
    FailAllIds(w.b.relay, w.b.pending);
    var (s, out, kept) := FailAll(w.b.relay, w.b.pending);
    HandshakeFrame(w.b.relay, s);
    AnswersConcat(w.b.toClient, out);
    DistinctConcat(Answers(w.b.toClient), Answers(out));
    InitIsOpenOrAnswered(w);
    NothingQueued();
  }

  lemma NothingQueued()
    ensures PendingIds([]) == [] && Distinct([]) && Elems([]) == {}
    ensures forall b: Bridge, code {:trigger ShutDown(b, code)} :: b.pending == [] ==>
      ShutDown(b, code) == b.(graceArmed := false, exit := Shutdown(code))
  {
  }

  lemma SingleIds(m: Msg)
    ensures RequestIds([m]) == if IsRequest(m) then [m.id.value] else []
    ensures ResponseIds([m]) == if IsResponse(m) then [m.id.value] else []
    ensures Elems(RequestIds([m])) == if IsRequest(m) then {m.id.value} else {}
    ensures Elems(ResponseIds([m])) == if IsResponse(m) then {m.id.value} else {}
  {
  }

  lemma InitIsOpenOrAnswered(w: World)
    ensures ExemptIds(w.b.relay) == if w.b.relay.initResponseSeen then {} else InitIds(w.b.relay)
  {
  }

  lemma ServerBatchKeeps(opts: Options, w: World, f: Frame)
    requires Inv(w) && Legal(w, ServerLineEv(f)) && !f.Single?
    ensures Inv(Next(opts, w, ServerLineEv(f)))
  {
    hide Distinct, Elems, Unique, Ids, RequestIds, ResponseIds, Answers, PendingIds, InitIds, HandshakeOk, Untrack;
    UntrackIds(w.b.relay.outstanding, Messages(f));
    HandshakeFrame(w.b.relay, OnServerMessage(w.b.relay, f).0);
    AnswersSnoc(w.b.toClient, Forwarded(f));
    DistinctConcat(Answers(w.b.toClient), Responses(f));
  }

  lemma ServerSingleKeeps(opts: Options, w: World, f: Frame)
    requires Inv(w) && Legal(w, ServerLineEv(f)) && f.Single?
    ensures Inv(Next(opts, w, ServerLineEv(f)))
  {
    hide Distinct, Elems, Unique, Ids, RequestIds, ResponseIds, Answers, PendingIds, Del, HandshakeOk;
    SingleIds(f.msg);
    AnswersSnoc(w.b.toClient, Forwarded(f));
    DistinctConcat(Answers(w.b.toClient), Responses(f));
    if !IsResponse(f.msg) {
      assert Answers(w.b.toClient) + [] == Answers(w.b.toClient);
    } else if w.b.relay.initializeId != f.msg.id {
      DelIds(w.b.relay.outstanding, f.msg.id.value);
      HandshakeFrame(w.b.relay, OnServerMessage(w.b.relay, f).0);
    } else {
      InitReplyKeeps(opts, w, f);
    }
  }

  /** The one reply to `initialize` is forwarded; a reply to its replay is swallowed or ends the session. */
  lemma InitReplyKeeps(opts: Options, w: World, f: Frame)
    requires Inv(w) && Legal(w, ServerLineEv(f)) && f.Single? && IsResponse(f.msg) && w.b.relay.initializeId == f.msg.id
    ensures Inv(Next(opts, w, ServerLineEv(f)))
    ensures w.b.relay.initResponseSeen ==> Next(opts, w, ServerLineEv(f)).b.toClient == w.b.toClient
  {
    hide Distinct, Elems, Unique, Ids, RequestIds, ResponseIds, Answers, PendingIds, Del, ShutDown;
    SingleIds(f.msg);
    DelIds(w.b.relay.outstanding, f.msg.id.value);
    NothingQueued();
    if !w.b.relay.initResponseSeen {
      AnswersSnoc(w.b.toClient, Forwarded(f));
      DistinctConcat(Answers(w.b.toClient), Responses(f));
    }
  }

  lemma CloseKeeps(opts: Options, w: World, young: bool)
    requires Inv(w) && Legal(w, CloseEv(young)) && !w.b.clientEnded
    ensures Inv(Next(opts, w, CloseEv(young)))
  {
    hide Distinct, Elems, Unique, Ids, Answers, InitIds, HandshakeOk, ExemptIds, FailOutstanding, ShutDown, PendingIds;
    FailOutstandingIds(w.b.relay);
    var (s, out) := FailOutstanding(w.b.relay);
    HandshakeFrame(w.b.relay, s);
    AnswersConcat(w.b.toClient, out);
    DistinctConcat(Answers(w.b.toClient), Answers(out));
    InitIsOpenOrAnswered(w);
    NothingQueued();
  }

  lemma {:induction false} WireIdsConcat(s: seq<Wire>, t: seq<Wire>)
    ensures WireIds(s + t) == WireIds(s) + WireIds(t)
  {
    hide Elems, RequestIds, Messages;
    if t == [] {
      assert s + t == s;
    } else {
      assert (s + t)[..|s + t| - 1] == s + t[..|t| - 1];
      WireIdsConcat(s, t[..|t| - 1]);
    }
  }

  /** The flush sends every queued request whose line is not a replayed one. */
  lemma {:induction false} FlushIds(conn: nat, q: seq<Queued>, replayed: seq<Frame>, handshake: set<Id>)
    requires forall f :: f in replayed ==> Elems(Requests(f)) <= handshake
    ensures Elems(PendingIds(q)) <= WireIds(FlushWire(conn, q, replayed)) + handshake
    ensures WireIds(FlushWire(conn, q, replayed)) <= Elems(PendingIds(q))
  {
    if q != [] {
      hide Elems, RequestIds, Messages;
      var front, last := q[..|q| - 1], q[|q| - 1];
      var sent := if last.frame in replayed then [] else [Client(conn, last.n, last.frame)];
      assert FlushWire(conn, q, replayed) == FlushWire(conn, front, replayed) + sent;
      assert PendingIds(q) == PendingIds(front) + Requests(last.frame);
      assert WireIds(sent) == if last.frame in replayed then {} else Elems(Requests(last.frame));
      hide FlushWire, PendingIds, WireIds, Distinct;
      FlushIds(conn, front, replayed, handshake);
      DistinctConcat(PendingIds(front), Requests(last.frame));
      WireIdsConcat(FlushWire(conn, front, replayed), sent);
    }
  }

  lemma {:induction false} ReplayIds(conn: nat, replayed: seq<Frame>)
    ensures forall x ::
      x in WireIds(ReplayWire(conn, replayed)) <==> exists f :: f in replayed && x in Elems(Requests(f))
  {
    if replayed != [] {
      hide Elems, RequestIds, Messages;
      var front, last := replayed[..|replayed| - 1], replayed[|replayed| - 1];
      ReplayIds(conn, front);
      assert ReplayWire(conn, replayed) == ReplayWire(conn, front) + [Replay(conn, last)];
      assert replayed == front + [last];
    }
  }

  /** What a reconnect sends: the handshake, then the queue. */
  lemma ReconnectIds(w: World, conn: nat)
    requires HandshakeOk(w.b.relay)
    ensures var replayed := ReplayMessages(w.b.relay).1;
      var sent := WireIds(ReplayWire(conn, replayed) + FlushWire(conn, w.b.pending, replayed));
      sent == InitIds(w.b.relay) + Elems(PendingIds(w.b.pending))
  {
    var s, replayed := w.b.relay, ReplayMessages(w.b.relay).1;
    hide Elems, RequestIds, FlushWire, ReplayWire, WireIds, PendingIds;
    forall f | f in replayed
      ensures Elems(Requests(f)) == if s.initializeRaw == Some(f) then InitIds(s) else {}
    {
      SingleIds(f.msg);
    }
    if s.initializeRaw.Some? {
      assert replayed[0] == s.initializeRaw.value;
    }
    ReplayIds(conn, replayed);
    assert WireIds(ReplayWire(conn, replayed)) == InitIds(s);
    WireIdsConcat(ReplayWire(conn, replayed), FlushWire(conn, w.b.pending, replayed));
    FlushIds(conn, w.b.pending, replayed, InitIds(s));
  }

  lemma ReplayHandshake(s: Relay)
    requires HandshakeOk(s)
    ensures var s' := ReplayMessages(s).0;
      && HandshakeOk(s') && InitIds(s') == InitIds(s) && ExemptIds(s') == ExemptIds(s)
      && s'.outstanding == s.outstanding && s'.initResponseSeen == s.initResponseSeen
      && (s.initResponseSeen ==> s'.awaitingReplayResponse)
  {
  }

  lemma ReconnectedKeeps(opts: Options, w: World)
    requires Inv(w) && Legal(w, ReconnectedEv)
    ensures Inv(Next(opts, w, ReconnectedEv))
  {
    var s, s', queued := w.b.relay, ReplayMessages(w.b.relay).0, Elems(PendingIds(w.b.pending));
    hide Distinct, Elems, Unique, Ids, Answers, PendingIds, FlushWire, ReplayWire, WireIds, InitIds, ExemptIds;
    hide HandshakeOk;
    ReplayHandshake(s);
    ReconnectIds(w, w.b.conn + 1);
    InitIsOpenOrAnswered(w);
    var n := Next(opts, w, ReconnectedEv);
    assert n.b.relay == s' && n.b.up && n.b.toClient == w.b.toClient && n.received == w.received;
    assert n.owed == InitIds(s) + queued;
    hide ReplayMessages, Reconnected, Next;
    assert Ids(s'.outstanding) == n.owed - (if s'.initResponseSeen then InitIds(s') else {});
  }

  // ── Runs ──────────────────────────────────────────────────────────────────

  /** Where a run of legal events leads, or None when some event was not legal when it happened. */
  ghost function RunTo(opts: Options, events: seq<Event>): Option<World> {
    if events == [] then Some(World(Started(opts), {}, {}))
    else
      var before := RunTo(opts, events[..|events| - 1]);
      var e := events[|events| - 1];
      if before.Some? && Legal(before.value, e) then Some(Next(opts, before.value, e)) else None
  }

  ghost predicate LegalRun(opts: Options, events: seq<Event>) {
    RunTo(opts, events).Some?
  }

  ghost function After(opts: Options, events: seq<Event>): World
    requires LegalRun(opts, events)
  {
    RunTo(opts, events).value
  }

  /** A relay that hung up, as it was the instant before. */
  ghost function Live(w: World): World {
    w.(b := w.b.(up := true, exit := Running))
  }

  lemma StepKeeps(opts: Options, w: World, e: Event)
    requires Inv(w) && Legal(w, e)
    ensures Next(opts, w, e).b.exit != HungUp ==> Inv(Next(opts, w, e))
    ensures Next(opts, w, e).b.exit == HungUp ==> Live(Next(opts, w, e)) == w
  {
    hide Inv;
    match e
    case ClientLineEv(f) =>
      if w.b.up { LineWhileUpKeeps(opts, w, f); }
      else if w.b.graceExpired { LineAfterGraceKeeps(opts, w, f); }
      else { LineQueuedKeeps(opts, w, f); }
    case ServerLineEv(f) =>
      if f.Single? { ServerSingleKeeps(opts, w, f); } else { ServerBatchKeeps(opts, w, f); }
    case CloseEv(young) =>
      if !w.b.clientEnded { CloseKeeps(opts, w, young); }
    case ClientEndEv => ClientEndKeeps(opts, w);
    case GraceEv =>
      UpMeansNoGrace(w);
      QueueFailedKeeps(w, Step(opts, w.b, e));
    case ReconnectFailedEv => QueueFailedKeeps(w, Step(opts, w.b, e));
    case ReconnectedEv => ReconnectedKeeps(opts, w);
  }

  lemma UpMeansNoGrace(w: World)
    requires Inv(w) && w.b.graceArmed
    ensures !w.b.up
  {
  }

  lemma ClientEndKeeps(opts: Options, w: World)
    requires Inv(w) && Legal(w, ClientEndEv)
    ensures Inv(Next(opts, w, ClientEndEv))
  {
    if !w.b.up {
      hide Inv;
      var v := w.(b := w.b.(clientEnded := true));
      assert Inv(v) by { InvFrame(w, v); }
      QueueFailedKeeps(v, Step(opts, w.b, ClientEndEv));
    }
  }

  lemma InvFrame(w: World, v: World)
    requires Inv(w) && v == w.(b := w.b.(clientEnded := v.b.clientEnded))
    ensures Inv(v)
  {
  }

  lemma {:induction false} RunKeeps(opts: Options, events: seq<Event>)
    requires LegalRun(opts, events)
    ensures var w := After(opts, events); Inv(if w.b.exit == HungUp then Live(w) else w)
    ensures Distinct(Answers(After(opts, events).b.toClient))
    ensures Answered(After(opts, events).b) <= After(opts, events).received
  {
    if events != [] {
      hide Inv, Next, Answers, Distinct, Legal;
      var front := events[..|events| - 1];
      RunKeeps(opts, front);
      var w, e := After(opts, front), events[|events| - 1];
      assert Enabled(w.b, e) by { LegalIsEnabled(w, e); }
      StepKeeps(opts, w, e);
      if Next(opts, w, e).b.exit != HungUp {
        InvAnswers(Next(opts, w, e));
      }
    } else {
      NothingQueued();
    }
  }

  lemma LegalIsEnabled(w: World, e: Event)
    requires Legal(w, e)
    ensures Enabled(w.b, e)
  {
  }

  lemma InvAnswers(w: World)
    requires Inv(w)
    ensures Distinct(Answers(w.b.toClient)) && Answered(w.b) <= w.received
  {
  }

  /** In every run the client gets at most one response per id, real or synthesized, and only for ids it sent. */
  lemma EachIdAnsweredAtMostOnce(opts: Options, events: seq<Event>, i: nat, j: nat)
    requires LegalRun(opts, events)
    requires i < j < |Answers(After(opts, events).b.toClient)|
    ensures var answers := Answers(After(opts, events).b.toClient);
      answers[i] != answers[j] && answers[i] in After(opts, events).received
  {
    RunKeeps(opts, events);
    assert Answers(After(opts, events).b.toClient)[i] in Answered(After(opts, events).b);
  }

  /**
   * No request is silently lost: while the relay runs, every id the client sent is answered or outstanding,
   * never both, and the outstanding ones are those the current connection still owes, those queued, and an
   * unanswered `initialize` — a replayed `initialize` the client already has an answer for aside.
   */
  lemma NoRequestIsLost(opts: Options, events: seq<Event>)
    requires LegalRun(opts, events)
    ensures var w := After(opts, events);
      w.b.exit == Running ==>
        var outstanding := Ids(w.b.relay.outstanding);
        && w.received == outstanding + Answered(w.b) && outstanding !! Answered(w.b)
        && outstanding == (w.owed - Answered(w.b)) + Elems(PendingIds(w.b.pending)) + ExemptIds(w.b.relay)
  {
    RunKeeps(opts, events);
    NothingQueued();
  }

  /**
   * When the relay ends, what stays unanswered was in flight on the connection it ended with, or is `initialize`;
   * both when it shuts itself down and when the last connection closes behind a client that has ended.
   */
  lemma UnansweredAtExit(opts: Options, events: seq<Event>)
    requires LegalRun(opts, events)
    ensures var w := After(opts, events);
      w.b.exit != Running ==> w.received - Answered(w.b) == (w.owed - Answered(w.b)) + ExemptIds(w.b.relay)
  {
    RunKeeps(opts, events);
    NothingQueued();
  }
}

/** `RelayState` and `BridgeRelay` of `bridge.ts`: fields updated in place, each method tied to the state machine. */
module Bridge {
  import opened JsString
  import opened RelayModel

  class RelayState {
    var initializeRaw: Option<Frame>
    var initializedRaw: Option<Frame>
    var initializeId: Option<Id>
    var initResponseSeen: bool
    var awaitingReplayResponse: bool
    var outstanding: Entries

    function View(): Relay
      reads this
    {
      Relay(initializeRaw, initializedRaw, initializeId, initResponseSeen, awaitingReplayResponse, outstanding)
    }

    constructor ()
      ensures View() == FRESH_RELAY
    {
      initializeRaw, initializedRaw, initializeId := None, None, None;
      initResponseSeen, awaitingReplayResponse, outstanding := false, false, [];
    }

    predicate IsExemptInitialize(id: Id)
      reads this
    {
      initializeId.Some? && initializeId.value == id && !initResponseSeen
    }

    method OnClientMessage(line: Frame)
      modifies this
      ensures View() == RelayModel.OnClientMessage(old(View()), line)
    {
      if line.Single? {
        var m := line.msg;
        if m.verb == Some(INITIALIZE) && m.id.Some? && initializeRaw.None? {
          initializeRaw := Some(line);
          initializeId := m.id;
        } else if m.verb == Some(INITIALIZED) && initializedRaw.None? {
          initializedRaw := Some(line);
        }
      }
      var ms := Messages(line);
      for i := 0 to |ms|
        invariant View() == Capture(old(View()), line).(outstanding := Track(old(outstanding), ms[..i]))
      {
        assert ms[..i + 1][..i] == ms[..i];
        if IsRequest(ms[i]) {
          outstanding := Put(outstanding, ms[i].id.value, ms[i].verb.value);
        }
      }
      assert ms[..|ms|] == ms;
    }

    method OnServerMessage(line: Frame) returns (verdict: Verdict)
      modifies this
      ensures (View(), verdict) == RelayModel.OnServerMessage(old(View()), line)
    {
      if !line.Single? {
        var ms := Messages(line);
        for i := 0 to |ms|
          invariant View() == old(View()).(outstanding := Untrack(old(outstanding), ms[..i]))
        {
          assert ms[..i + 1][..i] == ms[..i];
          if IsResponse(ms[i]) {
            outstanding := Del(outstanding, ms[i].id.value);
          }
        }
        assert ms[..|ms|] == ms;
        return Forward;
      }
      var m := line.msg;
      if !IsResponse(m) {
        return Forward;
      }
      outstanding := Del(outstanding, m.id.value);
      if initializeId == m.id {
        if awaitingReplayResponse {
          awaitingReplayResponse := false;
          return if m.isError then ReplayError else DropReply;
        }
        initResponseSeen := true;
      }
      return Forward;
    }

    method FailOutstanding() returns (out: seq<Out>)
      modifies this`outstanding
      ensures (View(), out) == RelayModel.FailOutstanding(old(View()))
    {
      out := [];
      var snapshot := outstanding;
      ghost var s := View();
      for i := 0 to |snapshot|
        invariant View() == s.(outstanding := outstanding)
        invariant (outstanding, out) == FailFirst(s, i)
      {
        var (id, verb) := snapshot[i];
        if !IsExemptInitialize(id) {
          out := out + [Errors([ErrorReply(id, verb)], false)];
          outstanding := Del(outstanding, id);
        }
      }
    }

    method FailRequest(line: Frame) returns (r: Failed)
      modifies this`outstanding
      ensures (View(), r) == RelayModel.FailRequest(old(View()), line)
    {
      var ms := Messages(line);
      if line.Single? {
        if !IsRequest(line.msg) || IsExemptInitialize(line.msg.id.value) {
          return Failed(None, Some(line));
        }
        outstanding := Del(outstanding, line.msg.id.value);
        return Failed(Some(Errors([ErrorReply(line.msg.id.value, line.msg.verb.value)], false)), None);
      }
      if ms == [] {
        return Failed(None, Some(line));
      }
      var errors: seq<ErrorReply>, kept: seq<Msg> := [], [];
      ghost var s := View();
      for i := 0 to |ms|
        invariant View() == s.(outstanding := outstanding)
        invariant (outstanding, errors, kept) == FailItems(s, ms[..i])
      {
        assert ms[..i + 1][..i] == ms[..i];
        var m := ms[i];
        if !IsRequest(m) || IsExemptInitialize(m.id.value) {
          kept := kept + [m];
        } else {
          outstanding := Del(outstanding, m.id.value);
          errors := errors + [ErrorReply(m.id.value, m.verb.value)];
        }
      }
      assert ms[..|ms|] == ms;
      r := Failed(if errors == [] then None else Some(Errors(errors, true)),
                  if kept == [] then None else Some(Rebatch(kept)));
    }

    method ReplayMessages() returns (out: seq<Frame>)
      modifies this`awaitingReplayResponse
      ensures (View(), out) == RelayModel.ReplayMessages(old(View()))
    {
      out := [];
      if initializeRaw.Some? {
        out := [initializeRaw.value];
        if initResponseSeen {
          awaitingReplayResponse := true;
        }
      }
      assert out + [] == out;
      if initializedRaw.Some? {
        out := out + [initializedRaw.value];
      }
    }
  }

  /** The relay proper; `wire` and `toClient` stand for what has been written to the sockets and to stdout. */
  class BridgeRelay {
    const opts: Options
    const state: RelayState
    var up: bool
    var conn: nat
    var pending: seq<Queued>
    var graceArmed: bool
    var graceExpired: bool
    var clientEnded: bool
    var rapidFails: nat
    var exit: Exit
    var lines: seq<Frame>
    var wire: seq<Wire>
    var toClient: seq<Out>

    function View(): RelayModel.Bridge
      reads this, state
    {
      Bridge(state.View(), up, conn, pending, graceArmed, graceExpired, clientEnded,
             rapidFails, exit, lines, wire, toClient)
    }

    constructor Start(opts: Options)
      ensures fresh(state) && this.opts == opts && View() == Started(opts)
    {
      this.opts := opts;
      state := new RelayState();
      up, conn, pending, graceArmed, graceExpired := true, 0, [], false, false;
      clientEnded, rapidFails, exit := false, 0, Running;
      lines, toClient := [], [];
      wire := if opts.preamble then [Preamble(0)] else [];
    }

    /** `failAndWrite`: answer a line's requests now and hand back what must still be delivered. */
    method FailAndWrite(line: Frame) returns (keep: Option<Frame>)
      modifies state`outstanding, this`toClient
      ensures var (s, r) := RelayModel.FailRequest(old(state.View()), line);
        state.View() == s && toClient == old(toClient) + Opt(r.error) && keep == r.keep
    {
      var r := state.FailRequest(line);
      toClient := toClient + Opt(r.error);
      keep := r.keep;
    }

    /** Fail every queued line in turn, collecting what is kept. */
    method FailPending() returns (kept: seq<Queued>)
      modifies state`outstanding, this`toClient
      ensures var (s, out, k) := FailAll(old(state.View()), pending);
        state.View() == s && toClient == old(toClient) + out && kept == k
    {
      kept := [];
      ghost var s := state.View();
      for i := 0 to |pending|
        invariant var (s', out, k) := FailAll(s, pending[..i]);
          state.View() == s' && toClient == old(toClient) + out && kept == k
      {
        assert pending[..i + 1][..i] == pending[..i];
        var keep := FailAndWrite(pending[i].frame);
        if keep.Some? {
          kept := kept + [Queued(pending[i].n, keep.value)];
        }
      }
      assert pending[..|pending|] == pending;
    }

    method ShutDown(code: nat)
      modifies state`outstanding, this
      ensures View() == RelayModel.ShutDown(old(View()), code)
    {
      graceArmed := false;
      var _ := FailPending();
      pending := [];
      exit := Shutdown(code);
    }

    /** `onClientData`, one complete line at a time. */
    method OnClientLine(line: Frame)
      modifies state, this
      ensures View() == ClientLine(opts, old(View()), line)
    {
      hide RelayModel.FailRequest, RelayModel.OnClientMessage;
      var n := |lines|;
      lines := lines + [line];
      state.OnClientMessage(line);
      if up {
        wire := wire + [Client(conn, n, line)];
      } else if graceExpired {
        var keep := FailAndWrite(line);
        if keep.Some? && (opts.maxPending <= 0 || |pending| < opts.maxPending) {
          pending := pending + [Queued(n, keep.value)];
        }
      } else {
        pending := pending + [Queued(n, line)];
      }
    }

    method OnClientEnd()
      modifies state`outstanding, this
      ensures View() == ClientEnd(old(View()))
    {
      clientEnded := true;
      if !up {
        ShutDown(0);
      }
    }

    /** `onServerData`, one complete line at a time. */
    method OnServerLine(line: Frame)
      modifies state, this
      ensures View() == ServerLine(old(View()), line)
    {
      var verdict := state.OnServerMessage(line);
      match verdict
      case ReplayError => ShutDown(1);
      case Forward => toClient := toClient + [Forwarded(line)];
      case DropReply =>
    }

    method OnSocketClose(young: bool)
      modifies state`outstanding, this
      ensures View() == SocketClose(opts, old(View()), young)
    {
      hide RelayModel.ShutDown, RelayModel.FailOutstanding;
      up := false;
      if clientEnded {
        exit := HungUp;
        return;
      }
      rapidFails := if young then rapidFails + 1 else 0;
      var out := state.FailOutstanding();
      toClient := toClient + out;
      if rapidFails >= opts.rapidFailMax {
        ShutDown(1);
        return;
      }
      graceExpired := false;
      if opts.grace {
        graceArmed := true;
      }
    }

    method OnGraceExpired()
      modifies state`outstanding, this
      ensures View() == GraceExpires(old(View()))
    {
      graceArmed := false;
      graceExpired := true;
      pending := FailPending();
    }

    /** The reconnect continuation: attach, replay the handshake, flush the queue. */
    method OnReconnected()
      modifies state`awaitingReplayResponse, this
      ensures View() == Reconnected(opts, old(View()))
    {
      hide RelayModel.ReplayMessages, FlushWire, ReplayWire;
      graceArmed, graceExpired := false, false;
      up, conn := true, conn + 1;
      var replayed := state.ReplayMessages();
      assert (state.View(), replayed) == RelayModel.ReplayMessages(old(View()).relay);
      hide RelayState.View;
      var flush := Flush(conn, pending, replayed);
      pending := [];
      wire := wire + (if opts.preamble then [Preamble(conn)] else []) + ReplayWire(conn, replayed) + flush;
    }

    /** The queue, without the copies of a handshake line just replayed. */
    static method Flush(conn: nat, queue: seq<Queued>, replayed: seq<Frame>) returns (flush: seq<Wire>)
      ensures flush == FlushWire(conn, queue, replayed)
    {
      flush := [];
      for i := 0 to |queue|
        invariant flush == FlushWire(conn, queue[..i], replayed)
      {
        assert queue[..i + 1][..i] == queue[..i];
        if queue[i].frame !in replayed {
          flush := flush + [Client(conn, queue[i].n, queue[i].frame)];
        }
      }
      assert queue[..|queue|] == queue;
    }

    method OnReconnectFailed()
      modifies state`outstanding, this
      ensures View() == RelayModel.ShutDown(old(View()), 1)
    {
      ShutDown(1);
    }

    /** Handle one event; a run of these is a run of the state machine. */
    method Handle(e: Event)
      requires Enabled(View(), e)
      modifies state, this
      ensures View() == Step(opts, old(View()), e)
    {
      match e
      case ClientLineEv(line) => OnClientLine(line);
      case ClientEndEv => OnClientEnd();
      case ServerLineEv(line) => OnServerLine(line);
      case CloseEv(young) => OnSocketClose(young);
      case GraceEv => OnGraceExpired();
      case ReconnectedEv => OnReconnected();
      case ReconnectFailedEv => OnReconnectFailed();
    }
  }
}

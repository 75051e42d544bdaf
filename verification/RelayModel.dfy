/**
 * The reconnect-aware bridge relay as a state machine: what each client line, server line, disconnect,
 * grace expiry and reconnect does to the handshake state, the queue and the two output streams.
 *
 * Lines are taken after JSON parsing; two lines have equal text exactly when they are equal frames.
 */
module RelayModel {
  import opened JsString

  datatype Id = StringId(s: string) | NumberId(n: int)

  /** `id` is None for an absent or null id; `isError` says the message has an `error` member. */
  datatype Msg = Msg(id: Option<Id>, verb: Option<string>, isError: bool, body: string)

  datatype Item = Object(msg: Msg) | Primitive(text: string)

  /** A lone object, an array, or anything else (unparseable text or a primitive). */
  datatype Frame = Single(msg: Msg) | Batch(items: seq<Item>) | Junk(text: string)

  const INITIALIZE := "initialize"
  const INITIALIZED := "notifications/initialized"

  predicate IsRequest(m: Msg) {
    m.id.Some? && m.verb.Some?
  }

  predicate IsResponse(m: Msg) {
    m.id.Some? && m.verb.None?
  }

  function Objects(items: seq<Item>): seq<Msg> {
    if items == [] then []
    else
      var front := Objects(items[..|items| - 1]);
      match items[|items| - 1]
      case Object(m) => front + [m]
      case Primitive(_) => front
  }

  /** `parseFrame(...).items`: the flat list of message objects in a line. */
  function Messages(f: Frame): seq<Msg> {
    match f
    case Single(m) => [m]
    case Batch(items) => Objects(items)
    case Junk(_) => []
  }

  function RequestIds(ms: seq<Msg>): seq<Id> {
    if ms == [] then []
    else
      var m := ms[|ms| - 1];
      RequestIds(ms[..|ms| - 1]) + if IsRequest(m) then [m.id.value] else []
  }

  function ResponseIds(ms: seq<Msg>): seq<Id> {
    if ms == [] then []
    else
      var m := ms[|ms| - 1];
      ResponseIds(ms[..|ms| - 1]) + if IsResponse(m) then [m.id.value] else []
  }

  // ── The outstanding map, in insertion order ───────────────────────────────

  type Entries = seq<(Id, string)>

  function Put(s: Entries, id: Id, verb: string): Entries {
    if s == [] then [(id, verb)]
    else if s[0].0 == id then [(id, verb)] + s[1..]
    else [s[0]] + Put(s[1..], id, verb)
  }

  function Del(s: Entries, id: Id): Entries {
    if s == [] then []
    else if s[0].0 == id then Del(s[1..], id)
    else [s[0]] + Del(s[1..], id)
  }

  // ── RelayState ────────────────────────────────────────────────────────────

  datatype Relay = Relay(
    initializeRaw: Option<Frame>,
    initializedRaw: Option<Frame>,
    initializeId: Option<Id>,
    initResponseSeen: bool,
    awaitingReplayResponse: bool,
    outstanding: Entries)

  datatype ErrorReply = ErrorReply(id: Id, verb: string)

  /** A line written to the client: a server line passed on, or synthesized disconnect errors. */
  datatype Out = Forwarded(frame: Frame) | Errors(replies: seq<ErrorReply>, batched: bool)

  datatype Verdict = Forward | DropReply | ReplayError

  const FRESH_RELAY := Relay(None, None, None, false, false, [])

  /** An unanswered `initialize` is never failed: the reconnect replay resends it. */
  predicate Exempt(s: Relay, id: Id) {
    s.initializeId == Some(id) && !s.initResponseSeen
  }

  function Capture(s: Relay, f: Frame): Relay {
    if !f.Single? then s
    else if f.msg.verb == Some(INITIALIZE) && f.msg.id.Some? && s.initializeRaw.None? then
      s.(initializeRaw := Some(f), initializeId := f.msg.id)
    else if f.msg.verb == Some(INITIALIZED) && s.initializedRaw.None? then
      s.(initializedRaw := Some(f))
    else s
  }

  function Track(o: Entries, ms: seq<Msg>): Entries {
    if ms == [] then o
    else
      var m := ms[|ms| - 1];
      var o' := Track(o, ms[..|ms| - 1]);
      if IsRequest(m) then Put(o', m.id.value, m.verb.value) else o'
  }

  function OnClientMessage(s: Relay, f: Frame): Relay {
    var s' := Capture(s, f);
    s'.(outstanding := Track(s'.outstanding, Messages(f)))
  }

  function Untrack(o: Entries, ms: seq<Msg>): Entries {
    if ms == [] then o
    else
      var m := ms[|ms| - 1];
      var o' := Untrack(o, ms[..|ms| - 1]);
      if IsResponse(m) then Del(o', m.id.value) else o'
  }

  function OnServerMessage(s: Relay, f: Frame): (Relay, Verdict) {
    if !f.Single? then (s.(outstanding := Untrack(s.outstanding, Messages(f))), Forward)
    else if !IsResponse(f.msg) then (s, Forward)
    else
      var s' := s.(outstanding := Del(s.outstanding, f.msg.id.value));
      if s.initializeId != f.msg.id then (s', Forward)
      else if s.awaitingReplayResponse then
        (s'.(awaitingReplayResponse := false), if f.msg.isError then ReplayError else DropReply)
      else (s'.(initResponseSeen := true), Forward)
  }

  /** The errors for the first `k` requests in flight, and the entries that remain. */
  function FailFirst(s: Relay, k: nat): (Entries, seq<Out>)
    requires k <= |s.outstanding|
  {
    if k == 0 then (s.outstanding, [])
    else
      var (o, out) := FailFirst(s, k - 1);
      var (id, verb) := s.outstanding[k - 1];
      if Exempt(s, id) then (o, out) else (Del(o, id), out + [Errors([ErrorReply(id, verb)], false)])
  }

  function FailOutstanding(s: Relay): (Relay, seq<Out>) {
    var (o, out) := FailFirst(s, |s.outstanding|);
    (s.(outstanding := o), out)
  }

  predicate Failable(s: Relay, m: Msg) {
    IsRequest(m) && !Exempt(s, m.id.value)
  }

  /** The batch case of `failRequest`: remaining entries, errors, and the messages kept. */
  function FailItems(s: Relay, ms: seq<Msg>): (Entries, seq<ErrorReply>, seq<Msg>) {
    if ms == [] then (s.outstanding, [], [])
    else
      var m := ms[|ms| - 1];
      var (o, errors, kept) := FailItems(s, ms[..|ms| - 1]);
      if Failable(s, m) then (Del(o, m.id.value), errors + [ErrorReply(m.id.value, m.verb.value)], kept)
      else (o, errors, kept + [m])
  }

  datatype Failed = Failed(error: Option<Out>, keep: Option<Frame>)

  function Rebatch(kept: seq<Msg>): Frame {
    Batch(seq(|kept|, i requires 0 <= i < |kept| => Object(kept[i])))
  }

  /** What to answer now for a queued line the vault will not see, and what part of it to keep. */
  function FailRequest(s: Relay, f: Frame): (Relay, Failed) {
    if f.Single? then
      if Failable(s, f.msg) then
        (s.(outstanding := Del(s.outstanding, f.msg.id.value)),
         Failed(Some(Errors([ErrorReply(f.msg.id.value, f.msg.verb.value)], false)), None))
      else (s, Failed(None, Some(f)))
    else if Messages(f) == [] then (s, Failed(None, Some(f)))
    else
      var (o, errors, kept) := FailItems(s, Messages(f));
      (s.(outstanding := o),
       Failed(if errors == [] then None else Some(Errors(errors, true)),
              if kept == [] then None else Some(Rebatch(kept))))
  }

  function ReplayMessages(s: Relay): (Relay, seq<Frame>) {
    var first := if s.initializeRaw.Some? then [s.initializeRaw.value] else [];
    var second := if s.initializedRaw.Some? then [s.initializedRaw.value] else [];
    (s.(awaitingReplayResponse := s.awaitingReplayResponse || (s.initializeRaw.Some? && s.initResponseSeen)),
     first + second)
  }

  // ── BridgeRelay ───────────────────────────────────────────────────────────

  /** A client line waiting for a connection; `n` is its position in the client's stream. */
  datatype Queued = Queued(n: nat, frame: Frame)

  /** One line written to connection number `conn`. */
  datatype Wire = Preamble(conn: nat) | Replay(conn: nat, frame: Frame) | Client(conn: nat, n: nat, frame: Frame)

  /** `HungUp`: the socket closed after the client had already ended its input. */
  datatype Exit = Running | Shutdown(code: nat) | HungUp

  datatype Options = Options(maxPending: int, rapidFailMax: nat, grace: bool, preamble: bool)

  datatype Bridge = Bridge(
    relay: Relay,
    up: bool,
    conn: nat,
    pending: seq<Queued>,
    graceArmed: bool,
    graceExpired: bool,
    clientEnded: bool,
    rapidFails: nat,
    exit: Exit,
    lines: seq<Frame>,      // every client line so far
    wire: seq<Wire>,        // everything written to any connection
    toClient: seq<Out>)     // everything written to the client

  function Opt<T>(o: Option<T>): seq<T> {
    if o.Some? then [o.value] else []
  }

  /** `failAndWrite` over queued lines, collecting what is kept. */
  function FailAll(s: Relay, q: seq<Queued>): (Relay, seq<Out>, seq<Queued>) {
    if q == [] then (s, [], [])
    else
      var (s', out, kept) := FailAll(s, q[..|q| - 1]);
      var last := q[|q| - 1];
      var (s'', r) := FailRequest(s', last.frame);
      (s'', out + Opt(r.error), kept + if r.keep.Some? then [Queued(last.n, r.keep.value)] else [])
  }

  /** `shutdown`: answer what is queued, drop the rest, exit. */
  function ShutDown(b: Bridge, code: nat): Bridge {
    var (s, out, _) := FailAll(b.relay, b.pending);
    b.(relay := s, toClient := b.toClient + out, pending := [], graceArmed := false, exit := Shutdown(code))
  }

  function ClientLine(opts: Options, b: Bridge, f: Frame): Bridge {
    var n := |b.lines|;
    var c := b.(relay := OnClientMessage(b.relay, f), lines := b.lines + [f]);
    if b.up then c.(wire := c.wire + [Client(b.conn, n, f)])
    else if b.graceExpired then
      var (s, r) := FailRequest(c.relay, f);
      var d := c.(relay := s, toClient := c.toClient + Opt(r.error));
      if r.keep.Some? && (opts.maxPending <= 0 || |d.pending| < opts.maxPending) then
        d.(pending := d.pending + [Queued(n, r.keep.value)])
      else d
    else c.(pending := c.pending + [Queued(n, f)])
  }

  function ClientEnd(b: Bridge): Bridge {
    var c := b.(clientEnded := true);
    if b.up then c else ShutDown(c, 0)
  }

  function ServerLine(b: Bridge, f: Frame): Bridge {
    var (s, verdict) := OnServerMessage(b.relay, f);
    var c := b.(relay := s);
    match verdict
    case Forward => c.(toClient := c.toClient + [Forwarded(f)])
    case DropReply => c
    case ReplayError => ShutDown(c, 1)
  }

  /** `young`: the connection lived less than the rapid-failure window. */
  function SocketClose(opts: Options, b: Bridge, young: bool): Bridge {
    var c := b.(up := false);
    if b.clientEnded then c.(exit := HungUp)
    else
      var (s, out) := FailOutstanding(b.relay);
      var rapid := if young then b.rapidFails + 1 else 0;
      var d := c.(relay := s, toClient := b.toClient + out, rapidFails := rapid);
      if rapid >= opts.rapidFailMax then ShutDown(d, 1)
      else d.(graceExpired := false, graceArmed := opts.grace || d.graceArmed)
  }

  function GraceExpires(b: Bridge): Bridge {
    var (s, out, kept) := FailAll(b.relay, b.pending);
    b.(relay := s, toClient := b.toClient + out, pending := kept, graceArmed := false, graceExpired := true)
  }

  /** The queued lines a reconnect writes: all but the copies of a replayed handshake line. */
  function FlushWire(conn: nat, q: seq<Queued>, replayed: seq<Frame>): seq<Wire> {
    if q == [] then []
    else
      var last := q[|q| - 1];
      FlushWire(conn, q[..|q| - 1], replayed)
      + if last.frame in replayed then [] else [Client(conn, last.n, last.frame)]
  }

  function ReplayWire(conn: nat, replayed: seq<Frame>): seq<Wire> {
    seq(|replayed|, i requires 0 <= i < |replayed| => Replay(conn, replayed[i]))
  }

  function Reconnected(opts: Options, b: Bridge): Bridge {
    var conn := b.conn + 1;
    var (s, replayed) := ReplayMessages(b.relay);
    b.(relay := s, up := true, conn := conn, pending := [], graceArmed := false, graceExpired := false,
       wire := b.wire + (if opts.preamble then [Preamble(conn)] else [])
             + ReplayWire(conn, replayed) + FlushWire(conn, b.pending, replayed))
  }

  datatype Event =
    | ClientLineEv(line: Frame)
    | ClientEndEv
    | ServerLineEv(line: Frame)
    | CloseEv(young: bool)
    | GraceEv
    | ReconnectedEv
    | ReconnectFailedEv

  predicate Enabled(b: Bridge, e: Event) {
    && b.exit == Running
    && match e
       case ClientLineEv(_) => !b.clientEnded
       case ClientEndEv => !b.clientEnded
       case ServerLineEv(_) => b.up
       case CloseEv(_) => b.up
       case GraceEv => b.graceArmed
       case ReconnectedEv => !b.up
       case ReconnectFailedEv => !b.up
  }

  function Step(opts: Options, b: Bridge, e: Event): Bridge
    requires Enabled(b, e)
  {
    match e
    case ClientLineEv(f) => ClientLine(opts, b, f)
    case ClientEndEv => ClientEnd(b)
    case ServerLineEv(f) => ServerLine(b, f)
    case CloseEv(young) => SocketClose(opts, b, young)
    case GraceEv => GraceExpires(b)
    case ReconnectedEv => Reconnected(opts, b)
    case ReconnectFailedEv => ShutDown(b, 1)
  }

  /** Just after `start`: the first connection is attached, nothing has been exchanged. */
  function Started(opts: Options): Bridge {
    Bridge(FRESH_RELAY, true, 0, [], false, false, false, 0, Running, [],
           if opts.preamble then [Preamble(0)] else [], [])
  }
}

/** Client lines reach the server in client order, each on at most one connection. */
module RelayOrder {
  import opened JsString
  import opened RelayModel
  import opened RelayLemmas

  /** Queued lines in client order, numbered from `lo` on. */
  ghost predicate QueueOk(lines: nat, q: seq<Queued>, lo: nat) {
    && (forall k :: 0 <= k < |q| ==> lo <= q[k].n < lines)
    && forall j, k :: 0 <= j < k < |q| ==> q[j].n < q[k].n
  }

  /** Written lines in client order, numbered below `hi`, on connections that only move forward. */
  ghost predicate WireOk(wire: seq<Wire>, hi: nat, conn: nat) {
    && (forall i :: 0 <= i < |wire| ==> wire[i].conn <= conn)
    && (forall i, j :: 0 <= i < j < |wire| ==> wire[i].conn <= wire[j].conn)
    && (forall i :: 0 <= i < |wire| && wire[i].Client? ==> wire[i].n < hi)
    && forall i, j :: 0 <= i < j < |wire| && wire[i].Client? && wire[j].Client? ==> wire[i].n < wire[j].n
  }

  /** Everything numbered below the cut is written or gone, everything queued lies above it. */
  ghost predicate Ordered(b: Bridge, cut: nat) {
    && cut <= |b.lines|
    && WireOk(b.wire, cut, b.conn)
    && QueueOk(|b.lines|, b.pending, cut)
    && (b.up ==> b.pending == [] && !b.graceArmed)
  }

  /** One past the last number in a queue. */
  function End(q: seq<Queued>, lo: nat): nat {
    if q == [] then lo else q[|q| - 1].n + 1
  }

  lemma QueueFront(lines: nat, q: seq<Queued>, lo: nat)
    requires q != [] && QueueOk(lines, q, lo)
    ensures QueueOk(lines, q[..|q| - 1], lo) && lo <= End(q[..|q| - 1], lo) <= q[|q| - 1].n < lines
  {
  }

  lemma QueueSnoc(lines: nat, q: seq<Queued>, lo: nat, last: Queued)
    requires QueueOk(lines, q, lo) && lo <= lines
    requires End(q, lo) <= last.n < lines
    ensures QueueOk(lines, q + [last], lo)
  {
  }

  lemma {:induction false} FailAllInOrder(s: Relay, lines: nat, q: seq<Queued>, lo: nat)
    requires QueueOk(lines, q, lo) && lo <= lines
    ensures QueueOk(lines, FailAll(s, q).2, lo) && End(FailAll(s, q).2, lo) <= End(q, lo)
  {
    hide FailRequest, QueueOk;
    if q == [] {
      assert QueueOk(lines, [], lo) by { EmptyQueue(lines, lo); }
    } else {
      var front, last := q[..|q| - 1], q[|q| - 1];
      QueueFront(lines, q, lo);
      FailAllInOrder(s, lines, front, lo);
      var (s', _, kept) := FailAll(s, front);
      var r := FailRequest(s', last.frame).1;
      if r.keep.Some? {
        QueueSnoc(lines, kept, lo, Queued(last.n, r.keep.value));
      } else {
        assert kept + [] == kept;
      }
    }
  }

  lemma EmptyQueue(lines: nat, lo: nat)
    ensures QueueOk(lines, [], lo)
  {
  }

  lemma WireSnoc(wire: seq<Wire>, hi: nat, conn: nat, w: Wire)
    requires WireOk(wire, hi, conn) && w.conn == conn && (w.Client? ==> hi <= w.n)
    ensures WireOk(wire + [w], if w.Client? then w.n + 1 else hi, conn)
  {
  }

  lemma {:induction false} FlushInOrder(lines: nat, wire: seq<Wire>, conn: nat, q: seq<Queued>, replayed: seq<Frame>,
                                        lo: nat)
    requires QueueOk(lines, q, lo) && lo <= lines
    requires WireOk(wire, lo, conn)
    ensures WireOk(wire + FlushWire(conn, q, replayed), End(q, lo), conn) && End(q, lo) <= lines
  {
    hide QueueOk, WireOk;
    if q == [] {
      assert wire + [] == wire;
    } else {
      var front, last := q[..|q| - 1], q[|q| - 1];
      QueueFront(lines, q, lo);
      FlushInOrder(lines, wire, conn, front, replayed, lo);
      var flushed := wire + FlushWire(conn, front, replayed);
      WireHigher(flushed, End(front, lo), last.n, conn);
      if last.frame in replayed {
        assert wire + FlushWire(conn, q, replayed) == flushed;
        WireHigher(flushed, last.n, last.n + 1, conn);
      } else {
        WireSnoc(flushed, last.n, conn, Client(conn, last.n, last.frame));
        assert wire + FlushWire(conn, q, replayed) == flushed + [Client(conn, last.n, last.frame)];
      }
    }
  }

  lemma WireHigher(wire: seq<Wire>, hi: nat, hi': nat, conn: nat)
    requires WireOk(wire, hi, conn) && hi <= hi'
    ensures WireOk(wire, hi', conn)
  {
  }

  lemma HandshakeInOrder(wire: seq<Wire>, hi: nat, conn: nat, preamble: bool, replayed: seq<Frame>)
    requires WireOk(wire, hi, conn)
    ensures WireOk(wire + (if preamble then [Preamble(conn + 1)] else []) + ReplayWire(conn + 1, replayed),
                   hi, conn + 1)
  {
  }

  lemma LinesGrow(b: Bridge, f: Frame, cut: nat)
    requires Ordered(b, cut)
    ensures WireOk(b.wire, cut, b.conn) && QueueOk(|b.lines| + 1, b.pending, cut)
    ensures End(b.pending, cut) <= |b.lines|
  {
  }

  lemma LineSentInOrder(opts: Options, b: Bridge, f: Frame, cut: nat)
    requires Ordered(b, cut) && b.up
    ensures Ordered(ClientLine(opts, b, f), |b.lines| + 1)
  {
  }

  lemma ClientLineInOrder(opts: Options, b: Bridge, f: Frame, cut: nat) returns (cut': nat)
    requires Ordered(b, cut)
    ensures Ordered(ClientLine(opts, b, f), cut')
  {
    hide FailRequest, OnClientMessage, QueueOk, WireOk;
    var n, lines := |b.lines|, |b.lines| + 1;
    cut' := if b.up then lines else cut;
    if b.up {
      LineSentInOrder(opts, b, f, cut);
    } else {
      LinesGrow(b, f, cut);
      var keep := if b.graceExpired then FailRequest(OnClientMessage(b.relay, f), f).1.keep else Some(f);
      if keep.Some? {
        QueueSnoc(lines, b.pending, cut, Queued(n, keep.value));
      }
    }
  }

  lemma StepInOrder(opts: Options, b: Bridge, e: Event, cut: nat) returns (cut': nat)
    requires Enabled(b, e) && Ordered(b, cut)
    ensures Ordered(Step(opts, b, e), cut')
  {
    hide QueueOk, WireOk, ClientLine;
    cut' := cut;
    EmptyQueue(|b.lines|, cut);
    match e
    case ClientLineEv(f) =>
      cut' := ClientLineInOrder(opts, b, f, cut);
    case ReconnectedEv =>
      var replayed := ReplayMessages(b.relay).1;
      HandshakeInOrder(b.wire, cut, b.conn, opts.preamble, replayed);
      FlushInOrder(|b.lines|, b.wire + (if opts.preamble then [Preamble(b.conn + 1)] else [])
                   + ReplayWire(b.conn + 1, replayed),
                   b.conn + 1, b.pending, replayed, cut);
      cut' := End(b.pending, cut);
      EmptyQueue(|b.lines|, cut');
    case GraceEv =>
      FailAllInOrder(b.relay, |b.lines|, b.pending, cut);
    case ClientEndEv =>
    case ServerLineEv(_) =>
    case CloseEv(_) =>
    case ReconnectFailedEv =>
  }

  /** Where any run of possible events leads, whatever the peers send. */
  ghost function RunAny(opts: Options, events: seq<Event>): Option<Bridge> {
    if events == [] then Some(Started(opts))
    else
      var before := RunAny(opts, events[..|events| - 1]);
      var e := events[|events| - 1];
      if before.Some? && Enabled(before.value, e) then Some(Step(opts, before.value, e)) else None
  }

  lemma {:induction false} RunInOrder(opts: Options, events: seq<Event>) returns (cut: nat)
    requires RunAny(opts, events).Some?
    ensures Ordered(RunAny(opts, events).value, cut)
  {
    if events == [] {
      cut := 0;
    } else {
      hide Ordered, Enabled, Step;
      var front := events[..|events| - 1];
      var before := RunInOrder(opts, front);
      cut := StepInOrder(opts, RunAny(opts, front).value, events[|events| - 1], before);
    }
  }

  /**
   * In every run, two client lines are written in the order the client sent them and never twice, so each is
   * written to at most one connection.
   */
  lemma LinesWrittenOnceInOrder(opts: Options, events: seq<Event>, i: nat, j: nat)
    requires RunAny(opts, events).Some?
    requires i < j < |RunAny(opts, events).value.wire|
    ensures var b := RunAny(opts, events).value;
      && b.wire[i].conn <= b.wire[j].conn
      && (b.wire[i].Client? ==> b.wire[i].n < |b.lines|)
      && (b.wire[i].Client? && b.wire[j].Client? ==> b.wire[i].n < b.wire[j].n)
  {
    var _ := RunInOrder(opts, events);
  }
}

/**
 * What becomes of every client line, whatever the peers send: nothing of it is missing but requests answered
 * with an error, copies of a replayed handshake, and remainders that found the queue full.
 */
module RelayFates {
  import opened JsString
  import opened RelayModel
  import opened RelayLemmas
  import opened RelayOrder

  /** The ids answered with a synthesized error. */
  function ErrorIds(outs: seq<Out>): set<Id> {
    if outs == [] then {}
    else
      ErrorIds(outs[..|outs| - 1]) +
      match outs[|outs| - 1]
      case Errors(replies, _) => Elems(ReplyIds(replies))
      case Forwarded(_) => {}
  }

  /** The messages without the requests whose id is in `gone`. */
  function Without(ms: seq<Msg>, gone: set<Id>): seq<Msg> {
    if ms == [] then []
    else
      var m := ms[|ms| - 1];
      Without(ms[..|ms| - 1], gone) + if IsRequest(m) && m.id.value in gone then [] else [m]
  }

  /** `f` is the line itself, or the messages of a batch without requests that were failed. */
  ghost predicate Remains(told: set<Id>, line: Frame, f: Frame) {
    f == line || (line.Batch? && exists gone :: gone <= told && f == Rebatch(Without(Messages(line), gone)))
  }

  /** Every message of the line was a request, and was failed. */
  predicate AllFailed(told: set<Id>, line: Frame) {
    Messages(line) != [] && Without(Messages(line), told) == []
  }

  ghost predicate Written(wire: seq<Wire>, n: nat) {
    exists i :: 0 <= i < |wire| && wire[i].Client? && wire[i].n == n
  }

  ghost predicate Waiting(q: seq<Queued>, n: nat) {
    exists k :: 0 <= k < |q| && q[k].n == n
  }

  ghost predicate Replayed(wire: seq<Wire>, line: Frame) {
    exists i :: 0 <= i < |wire| && wire[i].Replay? && wire[i].frame == line
  }

  /** Line `n` is written or waiting, or nothing of it is owed any more. */
  ghost predicate Placed(lines: seq<Frame>, told: set<Id>, wire: seq<Wire>, q: seq<Queued>, n: nat)
    requires n < |lines|
  {
    Written(wire, n) || Waiting(q, n) || AllFailed(told, lines[n]) || Replayed(wire, lines[n])
  }

  ghost predicate QueueRemains(lines: seq<Frame>, told: set<Id>, q: seq<Queued>) {
    forall k :: 0 <= k < |q| ==> q[k].n < |lines| && Remains(told, lines[q[k].n], q[k].frame)
  }

  ghost predicate WireRemains(lines: seq<Frame>, told: set<Id>, wire: seq<Wire>) {
    forall i :: 0 <= i < |wire| && wire[i].Client? ==>
      wire[i].n < |lines| && Remains(told, lines[wire[i].n], wire[i].frame)
  }

  predicate SingleHandshake(s: Relay) {
    && (s.initializeRaw.Some? ==> s.initializeRaw.value.Single?)
    && (s.initializedRaw.Some? ==> s.initializedRaw.value.Single?)
  }

  ghost predicate Fates(b: Bridge, dropped: set<nat>) {
    var told := ErrorIds(b.toClient);
    && SingleHandshake(b.relay)
    && QueueRemains(b.lines, told, b.pending)
    && WireRemains(b.lines, told, b.wire)
    && (b.exit == Running ==> forall n :: 0 <= n < |b.lines| ==>
         Placed(b.lines, told, b.wire, b.pending, n) || n in dropped)
  }

  // ── Removing requests ─────────────────────────────────────────────────────

  lemma {:induction false} ErrorIdsConcat(s: seq<Out>, t: seq<Out>)
    ensures ErrorIds(s + t) == ErrorIds(s) + ErrorIds(t)
  {
    hide Elems, ReplyIds;
    if t == [] {
      assert s + t == s;
    } else {
      assert (s + t)[..|s + t| - 1] == s + t[..|t| - 1];
      ErrorIdsConcat(s, t[..|t| - 1]);
    }
  }

  lemma {:induction false} WithoutTwice(ms: seq<Msg>, gone: set<Id>, more: set<Id>)
    ensures Without(Without(ms, gone), more) == Without(ms, gone + more)
  {
    if ms != [] {
      var front, m := ms[..|ms| - 1], ms[|ms| - 1];
      WithoutTwice(front, gone, more);
      if IsRequest(m) && m.id.value in gone {
        assert Without(front, gone) + [] == Without(front, gone);
      } else {
        assert (Without(front, gone) + [m])[..|Without(front, gone)|] == Without(front, gone);
      }
    }
  }

  lemma AllFailedMore(told: set<Id>, more: set<Id>, line: Frame)
    requires AllFailed(told, line)
    ensures AllFailed(told + more, line)
  {
    WithoutTwice(Messages(line), told, more);
  }

  lemma RemainsMore(told: set<Id>, more: set<Id>, line: Frame, f: Frame)
    requires Remains(told, line, f)
    ensures Remains(told + more, line, f)
  {
    if f != line {
      var gone :| gone <= told && f == Rebatch(Without(Messages(line), gone));
      assert gone <= told + more;
    }
  }

  lemma {:induction false} KeepableIsWithout(s: Relay, ms: seq<Msg>, gone: set<Id>)
    requires forall m :: m in ms && IsRequest(m) ==> (m.id.value in gone <==> !Exempt(s, m.id.value))
    ensures KeepableOf(s, ms) == Without(ms, gone)
  {
    hide Exempt;
    if ms != [] {
      KeepableIsWithout(s, ms[..|ms| - 1], gone);
    }
  }

  lemma {:induction false} FailedIds(s: Relay, ms: seq<Msg>, id: Id)
    ensures id in Elems(ReplyIds(RepliesTo(FailableOf(s, ms))))
       <==> exists m :: m in ms && Failable(s, m) && m.id.value == id
  {
    hide Exempt;
    if ms == [] {
    } else {
      var front, m := ms[..|ms| - 1], ms[|ms| - 1];
      assert ms == front + [m];
      FailedIds(s, front, id);
      if Failable(s, m) {
        var replies, e := RepliesTo(FailableOf(s, front)), ErrorReply(m.id.value, m.verb.value);
        RepliesToSnoc(FailableOf(s, front), m);
        assert ReplyIds(replies + [e]) == ReplyIds(replies) + [e.id];
        DistinctConcat(ReplyIds(replies), [e.id]);
        DistinctSingle(e.id);
        hide RepliesTo, ReplyIds, Elems;
      } else {
        assert FailableOf(s, ms) == FailableOf(s, front);
      }
    }
  }

  /** A batch that is failed keeps just its messages without the requests answered. */
  lemma BatchKeeps(s: Relay, ms: seq<Msg>)
    ensures var r := FailItems(s, ms); r.2 == Without(ms, Elems(ReplyIds(r.1)))
  {
    hide FailItems, FailableOf, KeepableOf, RepliesTo, ReplyIds, Elems;
    BatchSplits(s, ms);
    var gone := Elems(ReplyIds(RepliesTo(FailableOf(s, ms))));
    forall m | m in ms && IsRequest(m)
      ensures m.id.value in gone <==> !Exempt(s, m.id.value)
    {
      FailedIds(s, ms, m.id.value);
      if !Exempt(s, m.id.value) {
        assert Failable(s, m);
      }
    }
    KeepableIsWithout(s, ms, gone);
  }

  // ── Each operation ────────────────────────────────────────────────────────

  /** Failing what remains of a line keeps what then remains, or nothing when only requests were left. */
  lemma FailRequestFate(s: Relay, told: set<Id>, line: Frame, f: Frame)
    requires Remains(told, line, f)
    ensures var r := FailRequest(s, f).1; var told' := told + ErrorIds(Opt(r.error));
      if r.keep.Some? then Remains(told', line, r.keep.value) else AllFailed(told', line)
  {
    var r := FailRequest(s, f).1;
    if f.Single? {
      SingleFate(s, told, line, f);
    } else if Messages(f) == [] {
      RemainsMore(told, ErrorIds(Opt(r.error)), line, f);
    } else {
      BatchFate(s, told, line, f);
    }
  }

  lemma SingleFate(s: Relay, told: set<Id>, line: Frame, f: Frame)
    requires Remains(told, line, f) && f.Single?
    ensures var r := FailRequest(s, f).1; var told' := told + ErrorIds(Opt(r.error));
      if r.keep.Some? then Remains(told', line, r.keep.value) else AllFailed(told', line)
  {
    assert f == line;
    if Failable(s, f.msg) {
      var r := FailRequest(s, f).1;
      assert Opt(r.error)[..0] == [] && ReplyIds([ErrorReply(f.msg.id.value, f.msg.verb.value)]) == [f.msg.id.value];
      assert f.msg.id.value in ErrorIds(Opt(r.error));
      assert Messages(f)[..0] == [];
    }
  }

  lemma BatchFate(s: Relay, told: set<Id>, line: Frame, f: Frame)
    requires Remains(told, line, f) && !f.Single? && Messages(f) != []
    ensures var r := FailRequest(s, f).1; var told' := told + ErrorIds(Opt(r.error));
      if r.keep.Some? then Remains(told', line, r.keep.value) else AllFailed(told', line)
  {
    hide FailItems, Messages, Without, ReplyIds, Elems, Rebatch;
    var r := FailRequest(s, f).1;
    var (_, errors, kept) := FailItems(s, Messages(f));
    var more := Elems(ReplyIds(errors));
    BatchKeeps(s, Messages(f));
    ErrorsTold(errors);
    assert ErrorIds(Opt(r.error)) == more;
    BatchOnly(f);
    if f == line {
      assert kept == Without(Messages(line), more);
      if kept == [] {
        EmptyMore(Messages(line), more, told);
      }
    } else {
      var gone :| gone <= told && f == Rebatch(Without(Messages(line), gone));
      ObjectsOf(Without(Messages(line), gone));
      WithoutTwice(Messages(line), gone, more);
      assert gone + more <= told + more;
      WithoutNone(gone);
      if kept == [] {
        EmptyMore(Messages(line), gone + more, told);
        assert gone + more + told == told + more;
      }
    }
  }

  lemma WithoutNone(gone: set<Id>)
    ensures Without([], gone) == []
  {
  }

  lemma BatchOnly(f: Frame)
    requires !f.Single? && Messages(f) != []
    ensures f.Batch?
  {
  }

  lemma ErrorsTold(errors: seq<ErrorReply>)
    ensures ErrorIds([]) == {} && ErrorIds([Errors(errors, true)]) == Elems(ReplyIds(errors))
    ensures errors == [] ==> Elems(ReplyIds(errors)) == {}
  {
    assert [Errors(errors, true)][..0] == [];
  }

  lemma EmptyMore(ms: seq<Msg>, gone: set<Id>, more: set<Id>)
    requires Without(ms, gone) == []
    ensures Without(ms, gone + more) == [] && Without(ms, more + gone) == []
  {
    WithoutTwice(ms, gone, more);
    assert gone + more == more + gone;
  }

  lemma QueueMore(lines: seq<Frame>, told: set<Id>, more: set<Id>, q: seq<Queued>)
    requires QueueRemains(lines, told, q)
    ensures QueueRemains(lines, told + more, q)
  {
    hide Remains;
    forall k | 0 <= k < |q| {
      RemainsMore(told, more, lines[q[k].n], q[k].frame);
    }
  }

  lemma WireMore(lines: seq<Frame>, told: set<Id>, more: set<Id>, wire: seq<Wire>)
    requires WireRemains(lines, told, wire)
    ensures WireRemains(lines, told + more, wire)
  {
    hide Remains;
    forall i | 0 <= i < |wire| && wire[i].Client? {
      RemainsMore(told, more, lines[wire[i].n], wire[i].frame);
    }
  }

  /** Failing the whole queue leaves remainders, and lines of which nothing was left but requests. */
  lemma {:induction false} FailAllFates(s: Relay, lines: seq<Frame>, told: set<Id>, q: seq<Queued>)
    requires QueueRemains(lines, told, q)
    ensures var (_, out, kept) := FailAll(s, q); var told' := told + ErrorIds(out);
      && QueueRemains(lines, told', kept)
      && forall k :: 0 <= k < |q| ==> Waiting(kept, q[k].n) || AllFailed(told', lines[q[k].n])
  {
    hide Remains, AllFailed, FailRequest, ErrorIds;
    if q == [] {
    } else {
      var front, last := q[..|q| - 1], q[|q| - 1];
      FailAllFates(s, lines, told, front);
      var (s', out, kept) := FailAll(s, front);
      var r := FailRequest(s', last.frame).1;
      var told1, more := told + ErrorIds(out), ErrorIds(Opt(r.error));
      RemainsMore(told, ErrorIds(out), lines[last.n], last.frame);
      FailRequestFate(s', told1, lines[last.n], last.frame);
      ErrorIdsConcat(out, Opt(r.error));
      assert told + ErrorIds(out + Opt(r.error)) == told1 + more;
      QueueMore(lines, told1, more, kept);
      var kept' := FailAll(s, q).2;
      assert kept' == kept + if r.keep.Some? then [Queued(last.n, r.keep.value)] else [];
      forall k | 0 <= k < |q|
        ensures Waiting(kept', q[k].n) || AllFailed(told1 + more, lines[q[k].n])
      {
        if k == |q| - 1 {
          if r.keep.Some? {
            assert kept'[|kept|].n == last.n;
          }
        } else if Waiting(kept, front[k].n) {
          WaitingStays(kept, kept', q[k].n);
        } else {
          AllFailedMore(told1, more, lines[front[k].n]);
        }
      }
    }
  }

  lemma WaitingStays(q: seq<Queued>, q': seq<Queued>, n: nat)
    requires q <= q' && Waiting(q, n)
    ensures Waiting(q', n)
  {
    var k :| 0 <= k < |q| && q[k].n == n;
    assert q'[k].n == n;
  }

  lemma WireGrows(wire: seq<Wire>, more: seq<Wire>, n: nat, line: Frame)
    ensures Written(wire + more, n) <==> Written(wire, n) || Written(more, n)
    ensures Replayed(wire + more, line) <==> Replayed(wire, line) || Replayed(more, line)
  {
    assert forall i :: 0 <= i < |wire| ==> (wire + more)[i] == wire[i];
    assert forall i :: 0 <= i < |more| ==> (wire + more)[|wire| + i] == more[i];
  }

  /** The flush writes every queued line that is no copy of a replayed one, as it waited. */
  lemma {:induction false} FlushFates(lines: seq<Frame>, told: set<Id>, conn: nat, q: seq<Queued>, replayed: seq<Frame>)
    requires QueueRemains(lines, told, q)
    ensures WireRemains(lines, told, FlushWire(conn, q, replayed))
    ensures forall k :: 0 <= k < |q| ==> Written(FlushWire(conn, q, replayed), q[k].n) || q[k].frame in replayed
  {
    hide Remains, Written;
    if q != [] {
      var front, last := q[..|q| - 1], q[|q| - 1];
      FlushFates(lines, told, conn, front, replayed);
      var sent := if last.frame in replayed then [] else [Client(conn, last.n, last.frame)];
      assert FlushWire(conn, q, replayed) == FlushWire(conn, front, replayed) + sent;
      forall k | 0 <= k < |q|
        ensures Written(FlushWire(conn, q, replayed), q[k].n) || q[k].frame in replayed
      {
        WireGrows(FlushWire(conn, front, replayed), sent, q[k].n, last.frame);
        if k == |q| - 1 {
          SentIsWritten(conn, last);
        } else {
          assert q[k] == front[k];
        }
      }
    }
  }

  lemma SentIsWritten(conn: nat, last: Queued)
    ensures Written([Client(conn, last.n, last.frame)], last.n)
  {
    assert [Client(conn, last.n, last.frame)][0].n == last.n;
  }

  /** Line `n` keeps its place when more is told and written, and waiting lines are written, kept or failed. */
  lemma PlaceKept(lines: seq<Frame>, told: set<Id>, more: set<Id>, wire: seq<Wire>, sent: seq<Wire>, q: seq<Queued>,
                  q': seq<Queued>, n: nat)
    requires n < |lines| && Placed(lines, told, wire, q, n)
    requires Waiting(q, n) ==>
      Waiting(q', n) || Written(sent, n) || AllFailed(told + more, lines[n]) || Replayed(sent, lines[n])
    ensures Placed(lines, told + more, wire + sent, q', n)
  {
    hide Written, Waiting, AllFailed, Replayed;
    WireGrows(wire, sent, n, lines[n]);
    if AllFailed(told, lines[n]) {
      AllFailedMore(told, more, lines[n]);
    }
  }

  // ── Each event ────────────────────────────────────────────────────────────

  /** The remainder of the line finds the queue full. */
  predicate QueueFull(opts: Options, b: Bridge, e: Event) {
    e.ClientLineEv? && !b.up && b.graceExpired && 0 < opts.maxPending <= |b.pending|
  }

  /** The output, and perhaps the queue, changed; the lines and the wire did not. */
  lemma ToldMore(b: Bridge, b': Bridge, out: seq<Out>, dropped: set<nat>)
    requires Fates(b, dropped) && b.exit == Running
    requires b'.lines == b.lines && b'.wire == b.wire && b'.toClient == b.toClient + out
    requires SingleHandshake(b'.relay)
    requires b'.pending == b.pending || (b'.exit != Running && b'.pending == [])
    ensures Fates(b', dropped)
  {
    hide Remains, Placed, ErrorIds, SingleHandshake;
    var told, more := ErrorIds(b.toClient), ErrorIds(out);
    ErrorIdsConcat(b.toClient, out);
    QueueMore(b.lines, told, more, b.pending);
    WireMore(b.lines, told, more, b.wire);
    if b'.exit == Running {
      forall n | 0 <= n < |b.lines| && n !in dropped
        ensures Placed(b.lines, told + more, b.wire, b.pending, n)
      {
        assert b.wire + [] == b.wire;
        PlaceKept(b.lines, told, more, b.wire, [], b.pending, b.pending, n);
      }
    }
  }

  lemma SameHandshake(s: Relay, s': Relay)
    requires SingleHandshake(s) && s'.initializeRaw == s.initializeRaw && s'.initializedRaw == s.initializedRaw
    ensures SingleHandshake(s')
  {
  }

  lemma {:induction false} FailAllHandshake(s: Relay, q: seq<Queued>)
    ensures FailAll(s, q).0.initializeRaw == s.initializeRaw && FailAll(s, q).0.initializedRaw == s.initializedRaw
  {
    hide FailItems, Messages;
    if q != [] {
      FailAllHandshake(s, q[..|q| - 1]);
    }
  }

  lemma ShutDownFates(b: Bridge, code: nat, dropped: set<nat>)
    requires Fates(b, dropped) && b.exit == Running
    ensures Fates(ShutDown(b, code), dropped)
  {
    hide Fates, FailAll, SingleHandshake;
    var (s, out, _) := FailAll(b.relay, b.pending);
    FailAllHandshake(b.relay, b.pending);
    assert SingleHandshake(b.relay) by { FatesHandshake(b, dropped); }
    SameHandshake(b.relay, s);
    ToldMore(b, ShutDown(b, code), out, dropped);
  }

  lemma FatesHandshake(b: Bridge, dropped: set<nat>)
    requires Fates(b, dropped)
    ensures SingleHandshake(b.relay)
  {
  }

  lemma GraceFates(b: Bridge, dropped: set<nat>)
    requires Fates(b, dropped) && b.exit == Running
    ensures Fates(GraceExpires(b), dropped)
  {
    hide Remains, ErrorIds, SingleHandshake, FailAll, Waiting, AllFailed, Placed;
    var (s, out, kept) := FailAll(b.relay, b.pending);
    var told, more := ErrorIds(b.toClient), ErrorIds(out);
    FailAllHandshake(b.relay, b.pending);
    SameHandshake(b.relay, s);
    ErrorIdsConcat(b.toClient, out);
    FailAllFates(b.relay, b.lines, told, b.pending);
    WireMore(b.lines, told, more, b.wire);
    forall n | 0 <= n < |b.lines| && n !in dropped
      ensures Placed(b.lines, told + more, b.wire, kept, n)
    {
      if Waiting(b.pending, n) {
        var k := Where(b.pending, n);
        assert Waiting(kept, b.pending[k].n) || AllFailed(told + more, b.lines[b.pending[k].n]);
      }
      assert b.wire + [] == b.wire;
      PlaceKept(b.lines, told, more, b.wire, [], b.pending, kept, n);
    }
  }

  lemma Where(q: seq<Queued>, n: nat) returns (k: nat)
    requires Waiting(q, n)
    ensures k < |q| && q[k].n == n
  {
    k :| 0 <= k < |q| && q[k].n == n;
  }

  lemma ReconnectedFates(opts: Options, b: Bridge, dropped: set<nat>)
    requires Fates(b, dropped) && b.exit == Running
    ensures Fates(Reconnected(opts, b), dropped)
  {
    hide Remains, ErrorIds, SingleHandshake, Waiting, AllFailed, Placed, Written, Replayed, FlushWire, ReplayWire;
    hide ReplayMessages;
    var conn, replayed := b.conn + 1, ReplayMessages(b.relay).1;
    var told := ErrorIds(b.toClient);
    var greeting := (if opts.preamble then [Preamble(conn)] else []) + ReplayWire(conn, replayed);
    var sent := greeting + FlushWire(conn, b.pending, replayed);
    ReplayedLines(b.relay, conn);
    FlushFates(b.lines, told, conn, b.pending, replayed);
    GreetingOnly(opts, b.lines, told, conn, replayed);
    assert told + {} == told;
    forall n | 0 <= n < |b.lines| && n !in dropped
      ensures Placed(b.lines, told, b.wire + sent, [], n)
    {
      if Waiting(b.pending, n) {
        var k := Where(b.pending, n);
        WireGrows(greeting, FlushWire(conn, b.pending, replayed), n, b.lines[n]);
        assert Remains(told, b.lines[n], b.pending[k].frame);
        if b.pending[k].frame in replayed {
          SingleRemains(told, b.lines[n], b.pending[k].frame);
          GreetingReplays(opts, conn, replayed, b.lines[n]);
        }
      }
      PlaceKept(b.lines, told, {}, b.wire, sent, b.pending, [], n);
    }
    WireParts(b.lines, told, b.wire, sent);
    WireParts(b.lines, told, greeting, FlushWire(conn, b.pending, replayed));
    assert Reconnected(opts, b).wire == b.wire + sent;
  }

  lemma WireParts(lines: seq<Frame>, told: set<Id>, a: seq<Wire>, c: seq<Wire>)
    requires WireRemains(lines, told, c)
    ensures WireRemains(lines, told, a) ==> WireRemains(lines, told, a + c)
  {
    hide Remains;
  }

  lemma ReplayedLines(s: Relay, conn: nat)
    requires SingleHandshake(s)
    ensures SingleHandshake(ReplayMessages(s).0) && forall f :: f in ReplayMessages(s).1 ==> f.Single?
  {
  }

  lemma SingleRemains(told: set<Id>, line: Frame, f: Frame)
    requires Remains(told, line, f) && f.Single?
    ensures f == line
  {
  }

  lemma GreetingOnly(opts: Options, lines: seq<Frame>, told: set<Id>, conn: nat, replayed: seq<Frame>)
    ensures WireRemains(lines, told, (if opts.preamble then [Preamble(conn)] else []) + ReplayWire(conn, replayed))
  {
    hide Remains;
  }

  lemma GreetingReplays(opts: Options, conn: nat, replayed: seq<Frame>, line: Frame)
    requires line in replayed
    ensures Replayed((if opts.preamble then [Preamble(conn)] else []) + ReplayWire(conn, replayed), line)
  {
    var first := if opts.preamble then [Preamble(conn)] else [];
    var k :| 0 <= k < |replayed| && replayed[k] == line;
    assert (first + ReplayWire(conn, replayed))[|first| + k] == Replay(conn, line);
  }

  lemma CaptureSingle(s: Relay, f: Frame)
    requires SingleHandshake(s)
    ensures SingleHandshake(OnClientMessage(s, f))
  {
    hide Track;
  }

  lemma FailRequestHandshake(s: Relay, f: Frame)
    requires SingleHandshake(s)
    ensures SingleHandshake(FailRequest(s, f).0)
  {
    hide FailItems, Messages;
  }

  /** With another line at the end, everything before it stays as it was. */
  lemma LineAdded(b: Bridge, f: Frame, dropped: set<nat>)
    requires Fates(b, dropped)
    ensures var told := ErrorIds(b.toClient); var lines := b.lines + [f];
      && QueueRemains(lines, told, b.pending) && WireRemains(lines, told, b.wire) && Remains(told, lines[|b.lines|], f)
      && (b.exit == Running ==> forall n :: 0 <= n < |b.lines| ==>
           Placed(lines, told, b.wire, b.pending, n) || n in dropped)
  {
    hide Written, Waiting, Replayed, AllFailed, ErrorIds, SingleHandshake;
    var lines := b.lines + [f];
    assert forall n :: 0 <= n < |b.lines| ==> lines[n] == b.lines[n];
  }

  lemma LineWrittenFates(opts: Options, b: Bridge, f: Frame, dropped: set<nat>)
    requires Fates(b, dropped) && b.exit == Running && b.up
    ensures Fates(ClientLine(opts, b, f), dropped)
  {
    hide Remains, ErrorIds, SingleHandshake, Waiting, AllFailed, Placed, Written, Replayed, OnClientMessage;
    var n, lines, told := |b.lines|, b.lines + [f], ErrorIds(b.toClient);
    var sent := [Client(b.conn, n, f)];
    LineAdded(b, f, dropped);
    CaptureSingle(b.relay, f);
    WireParts(lines, told, b.wire, sent);
    assert told + {} == told;
    forall k | 0 <= k <= n && k !in dropped
      ensures Placed(lines, told, b.wire + sent, b.pending, k)
    {
      if k == n {
        SentIsWritten(b.conn, Queued(n, f));
        WireGrows(b.wire, sent, n, f);
        assert Placed(lines, told, b.wire + sent, b.pending, n) by {
          WrittenIsPlaced(lines, told, b.wire + sent, b.pending, n);
        }
      } else {
        PlaceKept(lines, told, {}, b.wire, sent, b.pending, b.pending, k);
      }
    }
  }

  lemma WrittenIsPlaced(lines: seq<Frame>, told: set<Id>, wire: seq<Wire>, q: seq<Queued>, n: nat)
    requires n < |lines| && (Written(wire, n) || Waiting(q, n) || AllFailed(told, lines[n]))
    ensures Placed(lines, told, wire, q, n)
  {
  }

  /** A line, or what remains of it, joins the queue, or nothing of it does. */
  lemma QueueGrows(b: Bridge, f: Frame, out: seq<Out>, keep: Option<Frame>, b': Bridge, dropped: set<nat>,
                   dropped': set<nat>)
    requires Fates(b, dropped) && b.exit == Running && dropped <= dropped'
    requires var told' := ErrorIds(b.toClient) + ErrorIds(out);
      if keep.Some? then Remains(told', f, keep.value) else AllFailed(told', f) || |b.lines| in dropped'
    requires b' == b.(relay := b'.relay, lines := b.lines + [f], toClient := b.toClient + out,
                      pending := b.pending + if keep.Some? then [Queued(|b.lines|, keep.value)] else [])
    requires SingleHandshake(b'.relay)
    ensures Fates(b', dropped')
  {
    hide Remains, ErrorIds, SingleHandshake, Waiting, AllFailed, Placed, Written, Replayed;
    var n, told, more := |b.lines|, ErrorIds(b.toClient), ErrorIds(out);
    LineAdded(b, f, dropped);
    ErrorIdsConcat(b.toClient, out);
    QueueMore(b'.lines, told, more, b.pending);
    WireMore(b'.lines, told, more, b.wire);
    assert b.wire + [] == b.wire;
    forall k | 0 <= k <= n && k !in dropped'
      ensures Placed(b'.lines, told + more, b.wire, b'.pending, k)
    {
      if k < n {
        if Waiting(b.pending, k) {
          WaitingStays(b.pending, b'.pending, k);
        }
        PlaceKept(b'.lines, told, more, b.wire, [], b.pending, b'.pending, k);
      } else {
        if keep.Some? {
          LastWaits(b.pending, Queued(n, keep.value));
        }
        WrittenIsPlaced(b'.lines, told + more, b.wire, b'.pending, n);
      }
    }
  }

  lemma LastWaits(q: seq<Queued>, last: Queued)
    ensures Waiting(q + [last], last.n)
  {
    assert (q + [last])[|q|].n == last.n;
  }

  lemma ClientLineFates(opts: Options, b: Bridge, f: Frame, dropped: set<nat>)
    requires Fates(b, dropped) && b.exit == Running
    ensures Fates(ClientLine(opts, b, f), dropped + if QueueFull(opts, b, ClientLineEv(f)) then {|b.lines|} else {})
  {
    hide Fates, Remains, ErrorIds, SingleHandshake, AllFailed, OnClientMessage, FailRequest;
    assert SingleHandshake(b.relay) by { FatesHandshake(b, dropped); }
    CaptureSingle(b.relay, f);
    var told := ErrorIds(b.toClient);
    var b' := ClientLine(opts, b, f);
    assert dropped + {} == dropped;
    if b.up {
      LineWrittenFates(opts, b, f, dropped);
    } else if b.graceExpired {
      var s := OnClientMessage(b.relay, f);
      var r := FailRequest(s, f).1;
      RemainsSelf(told, f);
      FailRequestFate(s, told, f, f);
      FailRequestHandshake(s, f);
      var full := QueueFull(opts, b, ClientLineEv(f));
      QueueGrows(b, f, Opt(r.error), if full then None else r.keep, b', dropped,
                 dropped + if full then {|b.lines|} else {});
    } else {
      RemainsSelf(told + ErrorIds([]), f);
      assert b.toClient + [] == b.toClient;
      QueueGrows(b, f, [], Some(f), b', dropped, dropped);
    }
  }

  lemma RemainsSelf(told: set<Id>, f: Frame)
    ensures Remains(told, f, f)
  {
  }

  lemma CloseFates(opts: Options, b: Bridge, young: bool, dropped: set<nat>)
    requires Fates(b, dropped) && b.exit == Running
    ensures Fates(SocketClose(opts, b, young), dropped)
  {
    hide Fates, FailOutstanding, SingleHandshake, ShutDown;
    assert SingleHandshake(b.relay) by { FatesHandshake(b, dropped); }
    assert b.toClient + [] == b.toClient;
    var (s, out) := FailOutstanding(b.relay);
    OutstandingHandshake(b.relay);
    SameHandshake(b.relay, s);
    if b.clientEnded {
      HungUpFates(b, dropped);
    } else {
      var rapid := if young then b.rapidFails + 1 else 0;
      var d := b.(up := false, relay := s, toClient := b.toClient + out, rapidFails := rapid);
      ToldMore(b, d, out, dropped);
      if rapid >= opts.rapidFailMax {
        ShutDownFates(d, 1, dropped);
      } else {
        ToldMore(b, SocketClose(opts, b, young), out, dropped);
      }
    }
  }

  lemma HungUpFates(b: Bridge, dropped: set<nat>)
    requires Fates(b, dropped)
    ensures Fates(b.(up := false, exit := HungUp), dropped)
  {
    hide Remains, ErrorIds, Placed;
  }

  lemma OutstandingHandshake(s: Relay)
    ensures FailOutstanding(s).0.initializeRaw == s.initializeRaw
    ensures FailOutstanding(s).0.initializedRaw == s.initializedRaw
  {
  }

  lemma ServerLineFates(b: Bridge, f: Frame, dropped: set<nat>)
    requires Fates(b, dropped) && b.exit == Running
    ensures Fates(ServerLine(b, f), dropped)
  {
    hide Fates, SingleHandshake, ShutDown, Untrack, Del, Messages;
    assert SingleHandshake(b.relay) by { FatesHandshake(b, dropped); }
    assert b.toClient + [] == b.toClient;
    var (s, verdict) := OnServerMessage(b.relay, f);
    SameHandshake(b.relay, s);
    match verdict
    case Forward => ToldMore(b, ServerLine(b, f), [Forwarded(f)], dropped);
    case DropReply => ToldMore(b, ServerLine(b, f), [], dropped);
    case ReplayError =>
      ToldMore(b, b.(relay := s), [], dropped);
      ShutDownFates(b.(relay := s), 1, dropped);
  }

  lemma ClientEndFates(b: Bridge, dropped: set<nat>)
    requires Fates(b, dropped) && b.exit == Running
    ensures Fates(ClientEnd(b), dropped)
  {
    hide Fates, SingleHandshake, ShutDown;
    assert SingleHandshake(b.relay) by { FatesHandshake(b, dropped); }
    assert b.toClient + [] == b.toClient;
    ToldMore(b, b.(clientEnded := true), [], dropped);
    ShutDownFates(b.(clientEnded := true), 0, dropped);
  }

  lemma StepFates(opts: Options, b: Bridge, e: Event, dropped: set<nat>)
    requires Enabled(b, e) && Fates(b, dropped)
    ensures Fates(Step(opts, b, e), dropped + if QueueFull(opts, b, e) then {|b.lines|} else {})
  {
    hide Fates, ClientLine, ClientEnd, ServerLine, SocketClose, GraceExpires, Reconnected, ShutDown;
    assert dropped + {} == dropped;
    match e
    case ClientLineEv(f) => ClientLineFates(opts, b, f, dropped);
    case ClientEndEv => ClientEndFates(b, dropped);
    case ServerLineEv(f) => ServerLineFates(b, f, dropped);
    case CloseEv(young) => CloseFates(opts, b, young, dropped);
    case GraceEv => GraceFates(b, dropped);
    case ReconnectedEv => ReconnectedFates(opts, b, dropped);
    case ReconnectFailedEv => ShutDownFates(b, 1, dropped);
  }

  // ── Runs ──────────────────────────────────────────────────────────────────

  /** The numbers of the lines whose remainder found the queue full. */
  ghost function Dropped(opts: Options, events: seq<Event>): set<nat> {
    if events == [] then {}
    else
      var front, e := events[..|events| - 1], events[|events| - 1];
      var before := RunAny(opts, front);
      Dropped(opts, front) + if before.Some? && QueueFull(opts, before.value, e) then {|before.value.lines|} else {}
  }

  lemma {:induction false} RunFates(opts: Options, events: seq<Event>)
    requires RunAny(opts, events).Some?
    ensures Fates(RunAny(opts, events).value, Dropped(opts, events))
  {
    hide Step, Enabled, QueueFull;
    if events == [] {
    } else {
      hide Fates;
      var front := events[..|events| - 1];
      RunFates(opts, front);
      StepFates(opts, RunAny(opts, front).value, events[|events| - 1], Dropped(opts, front));
    }
  }

  /**
   * What is written for a client line is the line, or the rest of its batch once some of its requests were answered
   * with errors.
   */
  lemma WrittenIsWhatRemains(opts: Options, events: seq<Event>, i: nat)
    requires RunAny(opts, events).Some?
    requires i < |RunAny(opts, events).value.wire| && RunAny(opts, events).value.wire[i].Client?
    ensures var b := RunAny(opts, events).value;
      b.wire[i].n < |b.lines| && Remains(ErrorIds(b.toClient), b.lines[b.wire[i].n], b.wire[i].frame)
  {
    hide RunAny, Remains;
    RunFates(opts, events);
  }

  lemma {:induction false} WithoutKeeps(ms: seq<Msg>, gone: set<Id>, m: Msg)
    requires m in ms && !(IsRequest(m) && m.id.value in gone)
    ensures m in Without(ms, gone)
  {
    if m != ms[|ms| - 1] {
      WithoutKeeps(ms[..|ms| - 1], gone, m);
    }
  }

  lemma RemainsKeeps(told: set<Id>, line: Frame, f: Frame, m: Msg)
    requires Remains(told, line, f) && m in Messages(line) && !(IsRequest(m) && m.id.value in told)
    ensures m in Messages(f)
  {
    if f != line {
      var gone :| gone <= told && f == Rebatch(Without(Messages(line), gone));
      WithoutKeeps(Messages(line), gone, m);
      ObjectsOf(Without(Messages(line), gone));
    }
  }

  /** `m` stands in what was written of line `n`, or in what still waits of it. */
  ghost predicate Carried(b: Bridge, n: nat, m: Msg) {
    || (exists i :: 0 <= i < |b.wire| && b.wire[i].Client? && b.wire[i].n == n && m in Messages(b.wire[i].frame))
    || (exists k :: 0 <= k < |b.pending| && b.pending[k].n == n && m in Messages(b.pending[k].frame))
  }

  /**
   * No message is lost beside requests answered with an error: while the relay runs, every other message of every
   * client line is written or waits, but for lines replayed as the handshake and remainders that found the queue full.
   */
  lemma NoMessageIsLost(opts: Options, events: seq<Event>, n: nat, m: Msg)
    requires RunAny(opts, events).Some? && RunAny(opts, events).value.exit == Running
    requires n < |RunAny(opts, events).value.lines| && m in Messages(RunAny(opts, events).value.lines[n])
    requires !(IsRequest(m) && m.id.value in ErrorIds(RunAny(opts, events).value.toClient))
    ensures var b := RunAny(opts, events).value;
      Carried(b, n, m) || Replayed(b.wire, b.lines[n]) || n in Dropped(opts, events)
  {
    hide RunAny, Dropped, Remains, ErrorIds, Replayed;
    RunFates(opts, events);
    var b := RunAny(opts, events).value;
    var told := ErrorIds(b.toClient);
    if Written(b.wire, n) {
      var i :| 0 <= i < |b.wire| && b.wire[i].Client? && b.wire[i].n == n;
      RemainsKeeps(told, b.lines[n], b.wire[i].frame, m);
    } else if Waiting(b.pending, n) {
      var k := Where(b.pending, n);
      RemainsKeeps(told, b.lines[n], b.pending[k].frame, m);
    } else if AllFailed(told, b.lines[n]) {
      WithoutKeeps(Messages(b.lines[n]), told, m);
    }
  }
}

/**
 * Newline framing of a connection, whatever chunks its bytes arrive in: the splitter both ends share, the
 * listener's peek at the first line, and the transport it hands the rest to.
 */
module Framing {
  import opened JsString
  import opened Splitting

  /** A line worth delivering, without its trailing carriage return; nothing for a blank one. */
  function KeptLine(part: string): seq<string> {
    if Trim(StripCr(part)) != "" then [StripCr(part)] else []
  }

  function Kept(parts: seq<string>): seq<string> {
    if parts == [] then [] else KeptLine(parts[0]) + Kept(parts[1..])
  }

  /** The complete lines of `text` and the partial one after them. */
  function SplitLines(text: string): (seq<string>, string) {
    var parts := Split(text, '\n');
    (Kept(parts[..|parts| - 1]), Last(parts))
  }

  function Concat(chunks: seq<string>): string {
    if chunks == [] then "" else chunks[0] + Concat(chunks[1..])
  }

  // ── Splitting in pieces ───────────────────────────────────────────────────

  lemma {:induction false} KeptAppend(a: seq<string>, b: seq<string>)
    ensures Kept(a + b) == Kept(a) + Kept(b)
  {
    hide KeptLine;
    if a == [] {
      assert a + b == b;
    } else {
      KeptAppend(a[1..], b);
      assert (a + b)[1..] == a[1..] + b;
      assert KeptLine(a[0]) + (Kept(a[1..]) + Kept(b)) == KeptLine(a[0]) + Kept(a[1..]) + Kept(b);
    }
  }

  lemma Regroup(head: string, p: seq<string>, q: seq<string>)
    requires p != []
    ensures Last([head] + p) == Last(p)
    ensures ([head] + p)[..|p|] + q == [head] + (p[..|p| - 1] + q)
  {
    assert ([head] + p)[..|p|] == [head] + p[..|p| - 1];
  }

  /** Splitting `s + t` is splitting `s`, and then its partial line followed by `t`. */
  lemma {:induction false} SplitContinues(s: string, t: string)
    ensures var p, q := Split(s, '\n'), Split(Last(Split(s, '\n')) + t, '\n');
      Split(s + t, '\n') == p[..|p| - 1] + q
    decreases |s|
  {
    hide Split, IndexOf;
    var k := IndexOf(s, '\n', 0);
    if k < |s| {
      var rest := s[k + 1..];
      SplitContinues(rest, t);
      assert s == s[..k] + ['\n'] + rest;
      SplitFirst(s[..k], '\n', rest);
      assert s + t == s[..k] + ['\n'] + (rest + t);
      SplitFirst(s[..k], '\n', rest + t);
      Regroup(s[..k], Split(rest, '\n'), Split(Last(Split(rest, '\n')) + t, '\n'));
    } else {
      SplitWhole(s, '\n');
    }
  }

  /** One more chunk: what it completes comes after what was already complete. */
  lemma SplitLinesContinues(s: string, t: string)
    ensures var (before, carried) := SplitLines(s);
            var (after, rest) := SplitLines(carried + t);
            SplitLines(s + t) == (before + after, rest)
  {
    hide Split, Kept;
    var p := Split(s, '\n');
    var q := Split(Last(p) + t, '\n');
    SplitContinues(s, t);
    var all := p[..|p| - 1] + q;
    assert all[..|all| - 1] == p[..|p| - 1] + q[..|q| - 1];
    KeptAppend(p[..|p| - 1], q[..|q| - 1]);
  }

  lemma Incomplete(text: string)
    requires Free(text, '\n')
    ensures SplitLines(text) == ([], text)
  {
    SplitWhole(text, '\n');
  }

  lemma {:induction false} ConcatAppend(a: seq<string>, c: string)
    ensures Concat(a + [c]) == Concat(a) + c
  {
    if a == [] {
      assert a + [c] == [c] && Concat([c]) == c + Concat([]);
    } else {
      ConcatAppend(a[1..], c);
      assert (a + [c])[1..] == a[1..] + [c];
    }
  }

  /** `splitLines` called on each chunk in turn with what the last call carried. */
  function Fold(carried: string, chunks: seq<string>): (seq<string>, string)
    decreases |chunks|
  {
    if chunks == [] then ([], carried)
    else
      var (lines, rest) := SplitLines(carried + chunks[0]);
      var (more, partial) := Fold(rest, chunks[1..]);
      (lines + more, partial)
  }

  lemma PartialIsFree(text: string)
    ensures Free(SplitLines(text).1, '\n')
  {
    SplitIsFree(text, '\n');
  }

  /** Folding the splitter over the chunks is one call on all of them together. */
  lemma {:induction false} FoldIsOneCall(carried: string, chunks: seq<string>)
    requires Free(carried, '\n')
    ensures Fold(carried, chunks) == SplitLines(carried + Concat(chunks))
    decreases |chunks|
  {
    hide SplitLines;
    if chunks == [] {
      Incomplete(carried);
      assert carried + "" == carried;
    } else {
      PartialIsFree(carried + chunks[0]);
      FoldIsOneCall(SplitLines(carried + chunks[0]).1, chunks[1..]);
      SplitLinesContinues(carried + chunks[0], Concat(chunks[1..]));
      assert carried + chunks[0] + Concat(chunks[1..]) == carried + Concat(chunks);
    }
  }

  lemma SplitLinesCons(line: string, tail: string)
    requires Free(line, '\n')
    ensures SplitLines(line + ['\n'] + tail) == (KeptLine(line) + SplitLines(tail).0, SplitLines(tail).1)
  {
    hide Split, KeptLine;
    SplitFirst(line, '\n', tail);
    var p := Split(tail, '\n');
    var all := [line] + p;
    assert all[..|all| - 1] == [line] + p[..|p| - 1];
    assert ([line] + p[..|p| - 1])[1..] == p[..|p| - 1];
  }

  /** Lines written one per line come back as they were. */
  lemma {:induction false} WrittenLinesComeBack(lines: seq<string>)
    requires forall i :: 0 <= i < |lines| ==>
      Free(lines[i], '\n') && Trim(lines[i]) != "" && !EndsWith(lines[i], "\r")
    ensures SplitLines(Written(lines)) == (lines, "")
  {
    hide SplitLines, Trim, EndsWith, StripCr;
    if lines == [] {
      Incomplete("");
    } else {
      WrittenLinesComeBack(lines[1..]);
      SplitLinesCons(lines[0], Written(lines[1..]));
      NoCarriageReturn(lines[0]);
      assert Written(lines) == lines[0] + ['\n'] + Written(lines[1..]);
      assert lines == [lines[0]] + lines[1..];
    }
  }

  lemma NoCarriageReturn(line: string)
    requires !EndsWith(line, "\r")
    ensures StripCr(line) == line
  {
    if line != "" {
      assert line[|line| - 1..] == [line[|line| - 1]];
    }
  }

  function Written(lines: seq<string>): string {
    if lines == [] then "" else lines[0] + "\n" + Written(lines[1..])
  }

  // ── The listener and the transport ────────────────────────────────────────

  /** What a connection comes to once its bytes have arrived: the options it selected and the lines delivered. */
  datatype Reception<O> = Peeking | Handed(options: O, delivered: seq<string>, partial: string)

  /** What the bytes amount to, told from all of them at once. */
  function Reading<O>(parsePreamble: string -> Option<O>, defaults: O, text: string): Reception<O> {
    var nl := IndexOf(text, '\n', 0);
    if nl == |text| then Peeking
    else
      var pre := parsePreamble(StripCr(text[..nl]));
      var (lines, partial) := SplitLines(if pre.Some? then text[nl + 1..] else text);
      Handed(if pre.Some? then pre.value else defaults, lines, partial)
  }

  /** `UnixSocketConnTransport`: the carried partial line and the lines passed on. */
  class ConnTransport {
    var buf: string
    var started: bool
    var delivered: seq<string>
    const initial: string

    constructor (peeked: string)
      ensures buf == "" && !started && delivered == [] && initial == peeked
    {
      buf, started, delivered, initial := "", false, [], peeked;
    }

    method OnChunk(chunk: string)
      modifies this`buf, this`delivered
      ensures (delivered, buf) == (old(delivered) + SplitLines(old(buf) + chunk).0, SplitLines(old(buf) + chunk).1)
    {
      var (lines, rest) := SplitLines(buf + chunk);
      buf := rest;
      for i := 0 to |lines|
        invariant buf == rest && delivered == old(delivered) + lines[..i]
      {
        delivered := delivered + [lines[i]];
      }
      assert lines[..|lines|] == lines;
    }

    /** Deliver what the listener had peeked past, once. */
    method Start()
      requires Free(buf, '\n')
      modifies this
      ensures started
      ensures old(started) ==> buf == old(buf) && delivered == old(delivered)
      ensures !old(started) ==>
        (delivered, buf) == (old(delivered) + SplitLines(old(buf) + initial).0, SplitLines(old(buf) + initial).1)
    {
      if started {
        return;
      }
      started := true;
      if |initial| > 0 {
        OnChunk(initial);
      } else {
        assert buf + initial == buf && delivered + [] == delivered;
        Incomplete(buf);
      }
    }
  }

  /** One accepted connection: peeking until its first newline, and then the transport's. */
  class Connection<O> {
    const parsePreamble: string -> Option<O>
    const defaults: O
    var peeked: string
    var options: O
    var transport: ConnTransport?
    ghost var received: string

    constructor (parse: string -> Option<O>, ordinary: O)
      ensures Valid() && parsePreamble == parse && defaults == ordinary && received == "" && transport == null
    {
      parsePreamble, defaults, options := parse, ordinary, ordinary;
      peeked, transport, received := "", null, "";
    }

    ghost function State(): Reception<O>
      reads this, transport
    {
      if transport == null then Peeking else Handed(options, transport.delivered, transport.buf)
    }

    /** The connection is where its bytes so far put it, however they were cut. */
    ghost predicate Valid()
      reads this, transport
    {
      && State() == Reading(parsePreamble, defaults, received)
      && (transport == null ==> peeked == received && Free(peeked, '\n'))
      && (transport != null ==> !Free(received, '\n'))
    }

    method OnData(chunk: string)
      requires Valid()
      modifies this, transport
      ensures Valid() && received == old(received) + chunk
      ensures transport == old(transport) || fresh(transport)
    {
      hide SplitLines, StripCr;
      received := received + chunk;
      if transport != null {
        ReadingContinues(parsePreamble, defaults, old(received), chunk);
        transport.OnChunk(chunk);
        return;
      }
      peeked := peeked + chunk;
      var nl := IndexOf(peeked, '\n', 0);
      if nl == |peeked| {
        return;
      }
      var firstLine := StripCr(peeked[..nl]);
      var rest := peeked[nl + 1..];
      var pre := parsePreamble(firstLine);
      options := if pre.Some? then pre.value else defaults;
      var t := new ConnTransport(if pre.Some? then rest else peeked);
      t.Start();
      transport := t;
      assert "" + t.initial == t.initial;
    }
  }

  lemma FirstNewlineStays(text: string, chunk: string)
    requires !Free(text, '\n')
    ensures IndexOf(text, '\n', 0) < |text| && IndexOf(text + chunk, '\n', 0) == IndexOf(text, '\n', 0)
  {
    assert forall j :: 0 <= j <= IndexOf(text, '\n', 0) < |text| ==> (text + chunk)[j] == text[j];
  }

  /** Once past the first newline, a further chunk only adds the lines it completes. */
  lemma ReadingContinues<O>(parsePreamble: string -> Option<O>, defaults: O, text: string, chunk: string)
    requires !Free(text, '\n')
    ensures var before, after := Reading(parsePreamble, defaults, text), Reading(parsePreamble, defaults, text + chunk);
      && before.Handed? && after.Handed? && after.options == before.options
      && var (lines, partial) := SplitLines(before.partial + chunk);
         after.delivered == before.delivered + lines && after.partial == partial
  {
    hide SplitLines, StripCr, IndexOf;
    var nl := IndexOf(text, '\n', 0);
    FirstNewlineStays(text, chunk);
    assert (text + chunk)[..nl] == text[..nl] && (text + chunk)[nl + 1..] == text[nl + 1..] + chunk;
    SplitLinesContinues(text, chunk);
    SplitLinesContinues(text[nl + 1..], chunk);
  }

  /** Any two ways of cutting the same bytes give the same options and the same lines in the same order. */
  method ReceiveChunks<O>(parse: string -> Option<O>, ordinary: O, chunks: seq<string>) returns (c: Connection<O>)
    ensures fresh(c) && c.Valid() && c.State() == Reading(parse, ordinary, Concat(chunks))
  {
    c := new Connection(parse, ordinary);
    for i := 0 to |chunks|
      invariant fresh(c) && (c.transport != null ==> fresh(c.transport))
      invariant c.Valid() && c.parsePreamble == parse && c.defaults == ordinary
      invariant c.received == Concat(chunks[..i])
    {
      ConcatAppend(chunks[..i], chunks[i]);
      assert chunks[..i + 1] == chunks[..i] + [chunks[i]];
      c.OnData(chunks[i]);
    }
    assert chunks[..|chunks|] == chunks;
  }
}

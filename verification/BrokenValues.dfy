/**
 * Values with line breaks in them: whatever the guard's reader makes of the lines they are written over, it is not the
 * value. So setting a value reads as judged, where nothing of the old field is left, exactly when the value comes back.
 */
module BrokenValues {
  import opened JsString
  import opened Splitting
  import opened AcceptGuard
  import opened FlowModel
  import opened FlowItems
  import opened BlockModel
  import opened BlockLines
  import opened BlockSound
  import opened BlockWindow
  import opened TopFields
  import opened Assignments
  import opened FieldEdits
  import opened GuardedEdits
  import opened WrittenScalars
  import opened WrittenValues
  import Edit = FrontmatterEdit
  import Lines = FrontmatterFields
  import Back = FrontmatterReadBack

  // ── Line feeds ────────────────────────────────────────────────────────────

  /** No line feed and no carriage return. */
  predicate Calm(s: string) {
    '\n' !in s && '\r' !in s
  }

  predicate CalmLines(lines: seq<string>) {
    forall k :: 0 <= k < |lines| ==> Calm(lines[k])
  }

  function Feeds(s: string): nat {
    if s == "" then 0 else Feeds(s[..|s| - 1]) + if s[|s| - 1] == '\n' then 1 else 0
  }

  lemma {:induction false} FeedsConcat(a: string, b: string)
    ensures Feeds(a + b) == Feeds(a) + Feeds(b)
    decreases |b|
  {
    if b == "" {
      assert a + b == a;
    } else {
      FeedsConcat(a, b[..|b| - 1]);
      assert (a + b)[..|a + b| - 1] == a + b[..|b| - 1];
    }
  }

  lemma {:induction false} NoFeeds(s: string)
    ensures Feeds(s) == 0 <==> '\n' !in s
  {
    if s != "" {
      NoFeeds(s[..|s| - 1]);
      assert s == s[..|s| - 1] + [s[|s| - 1]];
    }
  }

  lemma {:induction false} FeedsOfParts(s: string)
    ensures |Split(s, '\n')| == Feeds(s) + 1
    decreases |s|
  {
    var k := IndexOf(s, '\n', 0);
    if k == |s| {
      NoFeeds(s);
    } else {
      FeedsOfParts(s[k + 1..]);
      NoFeeds(s[..k]);
      FeedsConcat(s[..k], ['\n'] + s[k + 1..]);
      FeedsConcat(['\n'], s[k + 1..]);
      assert s == s[..k] + (['\n'] + s[k + 1..]);
      assert ['\n'][..0] == "";
    }
  }

  lemma {:induction false} FeedsTrimmed(s: string)
    ensures Feeds(Trim(s)) <= Feeds(s)
  {
    StartTrimmed(s);
    EndTrimmed(TrimStart(s));
  }

  lemma {:induction false} StartTrimmed(s: string)
    ensures Feeds(TrimStart(s)) <= Feeds(s)
  {
    if s != "" && IsSpace(s[0]) {
      StartTrimmed(s[1..]);
      FeedsConcat([s[0]], s[1..]);
      assert s == [s[0]] + s[1..];
    }
  }

  lemma {:induction false} EndTrimmed(s: string)
    ensures Feeds(TrimEnd(s)) <= Feeds(s)
  {
    if s != "" && IsSpace(s[|s| - 1]) {
      EndTrimmed(s[..|s| - 1]);
    }
  }

  lemma CalmConcat(a: string, b: string)
    requires Calm(a) && Calm(b)
    ensures Calm(a + b)
  {
  }

  lemma CalmTrim(s: string)
    requires Calm(s)
    ensures Calm(Trim(s))
  {
    TrimKeepsChars(s);
  }

  // ── Scalars ───────────────────────────────────────────────────────────────

  lemma {:induction false} UnescapeChars(s: string)
    ensures forall c :: c in Unescape(s) ==> c in s
  {
    hide IsLineTerminator;
    if s != "" {
      UnescapeChars(s[1..]);
      assert s == [s[0]] + s[1..];
      if |s| > 1 {
        UnescapeChars(s[2..]);
        assert s == [s[0], s[1]] + s[2..];
      }
    }
  }

  lemma {:induction false} UndoubleChars(s: string)
    ensures forall c :: c in UndoubleQuotes(s) ==> c in s
  {
    if s != "" {
      UndoubleChars(s[1..]);
      assert s == [s[0]] + s[1..];
      if |s| > 1 {
        UndoubleChars(s[2..]);
        assert s == [s[0], s[1]] + s[2..];
      }
    }
  }

  lemma CalmUnquoted(s: string)
    requires Calm(s)
    ensures UnquoteIfQuoted(s).Some? ==> Calm(UnquoteIfQuoted(s).value)
  {
    hide Unescape, UndoubleQuotes, TrailingBackslashes;
    if |s| >= 2 {
      UnescapeChars(s[1..|s| - 1]);
      UndoubleChars(s[1..|s| - 1]);
    }
  }

  predicate CalmText(v: Value) {
    v.Str? ==> Calm(v.s)
  }

  predicate CalmItems(items: seq<Value>) {
    forall k :: 0 <= k < |items| ==> CalmText(items[k])
  }

  lemma CalmInterpreted(s: string)
    requires Calm(s)
    ensures CalmText(InterpretScalar(s))
  {
    hide DoubleLimit, DecimalValue, SignedInt, IsDecimal, AllDigits;
  }

  lemma CalmToken(raw: string)
    requires Calm(raw)
    ensures ScalarToken(raw).Some? ==> CalmText(ScalarToken(raw).value)
  {
    hide Trim, UnquoteIfQuoted, InterpretScalar, Calm;
    CalmTrim(raw);
    CalmUnquoted(Trim(raw));
    CalmInterpreted(Trim(raw));
  }

  // ── Flow collections ──────────────────────────────────────────────────────

  lemma CalmFlowValue(s: string, start: nat)
    requires start <= |s| && Calm(s)
    ensures ParseValue(s, start).Ok? ==> CalmText(ParseValue(s, start).value)
  {
    hide InterpretScalar, UnquoteIfQuoted, QuotedEnd, Trim;
    var i := SkipSpace(s, start);
    FlowKinds(s, i);
    if i < |s| && s[i] in {'"', '\''} {
      var end := QuotedEnd(s, s[i], i + 1);
      if end.Some? {
        CalmUnquoted(s[i..end.value]);
      }
    } else if i < |s| {
      var end := ScanTo(s, PLAIN_STOPS, i);
      CalmTrim(s[i..end]);
      CalmInterpreted(Trim(s[i..end]));
    }
  }

  /** Brackets hold lists and mappings. */
  lemma FlowKinds(s: string, i: nat)
    requires i <= |s|
    ensures i < |s| && ParseSeq(s, i).Ok? ==> ParseSeq(s, i).value.List?
    ensures i < |s| && ParseMap(s, i).Ok? ==> ParseMap(s, i).value.Map?
  {
    hide ParseItems, ParseFields;
    if i < |s| {
      var k := SkipSpace(s, i + 1);
      ItemsAreList(s, k, []);
      FirstKeyIs(s, k);
    }
  }

  lemma {:induction false} CalmFlowItems(s: string, start: nat, out: seq<Value>)
    requires start <= |s| && Calm(s) && CalmItems(out)
    ensures var r := ParseItems(s, start, out); r.Ok? ==> r.value.List? && CalmItems(r.value.items)
    decreases |s| - start
  {
    hide ParseValue, AfterItem, Calm, CalmText;
    CalmFlowValue(s, start);
    var r := ParseValue(s, start);
    if r.Ok? && AfterItem(s, r.next, ']').More? {
      CalmFlowItems(s, AfterItem(s, r.next, ']').next, out + [r.value]);
    }
  }

  /** A flow collection is no text, and the texts in a list of it are of one line. */
  lemma CalmFlow(text: string)
    requires text != "" && text[0] in {'[', '{'} && Calm(text)
    ensures ParseFlow(text).Some? ==> !ParseFlow(text).value.Str?
    ensures ParseFlow(text).Some? && ParseFlow(text).value.List? ==> CalmItems(ParseFlow(text).value.items)
  {
    hide ParseItems, ParseFields, ParseQuoted, InterpretScalar, Trim, Calm, CalmText;
    OpenerIsPlain(text);
    var i := SkipSpace(text, 1);
    FlowKinds(text, 0);
    if text[0] == '[' {
      assert ParseValue(text, 0) == ParseSeq(text, 0);
      CalmFlowItems(text, i, []);
    } else {
      assert ParseValue(text, 0) == ParseMap(text, 0);
    }
  }

  // ── Text over several lines ───────────────────────────────────────────────

  lemma CalmSlice(s: string, i: nat, j: nat)
    requires i <= j <= |s| && Calm(s)
    ensures Calm(s[i..j]) && Calm(s[i..])
  {
  }

  lemma {:induction false} CalmGather(lines: seq<string>, i: nat, acc: string, owner: nat, sep: string)
    requires i <= |lines| && CalmLines(lines) && Calm(acc) && Calm(sep)
    ensures var r := Gather(lines, i, acc, owner, sep); r.Got? ==> Calm(r.value) && acc <= r.value
    decreases |lines| - i
  {
    hide Peek, IndentOf, SeqItem, ParseKeyLine, Trim, Calm;
    match Peek(lines, i)
    case Line(at) =>
      if IndentOf(lines[at]).Some? && IndentOf(lines[at]).value > owner {
        var body := lines[at][IndentOf(lines[at]).value..];
        if SeqItem(body).None? && ParseKeyLine(body).NotKey? {
          CalmSlice(lines[at], IndentOf(lines[at]).value, |lines[at]|);
          CalmTrim(body);
          CalmConcat(acc, sep);
          CalmConcat(acc + sep, Trim(body));
          CalmGather(lines, at + 1, acc + sep + Trim(body), owner, sep);
        }
      }
    case _ =>
  }

  lemma OneBlank()
    ensures Calm(" ") && Calm("")
  {
  }

  lemma CalmFinished(lines: seq<string>, i: nat, first: string, owner: nat)
    requires i <= |lines| && CalmLines(lines) && Calm(first)
    ensures FinishScalar(lines, i, first, owner).Got? ==> CalmText(FinishScalar(lines, i, first, owner).value)
  {
    hide Gather, ScalarToken, Calm, CalmText;
    OneBlank();
    CalmGather(lines, i, first, owner, " ");
    var r := Gather(lines, i, first, owner, " ");
    if r.Got? {
      CalmToken(r.value);
    }
  }

  /** A block scalar has no more lines than are read for it. */
  lemma {:induction false} CalmBlock(lines: seq<string>, i: nat, owner: nat, content: Option<nat>, parts: seq<string>)
    requires i <= |lines| && CalmLines(lines) && CalmLines(parts)
    ensures var r := ReadBlock(lines, i, owner, content, parts);
      r.Got? ==> CalmLines(r.value) && |r.value| <= |parts| + (|lines| - i)
    decreases |lines| - i
  {
    hide IndentOf, HasControl, Trim, NonBlank, Calm;
    OneBlank();
    if i < |lines| {
      if Trim(lines[i]) == "" {
        CalmBlock(lines, i + 1, owner, content, parts + [""]);
      } else if IndentOf(lines[i]).Some? && IndentOf(lines[i]).value > owner {
        var ind := IndentOf(lines[i]).value;
        var column := if content.Some? then content.value else ind;
        CalmSlice(lines[i], Min(ind, column), |lines[i]|);
        CalmBlock(lines, i + 1, owner, Some(column), parts + [lines[i][Min(ind, column)..]]);
      }
    }
  }

  lemma {:induction false} CalmJoined(parts: seq<string>, sep: string)
    requires CalmLines(parts) && sep in {" ", "\n"}
    ensures var s := JoinWith(parts, sep);
      '\r' !in s && (parts != [] ==> Feeds(s) <= |parts| - 1) && (parts == [] ==> s == "")
  {
    if |parts| == 1 {
      NoFeeds(parts[0]);
    } else if parts != [] {
      var rest := JoinWith(parts[1..], sep);
      CalmJoined(parts[1..], sep);
      NoFeeds(parts[0]);
      FeedsConcat(parts[0] + sep, rest);
      FeedsConcat(parts[0], sep);
      assert " "[..0] == "" && "\n"[..0] == "";
    }
  }

  // ── What a field can hold ─────────────────────────────────────────────────

  lemma NestedIsNoText(lines: seq<string>, i: nat, child: nat, parent: nat)
    requires i <= |lines|
    ensures ParseNested(lines, i, child, parent).Got? ==> !ParseNested(lines, i, child, parent).value.Str?
  {
    hide Peek, SeqItem, ParseSequence, ParseMapping;
    match Peek(lines, i)
    case Line(at) =>
      SequenceKeeps(lines, at, child, []);
      MappingIsMap(lines, at, child, []);
    case _ =>
  }

  lemma BareIsNoText(lines: seq<string>, i: nat, indent: nat)
    requires i <= |lines|
    ensures ParseBareItem(lines, i, indent).Got? ==> !ParseBareItem(lines, i, indent).value.Str?
  {
    hide Peek, IndentOf, ParseNested;
    match Peek(lines, i)
    case Line(at) =>
      if IndentOf(lines[at]).Some? {
        NestedIsNoText(lines, at, IndentOf(lines[at]).value, indent);
      }
    case _ =>
  }

  lemma CalmItem(lines: seq<string>, at: nat, indent: nat)
    requires at < |lines| && IndentOf(lines[at]) == Some(indent) && SeqItem(lines[at][indent..]).Some?
    requires CalmLines(lines)
    ensures ItemRead(lines, at, indent).Got? ==> CalmText(ItemRead(lines, at, indent).value)
  {
    hide IndentOf, SeqItem, Trim, ParseKeyLine, ParseBareItem, FinishScalar, ParseMapping, ItemColumn, Spaces, Calm;
    var content := Trim(SeqItem(lines[at][indent..]).value);
    assert Calm(content) by {
      CalmSlice(lines[at], indent, |lines[at]|);
      CalmItemText(lines[at][indent..]);
      CalmTrim(SeqItem(lines[at][indent..]).value);
    }
    if content == "" {
      BareIsNoText(lines, at + 1, indent);
    } else {
      CalmFinished(lines, at + 1, content, indent);
      var col := ItemColumn(lines[at], indent);
      MappingIsMap(lines[at := Spaces(col) + content], at, col, []);
    }
  }

  lemma CalmItemText(body: string)
    requires Calm(body)
    ensures SeqItem(body).Some? ==> Calm(SeqItem(body).value)
  {
    hide OneLine;
  }

  lemma {:induction false} CalmSequence(lines: seq<string>, i: nat, indent: nat, out: seq<Value>)
    requires i <= |lines| && CalmLines(lines) && CalmItems(out)
    ensures var r := ParseSequence(lines, i, indent, out); r.Got? ==> r.value.List? && CalmItems(r.value.items)
    decreases |lines| - i
  {
    hide SeqItem, ParseKeyLine, ParseBareItem, ParseMapping, FinishScalar, Trim, IndentOf, ItemColumn, Spaces, ItemRead;
    hide CalmText;
    match Peek(lines, i)
    case Line(at) =>
      if IndentOf(lines[at]) == Some(indent) && SeqItem(lines[at][indent..]).Some? {
        var r := ItemRead(lines, at, indent);
        SequenceStep(lines, i, indent, out);
        CalmItem(lines, at, indent);
        if r.Got? {
          CalmSequence(lines, r.next, indent, out + [r.value]);
        }
      }
    case _ =>
  }

  /** A text of fewer line feeds than lie between `n` lines, or a list of texts of one line. */
  predicate Legible(v: Value, n: nat) {
    match v
    case Str(s) => '\r' !in s && (Feeds(s) == 0 || Feeds(s) + 2 <= n)
    case List(items) => CalmItems(items)
    case _ => true
  }

  lemma CalmIsLegible(v: Value, n: nat)
    requires CalmText(v) && !v.List?
    ensures Legible(v, n)
  {
    if v.Str? {
      NoFeeds(v.s);
    }
  }

  lemma BlockIsLegible(lines: seq<string>, rest: string, keyIndent: nat)
    requires lines != [] && CalmLines(lines) && BlockHeader(rest)
    ensures ParseValueAfterKey(lines, 1, rest, keyIndent).Got? ==>
      Legible(ParseValueAfterKey(lines, 1, rest, keyIndent).value, |lines|)
  {
    hide ReadBlock, JoinWith, Trim, CalmLines;
    var r := ReadBlock(lines, 1, keyIndent, None, []);
    assert CalmLines([]) by { NoLines(); }
    CalmBlock(lines, 1, keyIndent, None, []);
    if r.Got? {
      var sep := if rest[0] == '>' then " " else "\n";
      CalmJoined(r.value, sep);
      FeedsTrimmed(JoinWith(r.value, sep));
      TrimKeepsChars(JoinWith(r.value, sep));
      assert Feeds("") == 0;
    }
  }

  lemma NoLines()
    ensures CalmLines([]) && CalmItems([])
  {
  }

  lemma FlowIsLegible(lines: seq<string>, rest: string, keyIndent: nat)
    requires lines != [] && CalmLines(lines) && Calm(rest) && rest != "" && rest[0] in {'[', '{'} && !BlockHeader(rest)
    ensures ParseValueAfterKey(lines, 1, rest, keyIndent).Got? ==>
      Legible(ParseValueAfterKey(lines, 1, rest, keyIndent).value, |lines|)
  {
    hide Gather, ParseFlow, CalmItems, CalmLines, Calm;
    OneBlank();
    CalmGather(lines, 1, rest, keyIndent, "");
    var r := Gather(lines, 1, rest, keyIndent, "");
    if r.Got? {
      assert r.value[0] == rest[0];
      CalmFlow(r.value);
    }
  }

  lemma NestedIsLegible(lines: seq<string>, keyIndent: nat)
    requires lines != [] && CalmLines(lines)
    ensures ParseValueAfterKey(lines, 1, "", keyIndent).Got? ==>
      Legible(ParseValueAfterKey(lines, 1, "", keyIndent).value, |lines|)
  {
    hide Peek, IndentOf, SeqItem, ParseSequence, ParseMapping, CalmItems, CalmLines;
    NoLines();
    match Peek(lines, 1)
    case Line(at) =>
      if IndentOf(lines[at]).Some? {
        var ind := IndentOf(lines[at]).value;
        CalmSequence(lines, at, ind, []);
        MappingIsMap(lines, at, ind, []);
      }
    case _ =>
  }

  /** Whatever the field of these lines holds is legible. */
  lemma FieldIsLegible(chunk: seq<string>)
    requires chunk != [] && CalmLines(chunk) && ReadField(chunk).Some?
    ensures Legible(ReadField(chunk).value.1, |chunk|)
  {
    hide ParseKeyLine, ParseValueAfterKey, BlockHeader, CalmText, Legible, Peek, Calm;
    var rest := ParseKeyLine(chunk[0]).rest;
    CalmKeyLine(chunk[0]);
    if rest == "" {
      NestedIsLegible(chunk, 0);
    } else if BlockHeader(rest) {
      BlockIsLegible(chunk, rest, 0);
    } else if rest[0] in {'[', '{'} {
      FlowIsLegible(chunk, rest, 0);
    } else {
      ScalarIsLegible(chunk, rest);
    }
  }

  lemma ScalarIsLegible(lines: seq<string>, rest: string)
    requires lines != [] && CalmLines(lines) && Calm(rest) && rest != "" && rest[0] !in {'[', '{'} && !BlockHeader(rest)
    ensures ParseValueAfterKey(lines, 1, rest, 0).Got? ==> Legible(ParseValueAfterKey(lines, 1, rest, 0).value, |lines|)
  {
    hide FinishScalar, CalmText, Legible, Calm, CalmLines;
    CalmFinished(lines, 1, rest, 0);
    var r := FinishScalar(lines, 1, rest, 0);
    if r.Got? {
      FinishedIsNoList(lines, 1, rest, 0);
      CalmIsLegible(r.value, |lines|);
    }
  }

  lemma FinishedIsNoList(lines: seq<string>, i: nat, first: string, owner: nat)
    requires i <= |lines|
    ensures FinishScalar(lines, i, first, owner).Got? ==> !FinishScalar(lines, i, first, owner).value.List?
  {
    hide Gather, Trim, UnquoteIfQuoted, DoubleLimit, DecimalValue, SignedInt, IsDecimal, AllDigits;
  }

  lemma CalmKeyLine(line: string)
    requires Calm(line)
    ensures ParseKeyLine(line).Key? ==> Calm(ParseKeyLine(line).rest)
  {
    hide Trim, ParseQuoted, OneLine;
    match ParseKeyLine(line)
    case Key(key, rest) =>
      forall s | Calm(s)
        ensures Calm(Trim(s))
      {
        CalmTrim(s);
      }
    case _ =>
  }

  lemma LegibleInMore(v: Value, n: nat, m: nat)
    requires Legible(v, n) && n <= m
    ensures Legible(v, m)
  {
  }

  /** So is whatever any field of a block holds. */
  lemma {:induction false} FieldsAreLegible(lines: seq<string>)
    requires CalmLines(lines) && FieldsFrom(lines).Some?
    ensures forall f :: f in FieldsFrom(lines).value ==> Legible(f.1, |lines|)
  {
    hide ReadField, TopLine, Legible, Calm;
    if lines != [] {
      var e := NextTop(lines, 1);
      FieldIsLegible(lines[..e]);
      FieldsAreLegible(lines[e..]);
      forall f | f in FieldsFrom(lines).value
        ensures Legible(f.1, |lines|)
      {
        if f == ReadField(lines[..e]).value {
          LegibleInMore(f.1, e, |lines|);
        } else {
          assert f in FieldsFrom(lines[e..]).value;
          LegibleInMore(f.1, |lines| - e, |lines|);
        }
      }
    }
  }

  // ── A broken value is none of it ──────────────────────────────────────────

  lemma {:induction false} FeedsEscaped(s: string)
    ensures Feeds(Edit.EscapeQuotes(s)) == Feeds(s)
    decreases |s|
  {
    hide Edit.EscapeQuotes;
    if s == "" {
      EmptyEscapes();
    } else {
      EscapeSplits(s);
      FeedsEscaped(s[1..]);
      FeedsConcat(EscapedChar(s[0]), Edit.EscapeQuotes(s[1..]));
      FeedsConcat([s[0]], s[1..]);
      assert s == [s[0]] + s[1..];
      FeedsOfChar(s[0]);
    }
  }

  lemma FeedsOfChar(c: char)
    ensures Feeds(EscapedChar(c)) == Feeds([c])
  {
    NoFeeds(EscapedChar(c));
    NoFeeds([c]);
    if c == '\n' {
      assert EscapedChar(c) == [c];
    }
  }

  /** A text is written over as many line feeds as it holds. */
  lemma FeedsWritten(key: string, s: string)
    requires Lines.PlainKey(key)
    ensures Feeds(Edit.SerializeKey(key, Edit.One(Edit.Text(s)))) == Feeds(s)
  {
    hide Edit.EscapeQuotes, Edit.NeedsQuoting, Lines.PlainKey;
    var v := Edit.Text(s);
    var written := Edit.SerializeScalar(v);
    FeedsConcat(key + ": ", written);
    KeyHasNoFeeds(key);
    FeedsEscaped(s);
    FeedsConcat("\"", Edit.EscapeQuotes(s));
    FeedsConcat("\"" + Edit.EscapeQuotes(s), "\"");
    NoFeeds("\"");
  }

  lemma KeyHasNoFeeds(key: string)
    requires Lines.PlainKey(key)
    ensures Feeds(key + ": ") == 0 && '\r' !in key + ": "
  {
    assert forall i :: 0 <= i < |key| ==> Edit.IsWord(key[i]);
    NoFeeds(key + ": ");
  }

  lemma ProperIsCalm(v: Edit.Scalar)
    requires Proper(v) && !v.Text?
    ensures Calm(Edit.Shown(v)) && Calm(Edit.SerializeScalar(v))
  {
    if v.Number? {
      NumberChars(v.shown);
    }
  }

  lemma BrokenIsIllegible(number: string -> real, key: string, value: Edit.EditValue)
    requires Lines.PlainKey(key) && AllProper(value) && !Unbroken(value)
    ensures !Legible(JudgedValue(number, value), |WrittenLines(key, value)|) && !ValueComesBack(number, value)
  {
    hide Edit.SerializeKey, Lines.PlainKey, Split, Proper, KeptItem, HasControl, Kept;
    var k :| 0 <= k < |Parts(value)| && !Free(Edit.Shown(Parts(value)[k]), '\n');
    var v := Parts(value)[k];
    var i :| 0 <= i < |Edit.Shown(v)| && Edit.Shown(v)[i] == '\n';
    assert v.Text? by {
      if !v.Text? {
        ProperIsCalm(v);
      }
    }
    match value
    case One(_) =>
      FeedsOfParts(Edit.SerializeKey(key, value));
      FeedsWritten(key, v.s);
      NoFeeds(v.s);
    case Many(items) => assert JudgedItems(number, items)[k] == Str(v.s);
  }

  // ── The whole edit ────────────────────────────────────────────────────────

  /**
   * In a block read line by line, the editor finds the key's lines, or finds that there are none, leaves below them
   * only what continues nothing, and no field below names the key again.
   */
  predicate NothingLeft(lines: seq<string>, key: string) {
    var G := Stripped(lines);
    && BlockRoot(G)
    && match Edit.FindKeyRange(lines, key, 0)
       case Found(start, end) => Quiet(Leftover(G, end)) && !NamesKey(Below(G, end), key)
       case Missing => true
       case Refused => false
  }

  /** Fields are read alike over lines that continue nothing. */
  lemma QuietFrom(written: seq<string>, rest: seq<string>)
    requires written != [] && TopLine(written[0]) && Quiet(rest) && NoTop(rest)
    ensures FieldsFrom(written + rest) == FieldsFrom(written)
  {
    hide TopLine, ReadField, FieldsFrom, Quiet, Peek, ClosesAt;
    var s := LastTop(written).value;
    var front, chunk := written[..s], written[s..];
    QuietCloses(chunk, rest);
    QuietBelow(chunk, rest);
    assert written + rest == front + (chunk + rest) && written == front + chunk;
    FieldsAppend(front, chunk + rest);
    FieldsAppend(front, chunk);
    assert (chunk + rest)[1..] == chunk[1..] + rest;
    OneField(chunk + rest);
    OneField(chunk);
  }

  lemma NothingLeftSets(lines: seq<string>, key: string, value: Edit.EditValue, v: Value, before: Fields)
    requires lines != [] && NothingLeft(lines, key)
    ensures exists below ::
      && !NamesKey(below, key)
      && (SetsCleanly(lines, key, value, v, before)
          <==> BeginsField(WrittenLines(key, value), key)
               && ReadsAsSet(FieldsFrom(WrittenLines(key, value)), key, v, before, below))
  {
    hide ReadField, TopLine, KeyOf, NamesKey, Quiet, WrittenLines, Edit.FindKeyRange, ReadsAsSet, FieldsFrom, BlockRoot;
    hide RootReadsAs;
    var W, G, r := WrittenLines(key, value), Stripped(lines), Edit.FindKeyRange(lines, key, 0);
    if r.Found? {
      var below := Below(G, r.end);
      if BeginsField(W, key) {
        QuietFrom(W, Leftover(G, r.end));
      }
      assert !NamesKey(below, key);
    } else {
      NothingNamed(key);
      assert !NamesKey([], key);
    }
  }

  /** One field that reads as the value, or as none. */
  lemma OneFieldTakes(W: seq<string>, key: string, v: Value, before: Fields, below: seq<string>)
    requires BeginsField(W, key) && NoTop(W[1..]) && !NamesKey(below, key)
    ensures ReadsAsSet(FieldsFrom(W), key, v, before, below) <==> ReadField(W) == Some((key, v))
  {
    hide TopLine, ReadField, FieldsFrom, KeyOf, NamesKey, PutField, ValueOf;
    OneField(W);
    if ReadField(W).Some? {
      FieldKey(W);
      PutValue(before, key, v, key);
      LastOne([], ReadField(W).value);
      assert [] + [ReadField(W).value] == [ReadField(W).value];
    }
  }

  /** The key's last value among the fields read is the one judged. */
  lemma TakenIsIn(fields: Fields, key: string, v: Value, before: Fields, below: seq<string>)
    requires Named(fields, key) && !NamesKey(below, key) && ReadsAsSet(Some(fields), key, v, before, below)
    ensures (key, v) in fields
  {
    hide NamesKey, PutField, ValueOf, LastOf, Named;
    var i := PlaceOf(fields, key);
    PutValue(before, key, v, key);
    LastOfIsIn(fields, key);
    assert LastOf(fields, fields[i].0) == ValueOf(PutField(before, key, v), fields[i].0);
  }

  lemma CleanIsCalm(lines: seq<string>)
    requires forall k :: 0 <= k < |lines| ==> Free(lines[k], '\n') && !HasControl(lines[k])
    ensures CalmLines(lines)
  {
  }

  /** No field read of these lines holds a value too broken for them. */
  lemma BrokenIsNoField(W: seq<string>, key: string, v: Value)
    requires BeginsField(W, key) && FieldsFrom(W).Some? && !Legible(v, |W|)
    requires forall k :: 0 <= k < |W| ==> Free(W[k], '\n')
    ensures (key, v) !in FieldsFrom(W).value
  {
    hide TopLine, FieldsFrom, KeyOf, Legible, HasControl, Free, Calm;
    FieldsAreClean(W);
    CleanIsCalm(W);
    FieldsAreLegible(W);
  }

  lemma BrokenIsNotRead(W: seq<string>, key: string, v: Value, before: Fields, below: seq<string>)
    requires BeginsField(W, key) && !NamesKey(below, key) && !Legible(v, |W|)
    requires forall k :: 0 <= k < |W| ==> Free(W[k], '\n')
    ensures !ReadsAsSet(FieldsFrom(W), key, v, before, below)
  {
    hide TopLine, FieldsFrom, KeyOf, NamesKey, Legible, Free, Takes, Named;
    if ReadsAsSet(FieldsFrom(W), key, v, before, below) {
      FirstIsNamed(W, key);
      TakenIsIn(FieldsFrom(W).value, key, v, before, below);
      BrokenIsNoField(W, key, v);
    }
  }

  lemma WrittenIsFree(key: string, value: Edit.EditValue)
    ensures forall k :: 0 <= k < |WrittenLines(key, value)| ==> Free(WrittenLines(key, value)[k], '\n')
  {
    hide Edit.SerializeKey, Split;
    SplitIsFree(Edit.SerializeKey(key, value), '\n');
  }

  /**
   * With no line below that names the key, the lines written are the field judged exactly when the value comes back.
   */
  lemma WrittenReadsIff(number: string -> real, key: string, value: Edit.EditValue, before: Fields, below: seq<string>)
    requires Lines.PlainKey(key) && AllProper(value) && !NamesKey(below, key)
    ensures var W := WrittenLines(key, value);
      BeginsField(W, key) && ReadsAsSet(FieldsFrom(W), key, JudgedValue(number, value), before, below)
      <==> ValueComesBack(number, value)
  {
    hide Lines.PlainKey, WrittenLines, ReadField, FieldsFrom, PutField, ReadsAsSet, NamesKey, JudgedValue, Legible;
    hide ValueComesBack, Unbroken, AllProper, TopLine, KeyOf, NoTop;
    var v, W := JudgedValue(number, value), WrittenLines(key, value);
    if Unbroken(value) {
      ReadsBackIff(number, key, value);
      if BeginsField(W, key) {
        OneFieldTakes(W, key, v, before, below);
      }
    } else {
      BrokenIsIllegible(number, key, value);
      WrittenIsFree(key, value);
      if BeginsField(W, key) {
        BrokenIsNotRead(W, key, v, before, below);
      }
    }
  }

  /**
   * Where nothing is left, the guard reads of the edited lines what it was asked about exactly when the value comes
   * back.
   */
  lemma SetValueReadsAsJudgedIff(number: string -> real, lines: seq<string>, key: string, value: Edit.EditValue,
                                 before: Fields)
    requires lines != [] && ParseFrontmatter(Stripped(lines)) == Some(Map(before))
    requires Lines.PlainKey(key) && AllProper(value) && NothingLeft(lines, key)
    ensures var after := Edit.SetLines(lines, key, value);
      && after.Some?
      && (ReadsAs(Stripped(after.value), PutField(before, key, JudgedValue(number, value)))
          <==> ValueComesBack(number, value))
  {
    hide ParseFrontmatter, BlockRoot, Lines.PlainKey, SetsCleanly, WrittenLines, FieldsFrom, PutField, ReadsAs;
    hide ReadsAsSet;
    hide Edit.FindKeyRange, Leftover, Below, Quiet, NamesKey, JudgedValue, ValueComesBack, AllProper, TopLine, KeyOf;
    hide Stripped;
    var v, W := JudgedValue(number, value), WrittenLines(key, value);
    SetReadsAsJudgedIff(lines, key, value, v, before);
    NothingLeftSets(lines, key, value, v, before);
    var below :| !NamesKey(below, key)
      && (SetsCleanly(lines, key, value, v, before)
          <==> BeginsField(W, key) && ReadsAsSet(FieldsFrom(W), key, v, before, below));
    WrittenReadsIff(number, key, value, before, below);
  }
}

/**
 * Blocks the guard reads, and edits of them it lets through, where the lines the editor leaves behind come to mean
 * something else: for the editor, which finds other lines for another key, and for the guard, which reads another
 * object than the one it was asked about.
 */
module EditExamples {
  import opened JsString
  import opened Splitting
  import opened AcceptGuard
  import opened AcceptTransition
  import opened FlowModel
  import opened FlowRoundTrip
  import opened FlowItems
  import opened FlowVerdict
  import opened BlockRoundTrip
  import opened BlockModel
  import opened BlockLines
  import opened BlockSound
  import opened BlockWindow
  import opened TopFields
  import opened Assignments
  import opened FieldEdits
  import opened GuardedEdits
  import opened WrittenScalars
  import opened WrittenValues
  import opened GuardedTexts
  import opened GuardedWrites
  import opened Fence
  import Edit = FrontmatterEdit
  import Lines = FrontmatterFields
  import Back = FrontmatterReadBack

  // ── Lines, fields and blocks ──────────────────────────────────────────────

  predicate Text(s: string) {
    s != "" && !IsSpace(s[0]) && !IsSpace(s[|s| - 1]) && OneLine(s) && !HasControl(s)
  }

  lemma KeyLineIs(line: string, key: string, rest: string)
    requires Lines.PlainKey(key) && Text(rest) && line == key + ": " + rest
    ensures ParseKeyLine(line) == Key(key, rest) && Edit.ParseKey(line) == Some(Edit.KeyLine(key, rest))
    ensures TopLine(line)
  {
    hide OneLine, Trim, HasControl, TopLine, SkipBlanks, Edit.WordEnd, IsLineTerminator, ParseKeyLine;
    assert line == key + ":" + (" " + rest) && line[..|key|] == key && line[|key| + 1..] == " " + rest;
    WrittenKeyLine(key, rest);
    SpacedText(rest);
    Colon(line, key);
    KeyIsClean(key);
    assert !HasControl(line) by { LineIsClean(key + ":", rest); }
    PlainIsTop(line, key);
  }

  lemma SpacedText(rest: string)
    requires Text(rest)
    ensures Trim(" " + rest) == rest && forall i :: 0 <= i < |rest| ==> !IsLineTerminator(rest[i])
  {
    assert (" " + rest)[1..] == rest;
    assert TrimStart(" " + rest) == rest;
  }

  lemma LineIsClean(front: string, rest: string)
    requires !HasControl(front) && !HasControl(rest)
    ensures !HasControl(front + (" " + rest))
  {
    var line := front + (" " + rest);
    forall i | 0 <= i < |line|
      ensures !IsControl(line[i])
    {
      if i < |front| {
        assert line[i] == front[i];
      } else if i > |front| {
        assert line[i] == rest[i - |front| - 1];
      }
    }
  }

  lemma BareKey(line: string, key: string)
    requires Lines.PlainKey(key) && line == key + ":"
    ensures ParseKeyLine(line) == Key(key, "") && Edit.ParseKey(line) == Some(Edit.KeyLine(key, "")) && TopLine(line)
  {
    hide Trim, HasControl, TopLine, Edit.WordEnd, ParseKeyLine;
    assert line[..|key|] == key && line[|key| + 1..] == "";
    NothingTrimmed();
    Colon(line, key);
    BareKeyLine(key);
  }

  /** Where a plain key ends, for the editor. */
  lemma Colon(line: string, key: string)
    requires Lines.PlainKey(key) && key + ":" <= line
    ensures key != "" && Edit.WordEnd(line, 0) == |key| && line[0] == key[0] && line[|key|] == ':' && !IsSpace(key[0])
    ensures Edit.IsWordStart(key[0])
  {
    assert forall i :: 0 <= i < |key| ==> line[i] == (key + ":")[i] == key[i];
    assert line[|key|] == (key + ":")[|key|];
    Lines.WordEndAt(line, 0, |key|);
  }

  /** A line that only continues the value above it. */
  predicate Continuation(line: string, ind: nat) {
    && 0 < ind < |line| && IndentOf(line) == Some(ind) && Significant(line)
    && SeqItem(line[ind..]).None? && ParseKeyLine(line[ind..]) == NotKey
  }

  lemma PeekLast(lines: seq<string>)
    requires lines != [] && Significant(lines[|lines| - 1])
    ensures Peek(lines, |lines| - 1) == Line(|lines| - 1) && Peek(lines, |lines|) == End
  {
  }

  lemma ContinuedValue(line: string, key: string, rest: string, more: string, ind: nat)
    requires ParseKeyLine(line) == Key(key, rest) && rest != "" && !BlockHeader(rest) && rest[0] !in {'[', '{'}
    requires Continuation(more, ind)
    ensures ReadField([line, more])
         == match ScalarToken(rest + " " + Trim(more[ind..])) { case None => None case Some(v) => Some((key, v)) }
  {
    hide ParseKeyLine, BlockHeader, ScalarToken, Trim, HasControl, SeqItem, IndentOf, Peek;
    var lines := [line, more];
    PeekLast(lines);
    assert Gather(lines, 2, rest + " " + Trim(more[ind..]), 0, " ") == Got(rest + " " + Trim(more[ind..]), 2);
    assert Gather(lines, 1, rest, 0, " ") == Got(rest + " " + Trim(more[ind..]), 2);
  }

  /** One field as a document. */
  lemma OneFieldReads(W: seq<string>, key: string, v: Value)
    requires WritesField(W, key) && Lines.PlainKey(key) && key + ":" <= W[0] && ReadField(W) == Some((key, v))
    ensures ParseFrontmatter(W) == Some(Map([(key, v)]))
  {
    hide ReadField, TopLine, KeyOf, Lines.PlainKey, ParseFrontmatter, BlockRoot, FieldsOf, FieldsFrom;
    var none: seq<string> := [];
    assert none + none == none && none + W == W && none + W + none == W;
    NothingIsBlock();
    StillBlockRoot(none, W, none, none, key);
    DocumentIsItsFields(W);
    BlockAppend(none, W);
    OneField(W);
    assert [] + [(key, v)] == [(key, v)];
    OneAssignment([], (key, v));
  }

  /** Two fields as a document. */
  lemma TwoFields(x: seq<string>, y: seq<string>, f: (string, Value), g: (string, Value))
    requires WritesField(x, f.0) && Lines.PlainKey(f.0) && f.0 + ":" <= x[0] && ReadField(x) == Some(f)
    requires WritesField(y, g.0) && ReadField(y) == Some(g) && f.0 != g.0
    ensures BlockRoot(x + y) && ParseFrontmatter(x + y) == Some(Map([f, g]))
  {
    hide ReadField, TopLine, KeyOf, Lines.PlainKey, ParseFrontmatter, BlockRoot, FieldsOf, FieldsFrom;
    var none: seq<string> := [];
    assert none + none == none && none + x == x && none + x + y == x + y;
    NothingIsBlock();
    StillBlockRoot(none, x, y, none, f.0);
    DocumentIsItsFields(x + y);
    BlockAppend(x, y);
    BlockAppend(none, x);
    OneField(x);
    OneField(y);
    assert [] + [f] == [f] && [f] + [g] == [f, g];
    TwoAssignments(f, g);
  }

  lemma TwoAssignments(f: (string, Value), g: (string, Value))
    requires f.0 != g.0
    ensures PutAll([], [f, g]) == [f, g]
  {
    assert [f, g][1..] == [g] && [f, g][0] == f && [g][0] == g;
    assert PutField([], f.0, f.1) == [f];
    assert PutField([f], g.0, g.1) == [f, g] by { assert [f][1..] == [] && [f] + [g] == [f, g]; }
    assert PutAll([f], [g]) == PutAll([f, g], []) by { assert [g][1..] == []; }
  }

  // ── Texts ─────────────────────────────────────────────────────────────────

  predicate Word(s: string) {
    Text(s) && 'a' <= s[0] <= 'z' && s !in {"null", "true", "false"}
  }

  lemma WordIsText(s: string)
    requires Word(s)
    ensures ScalarToken(s) == Some(Str(s)) && !BlockHeader(s)
  {
    hide DoubleLimit, DecimalValue, SignedInt, OneLine, HasControl;
    assert Trim(s) == s && Unsigned(s) == s;
    assert !IsDecimal(s) by {
      var dot := IndexOf(s, '.', 0);
      assert dot > 0 ==> s[..dot][0] == s[0];
    }
  }

  /** White space other than spaces and tabs in front of a dash: no item for the guard, an item for the editor. */
  lemma StrayItem()
    ensures var item := " \U{00A0}- x"; Continuation(item, 1) && Trim(item[1..]) == "- x" && Edit.IsListItem(item)
  {
    var item, body := " \U{00A0}- x", "\U{00A0}- x";
    assert item[1..] == body && body[1..] == "- x" && item[0] == ' ' && item[1] == '\U{00A0}';
    assert IndentOf(body) == Some(0);
    assert TrimStart(body) == "- x";
    assert TrimStart(item) == TrimStart(body);
    assert !HasControl(item);
    assert Edit.Blanks(item, 2) == 2;
  }

  lemma IndentedWord(word: string)
    requires Word(word) && forall i :: 0 <= i < |word| ==> word[i] != ':'
    ensures Continuation("  " + word, 2) && Trim(("  " + word)[2..]) == word && !Edit.IsListItem("  " + word)
    ensures Edit.IsIndented("  " + word)
  {
    hide HasControl, OneLine;
    var line := "  " + word;
    assert line[2..] == word && line[1..] == " " + word && line[1..][1..] == word;
    assert TrimStart(word) == word && TrimStart(" " + word) == word;
    assert IndentOf(word) == Some(0) && IndentOf(" " + word) == Some(1);
    assert Edit.Blanks(line, 2) == 2 && Edit.Blanks(line, 1) == 2;
    assert !HasControl(line) by { SpacesAreClean(word); }
  }

  lemma SpacesAreClean(word: string)
    requires !HasControl(word)
    ensures !HasControl("  " + word)
  {
    var line := "  " + word;
    assert forall i :: 2 <= i < |line| ==> line[i] == word[i - 2];
  }

  /** `key: first` with a line that continues it: one field holding both words. */
  lemma ContinuedWord(key: string, first: string, more: string, second: string, ind: nat)
    requires Lines.PlainKey(key) && Word(first) && Continuation(more, ind) && Trim(more[ind..]) == second
    requires Word(first + " " + second)
    ensures var line := key + ": " + first;
      WritesField([line, more], key) && ReadField([line, more]) == Some((key, Str(first + " " + second)))
  {
    hide Lines.PlainKey, TopLine, ScalarToken, ReadField, Continuation, BlockHeader, ParseKeyLine, Trim, OneLine;
    hide HasControl;
    var line := key + ": " + first;
    KeyLineIs(line, key, first);
    WordIsText(first);
    WordIsText(first + " " + second);
    ContinuedValue(line, key, first, more, ind);
    ContinuationIsNoTop(more, ind);
    assert [line, more][1..] == [more];
  }

  lemma ContinuationIsNoTop(more: string, ind: nat)
    requires Continuation(more, ind)
    ensures !TopLine(more)
  {
  }

  // ── What the editor then finds for another key ────────────────────────────

  /**
   * A line under the deleted key that the guard reads into its value is an item to the editor: it passes to the list
   * above.
   */
  lemma DeleteCanHandOverAnItem()
    ensures var lines, after := ["a:", "b: c", " \U{00A0}- x"], ["a:", " \U{00A0}- x"];
      && ParseFrontmatter(lines) == Some(Map([("a", Null), ("b", Str("c - x"))]))
      && Edit.DeleteLines(lines, "b") == Some(after)
      && Lines.FieldOf(lines, "a") == Lines.Lines(["a:"]) && Lines.FieldOf(after, "a") == Lines.Lines(after)
  {
    hide ReadField, TopLine, ParseFrontmatter, Lines.PlainKey, Continuation, ParseKeyLine, Edit.ParseKey;
    hide Edit.IsListItem, Edit.IsIndented, Word;
    var item := " \U{00A0}- x";
    var lines, after := ["a:", "b: c", item], ["a:", item];
    ShortWords();
    StrayItem();
    assert "c" + " " + "- x" == "c - x" && "b" + ": " + "c" == "b: c" && "a" + ":" == "a:";
    BareKey("a:", "a");
    ReadsOnItsLine("a:", "a", "");
    ContinuedWord("b", "c", item, "- x", 1);
    assert ["a:"] + ["b: c", item] == lines && ["a:"][1..] == [];
    TwoFields(["a:"], ["b: c", item], ("a", Null), ("b", Str("c - x")));
    KeyLineIs("b: c", "b", "c");
    NoItemKey("b: c", "b");
    assert lines[..1] + lines[2..] == after && lines[0..1] == ["a:"] && after[0..2] == after;
    assert Edit.ItemsEnd(after, 1) == 2;
  }

  lemma ShortWords()
    ensures Lines.PlainKey("a") && Lines.PlainKey("b") && Word("c") && Word("c - x") && Text("c")
  {
  }

  lemma NoItemKey(line: string, key: string)
    requires Lines.PlainKey(key) && key + ":" <= line
    ensures !Edit.IsListItem(line) && !Edit.IsIndented(line)
  {
    Colon(line, key);
  }

  lemma OneItemWritten()
    ensures Back.Written("b", Edit.Many([Edit.Text("y")])) == ["b:", "  - y"]
  {
    hide Split;
    var items := [Edit.Text("y")];
    assert Edit.SerializeScalar(Edit.Text("y")) == "y" && "  - " + "y" == "  - y" && items[1..] == [];
    assert Edit.ItemLines(items) == ["  - y"];
    assert Edit.SerializeKey("b", Edit.Many(items)) == "b:" + ['\n'] + "  - y";
    SplitFirst("b:", '\n', "  - y");
    SplitWhole("  - y", '\n');
  }

  /** A list written over such a key takes the line up. */
  lemma SetCanTakeUpAnItem()
    ensures var lines, after := ["b: c", " \U{00A0}- x"], ["b:", "  - y", " \U{00A0}- x"];
      && ParseFrontmatter(lines) == Some(Map([("b", Str("c - x"))]))
      && Edit.SetLines(lines, "b", Edit.Many([Edit.Text("y")])) == Some(after)
      && Lines.FieldOf(after, "b") == Lines.Lines(after)
  {
    hide ReadField, TopLine, ParseFrontmatter, Lines.PlainKey, Continuation, ParseKeyLine, Edit.ParseKey;
    hide Edit.IsListItem, Edit.IsIndented, Word;
    hide Split, Edit.SerializeKey, KeyOf;
    var item := " \U{00A0}- x";
    var lines, after := ["b: c", item], ["b:", "  - y", item];
    ShortWords();
    StrayItem();
    assert "c" + " " + "- x" == "c - x" && "b" + ": " + "c" == "b: c" && "b" + ":" == "b:";
    ContinuedWord("b", "c", item, "- x", 1);
    OneFieldReads(lines, "b", Str("c - x"));
    KeyLineIs("b: c", "b", "c");
    BareKey("b:", "b");
    OneItemWritten();
    Back.DashIsItem("  - y");
    assert lines[..0] + ["b:", "  - y"] + lines[1..] == after && after[0..3] == after;
    assert Edit.ItemsEnd(after, 1) == 3;
  }

  // ── What the guard then reads ─────────────────────────────────────────────

  /**
   * The rest of a value that the editor does not see stays below the new one, though the editor finds the field as set.
   */
  lemma SetCanKeepATail()
    ensures var lines, after := ["b: x", "  y"], ["b: z", "  y"];
      && ParseFrontmatter(lines) == Some(Map([("b", Str("x y"))]))
      && Edit.SetLines(lines, "b", Edit.One(Edit.Text("z"))) == Some(after)
      && Lines.FieldOf(after, "b") == Lines.Lines(["b: z"])
      && ParseFrontmatter(after) == Some(Map([("b", Str("z y"))]))
  {
    hide ReadField, TopLine, ParseFrontmatter, Lines.PlainKey, Continuation, ParseKeyLine, Edit.ParseKey;
    hide Edit.IsListItem, Edit.IsIndented, Word;
    hide Split, Edit.SerializeKey, KeyOf;
    var lines, after := ["b: x", "  y"], ["b: z", "  y"];
    TailWords();
    IndentedWord("y");
    assert "x" + " " + "y" == "x y" && "z" + " " + "y" == "z y" && "b" + ": " + "x" == "b: x";
    assert "b" + ": " + "z" == "b: z";
    ContinuedWord("b", "x", "  y", "y", 2);
    ContinuedWord("b", "z", "  y", "y", 2);
    OneFieldReads(lines, "b", Str("x y"));
    OneFieldReads(after, "b", Str("z y"));
    KeyLineIs("b: x", "b", "x");
    KeyLineIs("b: z", "b", "z");
    OneWordWritten();
    assert lines[..0] + ["b: z"] + lines[1..] == after && after[0..1] == ["b: z"];
  }

  lemma TailWords()
    ensures Lines.PlainKey("b") && Word("x") && Word("y") && Word("z") && Word("x y") && Word("z y") && Text("x")
    ensures Text("z")
    ensures "  " + "y" == "  y"
  {
  }

  lemma OneWordWritten()
    ensures Back.Written("b", Edit.One(Edit.Text("z"))) == ["b: z"]
  {
    hide Split;
    assert Edit.SerializeScalar(Edit.Text("z")) == "z" && Edit.SerializeKey("b", Edit.One(Edit.Text("z"))) == "b: z";
    SplitWhole("b: z", '\n');
  }

  /** Below a deleted field, what continued its value can be a flow collection: it is then the whole document. */
  lemma DeleteCanLeaveARoot(fields: Fields)
    requires fields != [] && BlockPrintable(Map(fields)) && Print(Map(fields)) != ""
    requires !ColonEndsKey(Print(Map(fields)))
    ensures var text := Print(Map(fields));
      && ParseFrontmatter(["a: x", "  " + text]) == Some(Map([("a", Str("x " + text))]))
      && Edit.DeleteLines(["a: x", "  " + text], "a") == Some(["  " + text])
      && ParseFrontmatter(["  " + text]) == Some(Map(fields))
  {
    hide ReadField, TopLine, ParseFrontmatter, Lines.PlainKey, Continuation, ParseKeyLine, Edit.ParseKey;
    hide Edit.IsListItem, Edit.IsIndented, Word;
    hide Print, KeyOf, BlockPrintable, ColonEndsKey;
    var text := Print(Map(fields));
    var lines := ["a: x", "  " + text];
    PrintIsClean(Map(fields));
    RootLine(fields, text);
    PrintedWord(text);
    assert "x" + " " + text == "x " + text && "a" + ": " + "x" == "a: x";
    assert Lines.PlainKey("a") && Word("x") && Text("x") by { TailWords(); ShortWords(); }
    ContinuedWord("a", "x", "  " + text, text, 2);
    OneFieldReads(lines, "a", Str("x " + text));
    KeyLineIs("a: x", "a", "x");
    assert lines[..0] + lines[1..] == ["  " + text];
    PrintedRoot(fields, text);
  }

  lemma RootLine(fields: Fields, text: string)
    requires text == Print(Map(fields)) && CleanText(text) && text != "" && !ColonEndsKey(text)
    ensures Continuation("  " + text, 2) && Trim(("  " + text)[2..]) == text && IndentOf("  " + text) == Some(2)
    ensures !IsSpace(text[0]) && !IsSpace(text[|text| - 1]) && text[0] == '{' && !HasControl("  " + text)
    ensures OneLine(text)
  {
    hide Print, ColonEndsKey, ParseKeyLine, SeqItem, OneLine, HasControl, CleanText, IsLineTerminator;
    Brackets(Map(fields));
    OpensMap(fields);
    assert OneLine(text) && !HasControl(text) by { CleanIsOneLine(text); }
    OpenerIsPlain(text);
    KeyLineOfText(text);
    TwoSpaces(text);
    SignificantLine(2, text) by { assert Body(text); }
    assert ("  " + text)[2..] == text;
    SpacesAreClean(text);
    SpacesIndent(2, text);
  }

  lemma TwoSpaces(text: string)
    ensures Spaces(2) + text == "  " + text
  {
    assert Spaces(0) == "" && Spaces(1) == " " + Spaces(0) == " " && Spaces(2) == " " + Spaces(1);
    assert " " + " " == "  ";
  }

  lemma OpensMap(fields: Fields)
    ensures Print(Map(fields)) != "" && Print(Map(fields))[0] == '{'
  {
    hide PrintFields;
  }

  lemma CleanIsOneLine(text: string)
    requires CleanText(text)
    ensures OneLine(text) && !HasControl(text)
  {
  }

  lemma PrintedWord(text: string)
    requires text != "" && OneLine(text) && CleanText(text) && !IsSpace(text[|text| - 1])
    ensures Word("x " + text)
  {
    var s := "x " + text;
    assert s[0] == 'x' && s[1] == ' ' && forall i :: 2 <= i < |s| ==> s[i] == text[i - 2];
    hide IsLineTerminator;
    assert !IsLineTerminator('x') && !IsLineTerminator(' ') by { CalmChars(); }
  }

  lemma CalmChars()
    ensures !IsLineTerminator('x') && !IsLineTerminator(' ')
  {
  }

  lemma PrintedRoot(fields: Fields, text: string)
    requires text == Print(Map(fields)) && Printable(Map(fields)) && Continuation("  " + text, 2)
    requires text != "" && text[0] == '{' && !HasControl("  " + text) && IndentOf("  " + text) == Some(2)
    ensures ParseFrontmatter(["  " + text]) == Some(Map(fields))
  {
    hide Print, Printable, ParseKeyLine, SeqItem, IndentOf, HasControl, Trim, IsSpace, ParseFlow;
    var line := "  " + text;
    PeekLast([line]);
    assert line[2] == '{';
    PrintedFlow(fields, text);
    FlowRoot(line, fields);
  }

  lemma FlowRoot(line: string, fields: Fields)
    requires Peek([line], 0) == Line(0) && IndentOf(line) == Some(2) && |line| > 2 && line[2] == '{'
    requires Significant(line)
    requires ParseFlow(line) == Some(Map(fields))
    ensures ParseFrontmatter([line]) == Some(Map(fields))
  {
    hide IndentOf, HasControl, Trim, ParseFlow, ParseRoot, ParseMapping, Peek;
    RootOfLine(line, fields);
    assert [line][0..] == [line] && line[2..][0] == '{';
  }

  lemma RootOfLine(line: string, fields: Fields)
    requires Significant(line) && ParseFlow(line) == Some(Map(fields))
    ensures ParseRoot([line]) == Some(Map(fields))
  {
    hide HasControl, Trim, ParseFlow;
    assert JoinWith([line], "\n") == line;
  }

  lemma PrintedFlow(fields: Fields, text: string)
    requires text == Print(Map(fields)) && Printable(Map(fields)) && text != "" && text[0] == '{'
    ensures ParseFlow("  " + text) == Some(Map(fields))
  {
    hide Print, ParseValue, Printable, IsSpace;
    var line := "  " + text;
    assert line[2] == '{' && line[2..] == text;
    assert At(line, 2, text) && Ends(line, |line|);
    ParsePrinted(line, 2, Map(fields));
    ShiftedValue(line);
  }

  lemma ShiftedValue(line: string)
    requires "  " <= line && |line| > 2 && line[2] == '{'
    ensures ParseValue(line, 0) == ParseValue(line, 2)
  {
    hide ParseMap, ParseSeq, ParseQuoted, InterpretScalar;
    assert line[0] == ' ' && line[1] == ' ';
    assert SkipSpace(line, 2) == 2 && SkipSpace(line, 1) == 2;
  }

  // ── A run that introduces acceptance ──────────────────────────────────────

  /** Lines of which none is fenced or holds a line break. */
  ghost predicate Plain(lines: seq<string>) {
    && lines != [] && Edit.CleanLines(lines) && Stripped(lines) == lines
    && forall i :: 0 <= i < |lines| ==> Free(lines[i], '\n')
  }

  /** A note holding just these lines, and a field deleted from it. */
  lemma DeletedFrom(g: Guard, lines: seq<string>, key: string, after: seq<string>, f: Fields, f': Fields)
    requires Plain(lines) && Plain(after) && Edit.DeleteLines(lines, key) == Some(after)
    requires ParseFrontmatter(lines) == Some(Map(f)) && ParseFrontmatter(after) == Some(Map(f'))
    requires Passes(g, f, RemoveField(f, key))
    ensures var text := Fenced(Join(lines, '\n'), "");
      && GuardRead(text) == Some(f)
      && Attempt(g, text, DeleteField(key)).Some? && GuardRead(Attempt(g, text, DeleteField(key)).value) == Some(f')
  {
    hide ParseFrontmatter, Edit.DeleteLines, Edit.CleanLines, Locate, GuardLines, Fenced, Join, Split, Stripped;
    hide StripCr, Passes, RemoveField, Reassemble;
    hide NoCloser, StripBom;
    var block := Join(lines, '\n');
    var text := Fenced(block, "");
    FencedHasNoBom(block);
    RelocatedLines(lines, text, "");
    Edit.JoinClean(lines);
    LocateFenced(text, block, "");
    SplitJoin(lines, '\n');
    LastStripped(lines);
    StrippedLast(lines);
    RewrittenReads(text, after);
  }

  lemma FencedHasNoBom(block: string)
    ensures StripBom(Fenced(block, "")) == Fenced(block, "")
  {
    assert Fenced(block, "")[0] == '-';
  }

  lemma StrippedLast(lines: seq<string>)
    requires lines != [] && Stripped(lines) == lines
    ensures lines[..|lines| - 1] + [StripCr(lines[|lines| - 1])] == lines
  {
    assert Stripped(lines)[|lines| - 1] == StripCr(lines[|lines| - 1]);
  }

  lemma BlockValue(line: string, key: string)
    requires ParseKeyLine(line) == Key(key, "|")
    ensures ReadField([line]) == Some((key, Str("")))
    ensures ReadField([line, "  accepted"]) == Some((key, Str("accepted")))
  {
    hide ParseKeyLine, HasControl, ReadBlock;
    assert BlockHeader("|");
    LinesOfBlock(line);
    assert JoinWith(["accepted"], "\n") == "accepted" && Trim("accepted") == "accepted";
  }

  lemma LinesOfBlock(line: string)
    ensures ReadBlock([line], 1, 0, None, []) == Got([], 1)
    ensures ReadBlock([line, "  accepted"], 1, 0, None, []) == Got(["accepted"], 2)
  {
    AcceptedLine();
    hide HasControl, Continuation, Word, Trim, IndentOf;
    var lines := [line, "  accepted"];
    assert ReadBlock(lines, 2, 0, Some(2), ["accepted"]) == Got(["accepted"], 2);
    assert lines[1][Min(2, 2)..] == "accepted" && [] + ["accepted"] == ["accepted"];
    assert ReadBlock(lines, 1, 0, None, []) == ReadBlock(lines, 2, 0, Some(2), ["accepted"]);
  }

  lemma AcceptedLine()
    ensures Word("accepted") && Continuation("  accepted", 2) && ("  accepted")[2..] == "accepted"
    ensures !HasControl("  accepted") && IndentOf("  accepted") == Some(2) && Trim("  accepted") != ""
  {
    assert "  " + "accepted" == "  accepted";
    IndentedWord("accepted");
  }

  lemma NamesOfFields()
    ensures !AcceptedName("acceptance-status") && !AcceptedName("foo") && !StatusName("foo")
  {
    assert "acceptance-status"[..8] != "accepted" by {
      assert "acceptance-status"[..8][6] == 'a' && "accepted"[6] == 'e';
    }
  }

  lemma NothingIsNotAccepted(norm: string -> string)
    requires norm("") == ""
    ensures !IsAcceptedValue(norm, Str(""))
  {
  }

  /** The text is already trimmed and in lower case. */
  predicate Fixes(g: Guard, s: string) {
    g.policy.norm(s) == s
  }

  lemma NeitherAsserts(g: Guard, v: Value)
    requires Fixes(g, "acceptance-status") && Fixes(g, "foo") && Fixes(g, "")
    ensures !Asserts(g.policy.norm, ("acceptance-status", Str(""))) && !Asserts(g.policy.norm, ("foo", v))
  {
    hide AcceptedName, StatusName, IsAcceptedValue;
    NamesOfFields();
    NothingIsNotAccepted(g.policy.norm);
  }

  lemma QuietVerdict(g: Guard, before: Fields, fields: Fields)
    requires g.policy.declared == [] && forall i :: 0 <= i < |fields| ==> !Asserts(g.policy.norm, fields[i])
    ensures TransitionReason(g.policy, before, fields).None?
  {
    hide Asserts;
    FloorIsExact(g.policy.norm, before, fields);
  }

  lemma Unaccepting(g: Guard)
    requires g.policy.declared == [] && Fixes(g, "acceptance-status") && Fixes(g, "foo") && Fixes(g, "")
    ensures var p, status, foo := g.policy, ("acceptance-status", Str("")), ("foo", Str("x accepted"));
      TransitionReason(p, [], [status, foo]).None? && TransitionReason(p, [status, foo], [status]).None?
  {
    hide Asserts, TransitionReason;
    var status, foo := ("acceptance-status", Str("")), ("foo", Str("x accepted"));
    NeitherAsserts(g, Str("x accepted"));
    QuietVerdict(g, [], [status, foo]);
    QuietVerdict(g, [status, foo], [status]);
  }

  /** The blocks: a status whose block is empty, and a field whose continuation line would be the block's text. */
  lemma StatusBlocks()
    ensures var A, B := ["acceptance-status: |", "foo: x", "  accepted"], ["acceptance-status: |", "  accepted"];
      && ParseFrontmatter(A) == Some(Map([("acceptance-status", Str("")), ("foo", Str("x accepted"))]))
      && Edit.DeleteLines(A, "foo") == Some(B)
      && ParseFrontmatter(B) == Some(Map([("acceptance-status", Str("accepted"))]))
  {
    hide ReadField, TopLine, ParseFrontmatter, Lines.PlainKey, Continuation, ParseKeyLine, Edit.ParseKey;
    hide Edit.IsListItem, Edit.IsIndented, Word;
    hide Trim, IndentOf, HasControl;
    var status := "acceptance-status: |";
    var A, B := [status, "foo: x", "  accepted"], [status, "  accepted"];
    StatusWords();
    AcceptedLine();
    assert "x" + " " + "accepted" == "x accepted" && "foo" + ": " + "x" == "foo: x";
    assert "acceptance-status" + ": " + "|" == status;
    KeyLineIs(status, "acceptance-status", "|");
    KeyLineIs("foo: x", "foo", "x");
    BlockValue(status, "acceptance-status");
    ContinuationIsNoTop("  accepted", 2);
    assert B[1..] == ["  accepted"] && [status][1..] == [] && A == [status] + ["foo: x", "  accepted"];
    AcceptedTrims();
    ContinuedWord("foo", "x", "  accepted", "accepted", 2);
    TwoFields([status], ["foo: x", "  accepted"], ("acceptance-status", Str("")), ("foo", Str("x accepted")));
    OneFieldReads(B, "acceptance-status", Str("accepted"));
    NoItemKey("foo: x", "foo");
    assert A[..1] + A[2..] == B;
  }

  lemma StatusWords()
    ensures Lines.PlainKey("acceptance-status") && Lines.PlainKey("foo") && Word("x") && Word("x accepted") && Text("x")
    ensures Text("|")
  {
  }

  lemma AcceptedTrims()
    ensures Trim(("  accepted")[2..]) == "accepted"
  {
    assert ("  accepted")[2..] == "accepted";
  }

  /**
   * Two writes the guard lets through take a note from no frontmatter to an accepted status: the text with the empty
   * status is written whole, and deleting the other field lets its last line become the status.
   */
  lemma DeleteCanIntroduceAcceptance(g: Guard)
    requires g.policy.declared == []
    requires Fixes(g, "acceptance-status") && Fixes(g, "foo") && Fixes(g, "") && Fixes(g, "accepted")
    ensures var text := Fenced(Join(["acceptance-status: |", "foo: x", "  accepted"], '\n'), "");
      var out := Attempt(g, text, DeleteField("foo"));
      && GuardRead("") == Some([]) && Attempt(g, "", WholeText(text)) == Some(text)
      && out.Some? && GuardRead(out.value) == Some([("acceptance-status", Str("accepted"))])
      && Asserts(g.policy.norm, ("acceptance-status", Str("accepted")))
  {
    hide ParseFrontmatter, Edit.DeleteLines, TransitionReason, GuardRead, Fenced, Join, Edit.DeleteField;
    var A, B := ["acceptance-status: |", "foo: x", "  accepted"], ["acceptance-status: |", "  accepted"];
    var f := [("acceptance-status", Str("")), ("foo", Str("x accepted"))];
    StatusBlocks();
    BlocksArePlain();
    Unaccepting(g);
    assert RemoveField(f, "foo") == [("acceptance-status", Str(""))] by { FooRemoved(); }
    DeletedFrom(g, A, "foo", B, f, [("acceptance-status", Str("accepted"))]);
    assert GuardRead("") == Some([]) by { EmptyNote(); }
  }

  lemma FooRemoved()
    ensures RemoveField([("acceptance-status", Str("")), ("foo", Str("x accepted"))], "foo")
         == [("acceptance-status", Str(""))]
  {
  }

  lemma EmptyNote()
    ensures GuardRead("") == Some([])
  {
  }

  predicate PlainLine(line: string) {
    OneLine(line) && line != "" && line[0] != '-' && line[|line| - 1] != '\r'
  }

  lemma PlainLineIs(line: string)
    requires PlainLine(line)
    ensures NoCloser(line) && !Edit.Dashed(line) && StripCr(line) == line && Free(line, '\n')
  {
    hide NoCloser;
    Edit.OneLineClosesNowhere(line);
  }

  lemma LinesArePlain(lines: seq<string>)
    requires lines != [] && forall i :: 0 <= i < |lines| ==> PlainLine(lines[i])
    ensures Plain(lines)
  {
    hide NoCloser, PlainLine, Edit.Dashed, StripCr, Free;
    forall i | 0 <= i < |lines|
      ensures NoCloser(lines[i]) && !Edit.Dashed(lines[i]) && StripCr(lines[i]) == lines[i] && Free(lines[i], '\n')
    {
      PlainLineIs(lines[i]);
    }
  }

  lemma BlocksArePlain()
    ensures Plain(["acceptance-status: |", "foo: x", "  accepted"]) && Plain(["acceptance-status: |", "  accepted"])
  {
    assert PlainLine("acceptance-status: |") && PlainLine("foo: x") && PlainLine("  accepted");
    hide PlainLine, Plain;
    LinesArePlain(["acceptance-status: |", "foo: x", "  accepted"]);
    LinesArePlain(["acceptance-status: |", "  accepted"]);
  }
}

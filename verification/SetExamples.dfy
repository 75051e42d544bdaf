/**
 * Values whose text writes more than one field, or ends the frontmatter, set by one guarded call: acceptance introduced
 * on an empty note, and a declared property dropped. And scalars that do not come back.
 */
module SetExamples {
  import opened JsString
  import opened Splitting
  import opened AcceptGuard
  import opened AcceptTransition
  import opened FlowModel
  import opened BlockModel
  import opened BlockLines
  import opened BlockSound
  import opened BlockWindow
  import opened TopFields
  import opened Assignments
  import opened FieldEdits
  import opened GuardedEdits
  import opened WrittenScalars
  import opened WrittenValues
  import opened GuardedTexts
  import opened ClosedNotes
  import opened GuardedWrites
  import opened EditExamples
  import opened Fence
  import Edit = FrontmatterEdit
  import Lines = FrontmatterFields
  import Back = FrontmatterReadBack

  // ── A value that writes another field ─────────────────────────────────────

  const NEXT_FIELD: string := "acceptance-status: accepted #"

  /** A backslash and a quote, a line feed, and what is to be the next field. */
  const TWO_LINES: string := "\\\"" + ("\n" + NEXT_FIELD)

  lemma {:induction false} NothingEscaped(s: string)
    requires forall i :: 0 <= i < |s| ==> s[i] != '"'
    ensures Edit.EscapeQuotes(s) == s
  {
    if s != "" {
      NothingEscaped(s[1..]);
      assert s == [s[0]] + s[1..];
    }
  }

  lemma TwoLinesEscaped()
    ensures Edit.EscapeQuotes(TWO_LINES) == "\\\\\"" + ("\n" + NEXT_FIELD)
  {
    hide Edit.EscapeQuotes;
    var s, tail := TWO_LINES, "\n" + NEXT_FIELD;
    assert forall i :: 0 <= i < |NEXT_FIELD| ==> NEXT_FIELD[i] != '"';
    hide NEXT_FIELD;
    NothingEscaped(tail);
    EscapeSplits(s);
    EscapeSplits(s[1..]);
    assert s[1..] == "\"" + tail && s[1..][1..] == tail;
    assert EscapedChar('\\') + (EscapedChar('"') + tail) == "\\\\\"" + tail;
  }

  lemma TwoLinesQuoted()
    ensures Edit.NeedsQuoting(TWO_LINES)
  {
    var s := TWO_LINES;
    assert NEXT_FIELD[17] == ':' && s[20] == NEXT_FIELD[17];
    assert s[20] in Edit.SPECIAL;
  }

  lemma TwoLinesSerialized()
    ensures Edit.SerializeKey("k", Edit.One(Edit.Text(TWO_LINES))) == "k: \"\\\\\"" + ['\n'] + (NEXT_FIELD + "\"")
  {
    hide Edit.EscapeQuotes, Edit.NeedsQuoting, TWO_LINES, NEXT_FIELD;
    TwoLinesEscaped();
    TwoLinesQuoted();
    assert "k" + ": " + ("\"" + ("\\\\\"" + ("\n" + NEXT_FIELD)) + "\"")
        == "k: \"\\\\\"" + ['\n'] + (NEXT_FIELD + "\"");
  }

  lemma TwoLinesWritten()
    ensures WrittenLines("k", Edit.One(Edit.Text(TWO_LINES))) == ["k: \"\\\\\"", "acceptance-status: accepted #\""]
    ensures NoCloser(Edit.SerializeKey("k", Edit.One(Edit.Text(TWO_LINES))))
  {
    hide Split, Edit.SerializeKey, NoCloser;
    var a, b := "k: \"\\\\\"", "acceptance-status: accepted #\"";
    TwoLinesSerialized();
    assert NEXT_FIELD + "\"" == b;
    SplitFirst(a, '\n', b);
    SplitWhole(b, '\n');
    NoLineCloses(a);
    NoLineCloses(b);
    assert !Edit.Dashed(b);
    Edit.JoinTwo(a, b);
  }

  lemma NoLineCloses(s: string)
    requires forall i :: 0 <= i < |s| ==> s[i] != '\n' && s[i] != '\r'
    ensures NoCloser(s)
  {
  }

  lemma TwoLinesRead()
    ensures ReadLines(["k: \"\\\\\"", "acceptance-status: accepted #\""])
         == Some([("k", Str("\\")), ("acceptance-status", Str("accepted #\""))])
  {
    hide ReadField, TopLine, KeyOf, Lines.PlainKey, ParseFrontmatter, ParseKeyLine, ScalarToken, BlockHeader, Text;
    hide Word;
    hide Edit.ParseKey;
    var a, b := "k: \"\\\\\"", "acceptance-status: accepted #\"";
    TwoLinesWords();
    assert "k" + ": " + "\"\\\\\"" == a && "acceptance-status" + ": " + "accepted #\"" == b;
    KeyLineIs(a, "k", "\"\\\\\"");
    KeyLineIs(b, "acceptance-status", "accepted #\"");
    BackslashQuoted();
    WordIsText("accepted #\"");
    ReadsOnItsLine(a, "k", "\"\\\\\"");
    ReadsOnItsLine(b, "acceptance-status", "accepted #\"");
    assert [a][1..] == [] && [b][1..] == [] && [a] + [b] == [a, b];
    LineIsField(a, "k", "\"\\\\\"");
    LineIsField(b, "acceptance-status", "accepted #\"");
    TwoFields([a], [b], ("k", Str("\\")), ("acceptance-status", Str("accepted #\"")));
  }

  lemma LineIsField(line: string, key: string, rest: string)
    requires ParseKeyLine(line) == Key(key, rest) && TopLine(line)
    ensures WritesField([line], key)
  {
    hide ParseKeyLine, TopLine;
    assert [line][1..] == [];
  }

  lemma TwoLinesWords()
    ensures Lines.PlainKey("k") && Lines.PlainKey("acceptance-status")
    ensures Text("\"\\\\\"") && Word("accepted #\"") && Text("accepted #\"")
  {
  }

  lemma BackslashQuoted()
    ensures ScalarToken("\"\\\\\"") == Some(Str("\\")) && !BlockHeader("\"\\\\\"")
  {
    hide ScalarToken, BlockHeader;
    assert "\"" + "\\\\" + "\"" == "\"\\\\\"";
    QuotedToken("\\\\");
    LastBackslash();
    assert EvenEnd("\\\\") by { assert "\\\\"[..1] == "\\" && "\\"[..0] == ""; }
  }

  lemma KAssertsNothing(g: Guard, v: Value)
    requires Fixes(g, "k")
    ensures !Asserts(g.policy.norm, ("k", v))
  {
  }

  lemma HashIsAccepted(g: Guard)
    requires Fixes(g, "acceptance-status") && Fixes(g, "accepted #\"")
    ensures Asserts(g.policy.norm, ("acceptance-status", Str("accepted #\"")))
  {
    assert "accepted " <= "accepted #\"";
  }

  /**
   * One call on an empty note, shown to the guard as a text for `k`, lets through and introduces an accepted status.
   */
  lemma SetCanIntroduceAcceptance(g: Guard)
    requires g.policy.declared == [] && Fixes(g, "k") && Fixes(g, "acceptance-status") && Fixes(g, "accepted #\"")
    ensures var out := Attempt(g, "", SetField("k", Edit.One(Edit.Text(TWO_LINES))));
      && GuardRead("") == Some([]) && out.Some?
      && GuardRead(out.value) == Some([("k", Str("\\")), ("acceptance-status", Str("accepted #\""))])
      && Asserts(g.policy.norm, ("acceptance-status", Str("accepted #\"")))
  {
    hide ParseFrontmatter, TransitionReason, GuardRead, Lines.PlainKey, Edit.SerializeKey, NoCloser, Asserts, Text;
    hide Word;
    var value := Edit.One(Edit.Text(TWO_LINES));
    EmptyNote();
    TwoLinesWords();
    TwoLinesWritten();
    TwoLinesRead();
    FirstFieldReads("", "k", value);
    KAssertsNothing(g, Str(TWO_LINES));
    QuietVerdict(g, [], [("k", Str(TWO_LINES))]);
    HashIsAccepted(g);
  }

  // ── A value that ends the frontmatter ─────────────────────────────────────

  const DASHED_VALUE: string := "b\n---"

  lemma DashedSerialized()
    ensures Edit.SerializeKey("k", Edit.One(Edit.Text(DASHED_VALUE))) == "k: b\n---"
    ensures FirstClosing("k: b\n---", 0) == 4 && !NoCloser("k: b\n---")
  {
    var s := DASHED_VALUE;
    assert !Edit.NeedsQuoting(s);
    assert "k" + ": " + s == "k: b\n---";
    assert Closes("k: b\n---", 4);
  }

  lemma DashedCut()
    ensures CutLines("k", Edit.One(Edit.Text(DASHED_VALUE))) == ["k: b"]
    ensures !NoCloser(Edit.SerializeKey("k", Edit.One(Edit.Text(DASHED_VALUE))))
  {
    hide Edit.SerializeKey, FirstClosing, NoCloser, Split;
    DashedSerialized();
    assert "k: b\n---"[..4] == "k: b" && StripCr("k: b") == "k: b";
    SplitWhole("k: b", '\n');
  }

  /** Two fields, of which the first is to be set. */
  lemma KThenP()
    ensures var lines := ["k: a", "p: x"];
      && ParseFrontmatter(lines) == Some(Map([("k", Str("a")), ("p", Str("x"))]))
      && Edit.FindKeyRange(lines, "k", 0) == Edit.Found(0, 1) && Plain(lines)
    ensures ParseFrontmatter(["k: b"]) == Some(Map([("k", Str("b"))]))
  {
    hide ReadField, TopLine, KeyOf, Lines.PlainKey, ParseFrontmatter, ParseKeyLine, ScalarToken, BlockHeader, Text;
    hide Word;
    hide Edit.ParseKey, Plain, PlainLine;
    KWords();
    assert "k" + ": " + "a" == "k: a" && "k" + ": " + "b" == "k: b" && "p" + ": " + "x" == "p: x";
    KeyLineIs("k: a", "k", "a");
    KeyLineIs("k: b", "k", "b");
    KeyLineIs("p: x", "p", "x");
    WordIsText("a");
    WordIsText("b");
    WordIsText("x");
    ReadsOnItsLine("k: a", "k", "a");
    ReadsOnItsLine("k: b", "k", "b");
    ReadsOnItsLine("p: x", "p", "x");
    LineIsField("k: a", "k", "a");
    LineIsField("k: b", "k", "b");
    LineIsField("p: x", "p", "x");
    assert ["k: a"] + ["p: x"] == ["k: a", "p: x"];
    TwoFields(["k: a"], ["p: x"], ("k", Str("a")), ("p", Str("x")));
    OneFieldReads(["k: b"], "k", Str("b"));
    LinesArePlain(["k: a", "p: x"]);
  }

  lemma KWords()
    ensures Lines.PlainKey("k") && Lines.PlainKey("p") && Word("a") && Word("b") && Word("x") && Text("a") && Text("b")
    ensures Text("x")
    ensures PlainLine("k: a") && PlainLine("p: x")
  {
  }

  /** A note of plain lines. */
  lemma PlainNote(lines: seq<string>)
    requires Plain(lines)
    ensures var text := Fenced(Join(lines, '\n'), "");
      && Locate(text).Some? && BlockLinesOf(text) == lines && GuardRead(text) == ReadLines(lines)
  {
    hide ParseFrontmatter, Edit.CleanLines, Locate, GuardLines, Fenced, Join, Split, Stripped, StripCr, NoCloser;
    hide StripBom;
    var block := Join(lines, '\n');
    FencedHasNoBom(block);
    RelocatedLines(lines, Fenced(block, ""), "");
    Edit.JoinClean(lines);
    LocateFenced(Fenced(block, ""), block, "");
    SplitJoin(lines, '\n');
    LastStripped(lines);
    StrippedLast(lines);
  }

  lemma ValuesOfP(g: Guard, v: Value)
    requires Fixes(g, "k") && Fixes(g, "p")
    ensures Matching(g.policy.norm, [("k", v)], "p") == []
    ensures ValuesOf(Matching(g.policy.norm, [("k", v), ("p", Str("x"))], "p")) == [Str("x")]
  {
    var one, two := [("k", v)], [("k", v), ("p", Str("x"))];
    assert Canonical(g.policy.norm, "k") == "k" && Canonical(g.policy.norm, "p") == "p";
    assert one[..0] == [] && two[..1] == one;
    assert Matching(g.policy.norm, one, "p") == [];
  }

  lemma KAndPAssertNothing(g: Guard, before: Fields, v: Value)
    requires Fixes(g, "k") && Fixes(g, "p")
    ensures FloorReason(g.policy.norm, before, [("k", v), ("p", Str("x"))]).None?
  {
    var fields := [("k", v), ("p", Str("x"))];
    assert forall i :: 0 <= i < |fields| ==> !Asserts(g.policy.norm, fields[i]);
    hide Asserts;
    FloorIsExact(g.policy.norm, before, fields);
  }

  lemma KeptHere(g: Guard)
    requires g.policy.declared == ["p"] && Fixes(g, "k") && Fixes(g, "p")
    ensures var before := [("k", Str("a")), ("p", Str("x"))];
      && Passes(g, before, [("k", Str(DASHED_VALUE)), ("p", Str("x"))])
      && !PropertyHeld(g.policy.norm, before, [("k", Str("b"))], "p")
  {
    hide Matching, ValuesOf, FloorReason, PropertyReason;
    var p, before, after := g.policy, [("k", Str("a")), ("p", Str("x"))], [("k", Str(DASHED_VALUE)), ("p", Str("x"))];
    ValuesOfP(g, Str("a"));
    ValuesOfP(g, Str(DASHED_VALUE));
    ValuesOfP(g, Str("b"));
    KAndPAssertNothing(g, before, Str(DASHED_VALUE));
    PropertyIsExact(p.norm, before, after, "p");
    assert PropertyHeld(p.norm, before, after, "p");
    assert ["p"][..0] == [];
    assert DeclaredReason(p.norm, before, after, []) == None;
    NoValuesOf();
    assert Count([Str("x")], Str("x")) == 1;
    assert Count([], Str("x")) == 0;
  }

  lemma NoValuesOf()
    ensures ValuesOf([]) == []
  {
  }

  lemma PutK()
    ensures PutField([("k", Str("a")), ("p", Str("x"))], "k", Str(DASHED_VALUE))
         == [("k", Str(DASHED_VALUE)), ("p", Str("x"))]
  {
  }

  /** One call the guard lets through drops a declared property from what it reads: the closer puts it into the body. */
  lemma SetCanDropAProperty(g: Guard)
    requires g.policy.declared == ["p"] && Fixes(g, "k") && Fixes(g, "p")
    ensures var text := Fenced(Join(["k: a", "p: x"], '\n'), "");
      var out := Attempt(g, text, SetField("k", Edit.One(Edit.Text(DASHED_VALUE))));
      && GuardRead(text) == Some([("k", Str("a")), ("p", Str("x"))])
      && out.Some? && GuardRead(out.value) == Some([("k", Str("b"))])
      && !PropertyHeld(g.policy.norm, GuardRead(text).value, GuardRead(out.value).value, "p")
  {
    hide ParseFrontmatter, GuardRead, Passes, PropertyHeld, Locate, Fenced, Join, Plain, CutLines, Edit.SerializeKey;
    hide NoCloser;
    hide Lines.PlainKey, Edit.FindKeyRange, Split, Reassemble;
    var lines, value := ["k: a", "p: x"], Edit.One(Edit.Text(DASHED_VALUE));
    var text := Fenced(Join(lines, '\n'), "");
    KThenP();
    PlainNote(lines);
    KeptHere(g);
    DashedCut();
    assert LinesAbove(text, "k") == [];
    assert Edit.SetField(text, "k", value).Some?;
    PutK();
    assert Lines.PlainKey("k") by { KWords(); }
    ClosedReads(text, "k", value);
    assert Stripped([]) + ["k: b"] == ["k: b"];
  }

  // ── Scalars that do not come back ─────────────────────────────────────────

  /**
   * A path loses its backslash, the text of a boolean comes back as one, a quote may close an item too early, and a
   * number shown with an exponent comes back as text.
   */
  lemma SomeScalarsDoNotComeBack(number: string -> real)
    ensures !KeptText("C:\\notes") && !KeptText("true") && !Kept(number, Edit.Number("1e+21"))
    ensures KeptText("\\\": x") && !KeptItem(number, Edit.Text("\\\": x"))
  {
    hide KeptText, KeptItem, Kept;
    PathIsNotKept();
    BooleanIsNotKept();
    ExponentIsNotKept(number);
    QuoteIsNotKept(number);
  }

  lemma PathIsNotKept()
    ensures !KeptText("C:\\notes")
  {
    hide Literal;
    var path := "C:\\notes";
    assert path[1] == ':' && path[2] == '\\' && path[3] == 'n';
  }

  lemma BooleanIsNotKept()
    ensures !KeptText("true")
  {
    hide Numeral;
    assert Literal("true");
    hide Literal;
    assert !Edit.NeedsQuoting("true");
  }

  lemma ExponentIsNotKept(number: string -> real)
    ensures !Kept(number, Edit.Number("1e+21"))
  {
    hide DecimalValue, DoubleLimit, SignedInt;
    var s := "1e+21";
    assert !IsDigit(s[1]) && Unsigned(s) == s;
  }

  lemma QuoteIsNotKept(number: string -> real)
    ensures KeptText("\\\": x") && !KeptItem(number, Edit.Text("\\\": x"))
  {
    hide Literal;
    var s := "\\\": x";
    assert s[0] == '\\' && s[1] == '"' && s[2] == ':';
  }
}

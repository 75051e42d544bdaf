/**
 * What the reading of flow text after a dash means for the guard: whole fields written that way, their value, and
 * the verdict on it beside the verdict on the same list written on the key's line.
 */
module FlowVerdict {
  import opened JsString
  import opened AcceptGuard
  import opened AcceptTransition
  import opened FlowModel
  import opened FlowRoundTrip
  import opened BlockModel
  import opened BlockLines
  import opened FlowItems
  import opened BlockRoundTrip

  /** Text of one line that opens a flow collection. */
  predicate FlowText(content: string) {
    Body(content) && content[0] in {'[', '{'}
  }

  predicate FlowTexts(contents: seq<string>) {
    forall k :: 0 <= k < |contents| ==> FlowText(contents[k])
  }

  function DashLines(contents: seq<string>, ind: nat): (r: seq<string>)
    ensures |r| == |contents| && forall k :: 0 <= k < |r| ==> r[k] == Spaces(ind) + ("- " + contents[k])
  {
    if contents == [] then [] else [Spaces(ind) + ("- " + contents[0])] + DashLines(contents[1..], ind)
  }

  /** A key and under it one dashed line for each text. */
  function DashedField(key: string, contents: seq<string>, ind: nat): seq<string> {
    [KeyText(key)] + DashLines(contents, ind)
  }

  /** What the items are read as; None when one of them is refused. */
  function ItemsRead(contents: seq<string>): Option<seq<Value>>
    requires FlowTexts(contents)
  {
    if contents == [] then Some([])
    else
      match FlowItem(contents[0])
      case None => None
      case Some(v) =>
        match ItemsRead(contents[1..])
        case None => None
        case Some(vs) => Some([v] + vs)
  }

  lemma NotEmpty(content: string)
    requires FlowText(content)
    ensures content != ""
  {
  }

  lemma DashLine(lines: seq<string>, i: nat, ind: nat, content: string)
    requires FlowText(content) && i < |lines| && lines[i] == Spaces(ind) + ("- " + content)
    ensures AtFlowItem(lines, i, ind, content) && ind <= |lines[i]|
  {
    hide Significant, IndentOf, SeqItem, Spaces, Body, Trim, ItemColumn;
    DashBody(content);
    LineFacts(ind, "- " + content);
    BodyTrims(content);
  }

  lemma {:induction false} DashedItemsRead(lines: seq<string>, i: nat, ind: nat, contents: seq<string>, out: seq<Value>)
    requires i <= |lines| && lines[i..] == DashLines(contents, ind) && FlowTexts(contents)
    ensures ParseSequence(lines, i, ind, out)
         == match ItemsRead(contents) { case None => Fail case Some(vs) => Got(List(out + vs), |lines|) }
    decreases contents
  {
    hide ParseSequence, FlowItem, Body, AtFlowItem;
    if contents == [] {
      SequenceEnds(lines, i, ind, out);
      assert out + [] == out;
    } else {
      var content, rest := contents[0], contents[1..];
      assert lines[i] == lines[i..][0] && lines[i + 1..] == lines[i..][1..];
      assert DashLines(contents, ind)[1..] == DashLines(rest, ind);
      assert FlowText(content) && FlowTexts(rest);
      DashLine(lines, i, ind, content);
      NextDash(lines, i + 1, ind, rest);
      NotEmpty(content);
      ReadDash(lines, i, ind, content, out);
      if FlowItem(content).Some? {
        var v := FlowItem(content).value;
        DashedItemsRead(lines, i + 1, ind, rest, out + [v]);
        if ItemsRead(rest).Some? {
          assert out + [v] + ItemsRead(rest).value == out + ([v] + ItemsRead(rest).value);
        }
      }
    }
  }

  lemma NextDash(lines: seq<string>, j: nat, ind: nat, contents: seq<string>)
    requires j <= |lines| && lines[j..] == DashLines(contents, ind) && FlowTexts(contents)
    ensures BlockEnds(lines, j, ind + 1)
  {
    hide FlowText, Significant, IndentOf, SeqItem, Trim;
    if contents != [] {
      assert lines[j] == lines[j..][0];
      DashLine(lines, j, ind, contents[0]);
    }
  }

  lemma ReadDash(lines: seq<string>, i: nat, ind: nat, content: string, out: seq<Value>)
    requires AtFlowItem(lines, i, ind, content) && BlockEnds(lines, i + 1, ind + 1)
    ensures ParseSequence(lines, i, ind, out)
         == match FlowItem(content) { case None => Fail case Some(v) => ParseSequence(lines, i + 1, ind, out + [v]) }
  {
    hide ParseSequence, Significant, IndentOf, SeqItem, Trim, BlockEnds;
    FlowItemReads(lines, i, ind, content, out);
  }

  /** The document is one key at column 0, whose value takes all lines. */
  lemma OneKeyDocument(lines: seq<string>, key: string, rest: string)
    requires CleanText(key) && CleanText(rest) && (rest == "" || !IsSpace(rest[|rest| - 1]))
    requires lines != [] && lines[0] == KeyText(key) + rest
    ensures ParseValueAfterKey(lines, 1, Trim(rest), 0).Fail? ==> ParseFrontmatter(lines) == None
    ensures forall v ::
      ParseValueAfterKey(lines, 1, Trim(rest), 0) == Got(v, |lines|) ==>
        ParseFrontmatter(lines) == Some(Map([(key, v)]))
  {
    hide Significant, IndentOf, SeqItem, Body, Trim, ParseKeyLine, ParseValueAfterKey, Peek, KeyText;
    KeyBody(key, rest);
    var body := KeyText(key) + rest;
    LineFacts(0, body);
    assert Spaces(0) + body == body;
    PeekLine(lines, 0);
    QuoteFirst((key, Null));
    KeyTextQuoted(key, rest);
    PeekEnd(lines);
    assert lines[0][0..] == lines[0];
    forall v | ParseValueAfterKey(lines, 1, Trim(rest), 0) == Got(v, |lines|)
      ensures ParseFrontmatter(lines) == Some(Map([(key, v)]))
    {
      KeyStep(lines, 0, 0, key, Trim(rest), v, |lines|, []);
      MappingEnds(lines, |lines|, 0, [(key, v)]);
    }
  }

  lemma KeyTextQuoted(key: string, rest: string)
    ensures KeyText(key) + rest != "" && (KeyText(key) + rest)[0] == '"'
  {
  }

  /**
   * A key whose items are all flow text is read as the list of what each item is read as, or refused with any of them.
   */
  lemma DashedFlowReads(key: string, contents: seq<string>, ind: nat)
    requires CleanText(key) && contents != [] && FlowTexts(contents)
    ensures ParseFrontmatter(DashedField(key, contents, ind))
         == match ItemsRead(contents) { case None => None case Some(vs) => Some(Map([(key, List(vs))])) }
  {
    hide ParseFrontmatter, ParseSequence, Peek, Significant, IndentOf, SeqItem, KeyText, Trim, FlowText, ItemsRead;
    var lines := DashedField(key, contents, ind);
    assert lines[1..] == DashLines(contents, ind);
    assert lines[1] == Spaces(ind) + ("- " + contents[0]);
    DashLine(lines, 1, ind, contents[0]);
    PeekLine(lines, 1);
    DashedItemsRead(lines, 1, ind, contents, []);
    TrimNothing();
    assert KeyText(key) + "" == KeyText(key);
    OneKeyDocument(lines, key, "");
    if ItemsRead(contents).Some? {
      assert [] + ItemsRead(contents).value == ItemsRead(contents).value;
    }
  }

  function Texts(contents: seq<string>): seq<Value> {
    seq(|contents|, k requires 0 <= k < |contents| => Str(contents[k]))
  }

  lemma {:induction false} PlainTextsRead(contents: seq<string>)
    requires FlowTexts(contents) && forall k :: 0 <= k < |contents| ==> !ColonEndsKey(contents[k])
    ensures ItemsRead(contents) == Some(Texts(contents))
  {
    hide FlowText, ColonEndsKey;
    if contents == [] {
      assert Texts(contents) == [];
    } else {
      NotEmpty(contents[0]);
      PlainTextsRead(contents[1..]);
      assert Texts(contents) == [Str(contents[0])] + Texts(contents[1..]);
    }
  }

  /** The key names a status, and normalizing leaves a text's opening bracket where it is. */
  predicate StatusOf(p: Policy, key: string, contents: seq<string>) {
    && p.declared == [] && StatusName(p.norm(key)) && !AcceptedName(p.norm(key))
    && forall k :: 0 <= k < |contents| ==> p.norm(contents[k]) != "" && p.norm(contents[k])[0] in {'[', '{'}
  }

  /** Whatever the flow lists say: a status holding them as dashed items is read as texts, and passes the guard. */
  lemma DashedFlowPasses(p: Policy, before: Fields, key: string, contents: seq<string>, ind: nat)
    requires CleanText(key) && contents != [] && FlowTexts(contents) && StatusOf(p, key, contents)
    requires forall k :: 0 <= k < |contents| ==> !ColonEndsKey(contents[k])
    ensures ParseFrontmatter(DashedField(key, contents, ind)) == Some(Map([(key, List(Texts(contents)))]))
    ensures TransitionReason(p, before, [(key, List(Texts(contents)))]).None?
  {
    hide ParseFrontmatter, DashedField, FlowText, ItemsRead, ColonEndsKey, CleanText, TransitionReason;
    DashedFlowReads(key, contents, ind);
    PlainTextsRead(contents);
    TextsPass(p, before, key, contents);
  }

  lemma TextsPass(p: Policy, before: Fields, key: string, contents: seq<string>)
    requires StatusOf(p, key, contents)
    ensures TransitionReason(p, before, [(key, List(Texts(contents)))]).None?
  {
    hide AcceptedName, StatusName;
    var after := [(key, List(Texts(contents)))];
    assert !IsAcceptedValue(p.norm, List(Texts(contents)));
    assert after[..0] == [] && FloorReason(p.norm, before, after[..0]).None?;
  }

  // ── Beside the same list on the key's line ────────────────────────────────

  lemma {:induction false} PrintIsClean(v: Value)
    requires BlockPrintable(v)
    ensures Printable(v) && CleanText(Print(v))
    decreases v, 0
  {
    hide Escape, PrintInt, CleanText;
    match v
    case Str(s) => QuoteBody(s);
    case Num(n) =>
      IntScalar(n.Floor);
      PlainBody(PrintInt(n.Floor));
    case Bool(b) => PlainBody(if b then "true" else "false");
    case Null => PlainBody("null");
    case List(items) =>
      ItemsAreClean(items);
      Enclosed("[", PrintItems(items), "]");
    case Map(fields) =>
      FieldsPrintClean(fields);
      Enclosed("{", PrintFields(fields), "}");
  }

  lemma Enclosed(a: string, b: string, c: string)
    requires CleanText(b) && a in {"[", "{"} && c in {"]", "}"}
    ensures CleanText(a + b + c)
  {
    assert CleanText(a) && CleanText(c);
    hide CleanText;
    CleanConcat(a, b);
    CleanConcat(a + b, c);
  }

  lemma CleanConcat(a: string, b: string)
    requires CleanText(a) && CleanText(b)
    ensures CleanText(a + b)
  {
  }

  lemma {:induction false} ItemsAreClean(items: seq<Value>)
    requires forall i :: 0 <= i < |items| ==> BlockPrintable(items[i])
    ensures (forall i :: 0 <= i < |items| ==> Printable(items[i])) && CleanText(PrintItems(items))
    decreases items, 1
  {
    hide Print, BlockPrintable, Printable;
    if items != [] {
      var rest := PrintItems(items[1..]);
      PrintIsClean(items[0]);
      ItemsAreClean(items[1..]);
      hide CleanText;
      assert CleanText("") && CleanText(",") by { Marks(); }
      CleanConcat(",", rest);
      CleanConcat(Print(items[0]), if |items| == 1 then "" else "," + rest);
    }
  }

  lemma Marks()
    ensures CleanText("") && CleanText(",") && CleanText(":")
  {
  }

  lemma {:induction false} FieldsPrintClean(fields: Fields)
    requires forall i :: 0 <= i < |fields| ==> CleanField(fields[i])
    ensures (forall i :: 0 <= i < |fields| ==> Printable(fields[i].1)) && CleanText(PrintFields(fields))
    decreases fields, 1
  {
    hide Print, BlockPrintable, Printable, Quote, Body;
    if fields != [] {
      var field, rest := fields[0], PrintFields(fields[1..]);
      assert field.1 < field;
      PrintIsClean(field.1);
      FieldsPrintClean(fields[1..]);
      QuoteClean(field.0);
      hide CleanText, CleanField;
      Marks();
      CleanConcat(",", rest);
      CleanConcat(Quote(field.0), ":");
      CleanConcat(Quote(field.0) + ":", Print(field.1));
      CleanConcat(Quote(field.0) + ":" + Print(field.1), if |fields| == 1 then "" else "," + rest);
    }
  }

  lemma QuoteClean(s: string)
    requires CleanText(s)
    ensures CleanText(Quote(s))
  {
    hide Quote;
    QuoteBody(s);
  }

  lemma Brackets(v: Value)
    requires v.List? || v.Map?
    ensures Print(v) != "" && Print(v)[0] in {'[', '{'} && Print(v)[|Print(v)| - 1] in {']', '}'}
    ensures !BlockHeader(Print(v))
    ensures !IsSpace(Print(v)[0]) && !IsSpace(Print(v)[|Print(v)| - 1])
  {
    hide PrintItems, PrintFields;
  }

  /** On the key's own line a printed collection is read as the collection. */
  lemma OnKeyLine(key: string, v: Value)
    requires CleanText(key) && BlockPrintable(v) && (v.List? || v.Map?)
    ensures ParseFrontmatter([KeyText(key) + " " + Print(v)]) == Some(Map([(key, v)]))
  {
    hide ParseFrontmatter, KeyText, Print, Trim, ParseFlow, Gather, ParseSequence, ParseMapping, Peek, CleanText;
    hide BlockHeader;
    hide IsSpace;
    PrintIsClean(v);
    RoundTrip(v);
    Brackets(v);
    SpaceClean(Print(v));
    var lines := [KeyText(key) + " " + Print(v)];
    assert KeyText(key) + " " + Print(v) == KeyText(key) + (" " + Print(v));
    assert Spaces(1) + Print(v) == " " + Print(v) by { assert Spaces(1) == " " + Spaces(0); }
    TrimSpaces(1, Print(v));
    GatherStops(lines, 1, Print(v), 0, "");
    OneKeyDocument(lines, key, " " + Print(v));
  }

  /**
   * The same collection as a dashed item and on the key's line: read as text it passes, read as itself it is refused.
   */
  lemma SameItemTwoVerdicts(p: Policy, key: string, item: Value)
    requires CleanText(key) && BlockPrintable(item) && (item.List? || item.Map?)
    requires Print(item) != "" && !ColonEndsKey(Print(item))
    requires StatusOf(p, key, [Print(item)]) && IsAcceptedValue(p.norm, item)
    ensures ParseFrontmatter(DashedField(key, [Print(item)], 0)) == Some(Map([(key, List([Str(Print(item))]))]))
    ensures TransitionReason(p, [], [(key, List([Str(Print(item))]))]).None?
    ensures ParseFrontmatter([KeyText(key) + " " + Print(List([item]))]) == Some(Map([(key, List([item]))]))
    ensures TransitionReason(p, [], [(key, List([item]))]) == Some(SetsAccepted(key))
  {
    hide ParseFrontmatter, KeyText, Print, ColonEndsKey, CleanText, DashedField, Printable;
    PrintIsClean(item);
    ItemIsFlowText(item);
    DashedFlowPasses(p, [], key, [Print(item)], 0);
    assert Texts([Print(item)]) == [Str(Print(item))];
    hide IsAcceptedValue, AcceptedName, StatusName, BlockPrintable, TransitionReason, FlowText;
    OneItem(p.norm, item);
    OnKeyLine(key, List([item]));
    Refused(p, key, List([item]));
  }

  lemma OneItem(norm: string -> string, item: Value)
    requires BlockPrintable(item) && IsAcceptedValue(norm, item)
    ensures BlockPrintable(List([item])) && IsAcceptedValue(norm, List([item]))
  {
    hide BlockPrintable, IsAcceptedValue;
    ListIsPrintable([item]);
    ListIsAccepted(norm, [item]);
  }

  lemma ListIsPrintable(items: seq<Value>)
    requires forall i :: 0 <= i < |items| ==> BlockPrintable(items[i])
    ensures BlockPrintable(List(items))
  {
  }

  lemma ListIsAccepted(norm: string -> string, items: seq<Value>)
    requires items != [] && IsAcceptedValue(norm, items[0])
    ensures IsAcceptedValue(norm, List(items))
  {
  }

  lemma ItemIsFlowText(item: Value)
    requires CleanText(Print(item)) && (item.List? || item.Map?)
    ensures FlowText(Print(item))
  {
    hide Print, IsSpace, CleanText, BlockHeader;
    Brackets(item);
  }

  lemma Refused(p: Policy, key: string, v: Value)
    requires StatusName(p.norm(key)) && !AcceptedName(p.norm(key)) && IsAcceptedValue(p.norm, v)
    ensures TransitionReason(p, [], [(key, v)]) == Some(SetsAccepted(key))
  {
    hide AcceptedName, StatusName, IsAcceptedValue;
    var after := [(key, v)];
    assert after[..0] == [] && FloorReason(p.norm, [], after[..0]).None?;
  }

  /** The condition is met: `- ["accepted"]` under a status. */
  lemma AcceptedItemIsText(p: Policy)
    requires p.declared == [] && p.norm("acceptance-status") == "acceptance-status"
    requires p.norm("accepted") == "accepted" && p.norm("[\"accepted\"]") == "[\"accepted\"]"
    ensures var key, text := "acceptance-status", "[\"accepted\"]";
      && ParseFrontmatter([KeyText(key), "- " + text]) == Some(Map([(key, List([Str(text)]))]))
      && TransitionReason(p, [], [(key, List([Str(text)]))]).None?
  {
    hide ParseFrontmatter, KeyText, Print, TransitionReason, StatusOf, IsAcceptedValue, BlockPrintable, CleanText;
    hide ColonEndsKey;
    var key, item, text := "acceptance-status", List([Str("accepted")]), "[\"accepted\"]";
    AcceptedText();
    AcceptedShape();
    AcceptedStatus(p);
    SameItemTwoVerdicts(p, key, item);
    assert DashedField(key, [text], 0) == [KeyText(key), "- " + text] by {
      assert Spaces(0) + ("- " + text) == "- " + text;
    }
  }

  lemma AcceptedShape()
    ensures BlockPrintable(List([Str("accepted")])) && CleanText("acceptance-status") && !ColonEndsKey("[\"accepted\"]")
  {
    assert BlockPrintable(Str("accepted"));
    assert FirstColon("[\"accepted\"]") == |"[\"accepted\"]"|;
  }

  lemma AcceptedStatus(p: Policy)
    requires p.declared == [] && p.norm("acceptance-status") == "acceptance-status"
    requires p.norm("accepted") == "accepted" && p.norm("[\"accepted\"]") == "[\"accepted\"]"
    ensures StatusOf(p, "acceptance-status", ["[\"accepted\"]"]) && IsAcceptedValue(p.norm, List([Str("accepted")]))
  {
    ListIsAccepted(p.norm, [Str("accepted")]);
    hide IsAcceptedValue;
    assert !("accepted" <= "acceptance-status") by { assert "acceptance-status"[6] != "accepted"[6]; }
    assert "acceptance-status"[..8] != "accepted" by { assert "acceptance-status"[..8][6] == 'a'; }
  }

  lemma AcceptedText()
    ensures Print(List([Str("accepted")])) == "[\"accepted\"]"
  {
    hide Print, Escape, PrintItems;
    EscapeNothing("accepted");
    StringText("accepted");
    OneItemText(Str("accepted"));
    ListText([Str("accepted")]);
  }

  lemma StringText(s: string)
    ensures Print(Str(s)) == "\"" + Escape(s) + "\""
  {
  }

  lemma OneItemText(v: Value)
    ensures PrintItems([v]) == Print(v)
  {
    hide Print;
    assert Print(v) + "" == Print(v);
  }

  lemma ListText(items: seq<Value>)
    ensures Print(List(items)) == "[" + PrintItems(items) + "]"
  {
  }

  lemma {:induction false} EscapeNothing(s: string)
    requires forall i :: 0 <= i < |s| ==> s[i] != '\\' && s[i] != '"'
    ensures Escape(s) == s
  {
    if s != "" {
      EscapeNothing(s[1..]);
    }
  }
}

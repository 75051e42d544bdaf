/**
 * A canonical block printer, and the proof that the guard's block reader undoes it: nested mappings and
 * sequences, sequences of mappings read through the overwritten dash, and flow text for empty collections.
 */
module BlockRoundTrip {
  import opened JsString
  import opened AcceptGuard
  import opened FlowModel
  import opened FlowRoundTrip
  import opened BlockModel
  import opened BlockLines
  import opened FlowItems

  // ── The printer ───────────────────────────────────────────────────────────

  /** Values printed on the line of their key or dash. */
  predicate Inline(v: Value) {
    (v.List? ==> v.items == []) && (v.Map? ==> v.fields == [])
  }

  function KeyText(key: string): string {
    Quote(key) + ":"
  }

  /** The first line's leading spaces give way to a dash. */
  function Dashed(lines: seq<string>, ind: nat): seq<string>
    requires lines != [] && |lines[0]| >= ind + 2
  {
    [Spaces(ind) + "- " + lines[0][ind + 2..]] + lines[1..]
  }

  function Block(v: Value, ind: nat): (r: seq<string>)
    requires !Inline(v)
    ensures r != [] && (v.Map? ==> |r[0]| >= ind)
    decreases v
  {
    match v
    case Map(fields) => BlockFields(fields, ind)
    case List(items) => BlockItems(items, ind)
  }

  function BlockFields(fields: Fields, ind: nat): (r: seq<string>)
    ensures fields != [] ==> r != [] && |r[0]| >= ind
    decreases fields
  {
    if fields == [] then []
    else
      var field := fields[0];
      assert field.1 < field;
      SpacesLength(ind);
      (if Inline(field.1) then [Spaces(ind) + (KeyText(field.0) + " " + Print(field.1))]
       else [Spaces(ind) + KeyText(field.0)] + Block(field.1, ind + 2)) + BlockFields(fields[1..], ind)
  }

  function BlockItems(items: seq<Value>, ind: nat): (r: seq<string>)
    ensures items != [] ==> r != []
    decreases items
  {
    if items == [] then []
    else
      (if Inline(items[0]) then [Spaces(ind) + ("- " + Print(items[0]))]
       else if items[0].List? then [Spaces(ind) + "-"] + Block(items[0], ind + 2)
       else Dashed(Block(items[0], ind + 2), ind)) + BlockItems(items[1..], ind)
  }

  /** What the printer covers: clean strings, safe integers, booleans, nulls, lists and objects naming each key once. */
  ghost predicate BlockPrintable(v: Value) {
    match v
    case Str(s) => CleanText(s)
    case Num(n) => n == n.Floor as real && -MAX_SAFE_INTEGER <= n.Floor <= MAX_SAFE_INTEGER
    case List(items) => forall i :: 0 <= i < |items| ==> BlockPrintable(items[i])
    case Map(fields) => DistinctKeys(fields) && forall i :: 0 <= i < |fields| ==> CleanField(fields[i])
    case _ => true
  }

  ghost predicate CleanField(field: (string, Value)) {
    CleanText(field.0) && BlockPrintable(field.1)
  }

  // ── What the reader makes of a printed value ──────────────────────────────

  /** As a list's item an empty collection is read as the text it is written with. */
  function AsReadItem(v: Value): Value
    decreases v, 1
  {
    if v == List([]) || v == Map([]) then Str(Print(v)) else AsRead(v)
  }

  function AsRead(v: Value): Value
    decreases v, 0
  {
    match v
    case List(items) => List(AsReadItems(items))
    case Map(fields) => Map(AsReadFields(fields))
    case _ => v
  }

  function AsReadItems(items: seq<Value>): (r: seq<Value>)
    ensures |r| == |items|
    decreases items
  {
    if items == [] then [] else [AsReadItem(items[0])] + AsReadItems(items[1..])
  }

  function AsReadField(field: (string, Value)): (string, Value)
    decreases field
  {
    (field.0, AsRead(field.1))
  }

  function AsReadFields(fields: Fields): (r: Fields)
    ensures |r| == |fields| && forall i :: 0 <= i < |r| ==> r[i].0 == fields[i].0
    decreases fields
  {
    if fields == [] then [] else [AsReadField(fields[0])] + AsReadFields(fields[1..])
  }

  /** No list, at any depth, holds an empty collection. */
  ghost predicate NoEmptyItems(v: Value) {
    match v
    case List(items) => forall i :: 0 <= i < |items| ==> items[i] !in {List([]), Map([])} && NoEmptyItems(items[i])
    case Map(fields) => forall i :: 0 <= i < |fields| ==> NoEmptyItems(fields[i].1)
    case _ => true
  }

  lemma {:induction false} ReadUnchangedIff(v: Value)
    ensures AsRead(v) == v <==> NoEmptyItems(v)
    decreases v, 0
  {
    match v
    case List(items) => ItemsUnchangedIff(items);
    case Map(fields) => FieldsUnchangedIff(fields);
    case _ =>
  }

  lemma {:induction false} ItemsUnchangedIff(items: seq<Value>)
    ensures AsReadItems(items) == items
       <==> forall i :: 0 <= i < |items| ==> items[i] !in {List([]), Map([])} && NoEmptyItems(items[i])
    decreases items, 1
  {
    if items != [] {
      var first, rest := items[0], items[1..];
      ReadUnchangedIff(first);
      ItemsUnchangedIff(rest);
      assert items == [first] + rest;
      hide NoEmptyItems, AsRead;
      assert AsReadItems(items) == [AsReadItem(first)] + AsReadItems(rest);
      assert AsReadItems(items) == items <==> AsReadItem(first) == first && AsReadItems(rest) == rest by {
        assert AsReadItems(items)[0] == AsReadItem(first) && AsReadItems(items)[1..] == AsReadItems(rest);
      }
    }
  }

  lemma {:induction false} FieldsUnchangedIff(fields: Fields)
    ensures AsReadFields(fields) == fields <==> forall i :: 0 <= i < |fields| ==> NoEmptyItems(fields[i].1)
    decreases fields, 1
  {
    if fields != [] {
      var first, rest := fields[0], fields[1..];
      assert first.1 < first;
      ReadUnchangedIff(first.1);
      FieldsUnchangedIff(rest);
      assert fields == [first] + rest;
      hide NoEmptyItems, AsRead;
      assert AsReadFields(fields) == fields <==> AsReadField(first) == first && AsReadFields(rest) == rest by {
        assert AsReadFields(fields)[0] == AsReadField(first) && AsReadFields(fields)[1..] == AsReadFields(rest);
      }
    }
  }

  // ── Text of keys and scalars ──────────────────────────────────────────────

  lemma {:induction false} EscapeClean(s: string)
    requires CleanText(s)
    ensures CleanText(Escape(s))
  {
    if s != "" {
      assert CleanText(s[1..]);
      EscapeClean(s[1..]);
    }
  }

  lemma QuoteBody(s: string)
    requires CleanText(s)
    ensures Body(Quote(s)) && Quote(s)[0] == '"'
  {
    EscapeClean(s);
    hide Escape;
  }

  lemma PlainBody(token: string)
    requires token != "" && forall k :: 0 <= k < |token| ==> PlainChar(token[k])
    ensures Body(token) && token[0] != '"' && IndexOf(token, ':', 0) == |token|
  {
    assert PlainChar(token[0]) && PlainChar(token[|token| - 1]);
  }

  lemma Words()
    ensures InterpretScalar("true") == Bool(true) && InterpretScalar("false") == Bool(false)
    ensures InterpretScalar("null") == Null
  {
  }

  /** A scalar's text reads back as the scalar, and is neither a key line nor the start of anything else. */
  lemma ScalarText(v: Value)
    requires BlockPrintable(v) && !v.List? && !v.Map?
    ensures Body(Print(v)) && ScalarToken(Print(v)) == Some(v)
    ensures ParseKeyLine(Print(v)) == NotKey && !BlockHeader(Print(v)) && Print(v)[0] !in {'[', '{'}
  {
    hide ScalarToken, ParseKeyLine, BlockHeader, Body, InterpretScalar, Quote, PrintInt;
    Words();
    match v
    case Str(s) => QuotedScalar(s);
    case Num(n) =>
      IntScalar(n.Floor);
      PlainScalar(PrintInt(n.Floor));
    case Bool(b) => PlainScalar(if b then "true" else "false");
    case Null => PlainScalar("null");
  }

  lemma QuotedScalar(s: string)
    requires CleanText(s)
    ensures Body(Quote(s)) && ScalarToken(Quote(s)) == Some(Str(s)) && ParseKeyLine(Quote(s)) == NotKey
    ensures !BlockHeader(Quote(s)) && Quote(s)[0] !in {'[', '{'}
  {
    QuoteBody(s);
    UnquoteQuote(s);
    var q := Quote(s);
    assert At(q, 0, q);
    QuoteAt(q, 0, s);
    hide Escape, ParseQuoted, UnquoteIfQuoted, IsSpace;
    assert Trim(q) == q;
  }

  lemma PlainScalar(token: string)
    requires token != "" && forall k :: 0 <= k < |token| ==> PlainChar(token[k])
    ensures Body(token) && ParseKeyLine(token) == NotKey && !BlockHeader(token) && token[0] !in {'[', '{'}
    ensures ScalarToken(token) == Some(InterpretScalar(token))
  {
    PlainBody(token);
    assert PlainChar(token[0]);
    hide InterpretScalar, IsSpace, IsDigit;
    assert Trim(token) == token;
    assert IndexOf(token, ':', 1) == |token| by {
      assert forall k :: 0 <= k < |token| ==> token[k] != ':';
    }
  }

  lemma KeyBody(key: string, rest: string)
    requires CleanText(key) && CleanText(rest) && (rest == "" || !IsSpace(rest[|rest| - 1]))
    ensures Body(KeyText(key) + rest) && SeqItem(KeyText(key) + rest).None?
    ensures ParseKeyLine(KeyText(key) + rest) == Key(key, Trim(rest))
  {
    QuoteBody(key);
    var b := KeyText(key) + rest;
    var q := Quote(key);
    assert b == q + (":" + rest) && b[|q|] == ':' && b[0] == '"';
    assert At(b, 0, q);
    QuoteAt(b, 0, key);
    hide Escape, ParseQuoted, Trim;
    assert b[|q| + 1..] == rest;
    KeyTextClean(q, rest);
  }

  lemma KeyTextClean(q: string, rest: string)
    requires CleanText(q) && CleanText(rest)
    ensures CleanText(q + ":" + rest)
  {
    var b := q + ":" + rest;
    forall i | 0 <= i < |b|
      ensures !IsControl(b[i]) && !IsLineTerminator(b[i])
    {
      if i > |q| {
        assert b[i] == rest[i - |q| - 1];
      }
    }
  }

  // ── The reader on printed lines ───────────────────────────────────────────

  /** `block` stands at line `i`. */
  predicate Sits(lines: seq<string>, i: nat, block: seq<string>) {
    i + |block| <= |lines| && lines[i..i + |block|] == block
  }

  lemma SitsParts(lines: seq<string>, i: nat, a: seq<string>, b: seq<string>)
    requires Sits(lines, i, a + b)
    ensures Sits(lines, i, a) && Sits(lines, i + |a|, b)
  {
    var s := lines[i..i + |a + b|];
    assert lines[i..i + |a|] == s[..|a|] == a;
    assert lines[i + |a|..i + |a| + |b|] == s[|a|..] == b;
  }

  lemma SitsFirst(lines: seq<string>, i: nat, block: seq<string>)
    requires Sits(lines, i, block) && block != []
    ensures i < |lines| && lines[i] == block[0]
  {
    assert lines[i..i + |block|][0] == lines[i];
  }

  lemma ScalarStops(lines: seq<string>, j: nat, v: Value, owner: nat)
    requires BlockEnds(lines, j, owner + 1) && BlockPrintable(v) && !v.List? && !v.Map?
    ensures FinishScalar(lines, j, Print(v), owner) == Got(v, j)
  {
    GatherStops(lines, j, Print(v), owner, " ");
    ScalarText(v);
    hide Gather, ScalarToken, Print, ParseKeyLine;
  }

  /** The value of a key printed on the key's own line. */
  lemma InlineValue(lines: seq<string>, j: nat, v: Value, ind: nat)
    requires BlockEnds(lines, j, ind + 1) && BlockPrintable(v) && Inline(v)
    ensures ParseValueAfterKey(lines, j, Print(v), ind) == Got(v, j)
  {
    hide Gather, FinishScalar, ReadBlock, ParseFlow, JoinWith, Trim, ParseSequence, ParseMapping, Peek;
    if v.List? || v.Map? {
      GatherStops(lines, j, Print(v), ind, "");
      EmptyCollection(v);
    } else {
      ScalarStops(lines, j, v, ind);
      ScalarText(v);
      assert Print(v) != "" by { assert Body(Print(v)); }
      hide Print, BlockHeader, Body;
    }
  }

  lemma EmptyCollection(v: Value)
    requires Inline(v) && (v.List? || v.Map?)
    ensures Print(v) in {"[]", "{}"} && ParseFlow(Print(v)) == Some(v) && !BlockHeader(Print(v))
  {
    hide ParseFlow;
    assert v == List([]) || v == Map([]);
    assert Print(List([])) == "[" + "" + "]" == "[]" && Print(Map([])) == "{" + "" + "}" == "{}";
    RoundTrip(v);
  }

  lemma InlineText(v: Value)
    requires BlockPrintable(v) && Inline(v)
    ensures CleanText(Print(v)) && Print(v) != "" && !IsSpace(Print(v)[0]) && !IsSpace(Print(v)[|Print(v)| - 1])
    ensures Trim(" " + Print(v)) == Print(v)
  {
    hide Print, ParseFlow, ScalarToken, ParseKeyLine, BlockHeader, Trim, BlockPrintable;
    if v.List? || v.Map? {
      EmptyCollection(v);
    } else {
      ScalarText(v);
    }
    hide IsSpace, CleanText;
    assert " " + Print(v) == Spaces(1) + Print(v) by { assert Spaces(1) == " " + Spaces(0); }
    TrimSpaces(1, Print(v));
  }

  /** The printed line of a field, and what its key line reads as. */
  function FieldBody(field: (string, Value)): string {
    KeyText(field.0) + if Inline(field.1) then " " + Print(field.1) else ""
  }

  function RestOf(field: (string, Value)): string {
    if Inline(field.1) then Print(field.1) else ""
  }

  lemma FieldLine(field: (string, Value), ind: nat)
    requires CleanField(field)
    ensures var line := Spaces(ind) + FieldBody(field);
      && Significant(line) && IndentOf(line) == Some(ind)
      && |line| == ind + |FieldBody(field)| && line[ind..] == FieldBody(field)
      && Body(FieldBody(field)) && SeqItem(FieldBody(field)).None?
      && ParseKeyLine(FieldBody(field)) == Key(field.0, RestOf(field))
  {
    hide Print, ParseKeyLine, SeqItem, IndentOf, Significant, Spaces, KeyText, Trim, Body;
    var rest := if Inline(field.1) then " " + Print(field.1) else "";
    if Inline(field.1) {
      InlineText(field.1);
      SpaceClean(Print(field.1));
    } else {
      TrimNothing();
    }
    KeyBody(field.0, rest);
    LineFacts(ind, FieldBody(field));
  }

  lemma SpaceClean(s: string)
    requires CleanText(s) && s != "" && !IsSpace(s[|s| - 1])
    ensures CleanText(" " + s) && !IsSpace((" " + s)[|s|])
  {
  }

  /** The lines of one field: its own, and a nested block's. */
  function FieldRest(field: (string, Value), ind: nat): seq<string> {
    if Inline(field.1) then [] else Block(field.1, ind + 2)
  }

  lemma BlockFieldsParts(fields: Fields, ind: nat)
    requires fields != []
    ensures BlockFields(fields, ind)
         == [Spaces(ind) + FieldBody(fields[0])] + (FieldRest(fields[0], ind) + BlockFields(fields[1..], ind))
  {
    hide Print, KeyText, Spaces, Block;
    var key, value := KeyText(fields[0].0), Print(fields[0].1);
    assert key + "" == key && key + " " + value == key + (" " + value);
    var rest := BlockFields(fields[1..], ind);
    assert [] + rest == rest;
    if !Inline(fields[0].1) {
      var nested := Block(fields[0].1, ind + 2);
      assert [Spaces(ind) + key] + nested + rest == [Spaces(ind) + key] + (nested + rest);
    }
  }

  // ── The mutual induction ──────────────────────────────────────────────────

  lemma {:induction false} MappingReads(lines: seq<string>, i: nat, ind: nat, fields: Fields, out: Fields)
    requires Sits(lines, i, BlockFields(fields, ind)) && BlockEnds(lines, i + |BlockFields(fields, ind)|, ind)
    requires forall k :: 0 <= k < |fields| ==> CleanField(fields[k])
    requires DistinctKeys(out + AsReadFields(fields))
    ensures i <= |lines|
    ensures ParseMapping(lines, i, ind, out) == Got(Map(out + AsReadFields(fields)), i + |BlockFields(fields, ind)|)
    decreases fields, 1
  {
    hide Peek, SeqItem, ParseKeyLine, ParseValueAfterKey, BlockFields, Significant, IndentOf, Spaces, CleanField;
    hide DistinctKeys, PutField, FieldBody, FieldRest, RestOf, ParseMapping, AsRead;
    if fields == [] {
      NoFields(ind);
      MappingEnds(lines, i, ind, out);
      assert out + AsReadFields(fields) == out;
    } else {
      var field, rest := fields[0], fields[1..];
      var tail := FieldRest(field, ind);
      BlockFieldsParts(fields, ind);
      SitsParts(lines, i, [Spaces(ind) + FieldBody(field)], tail + BlockFields(rest, ind));
      SitsParts(lines, i + 1, tail, BlockFields(rest, ind));
      SitsFirst(lines, i, [Spaces(ind) + FieldBody(field)]);
      FieldLine(field, ind);
      PeekLine(lines, i);
      var next := i + 1 + |tail|;
      FieldsEnd(lines, next, ind, rest);
      ValueReads(lines, i + 1, ind, field);
      AppendField(out, AsReadFields(fields));
      assert AsReadFields(fields)[1..] == AsReadFields(rest);
      assert (out + [AsReadField(field)]) + AsReadFields(rest) == out + AsReadFields(fields);
      KeyStep(lines, i, ind, field.0, RestOf(field), AsRead(field.1), next, out);
      MappingReads(lines, next, ind, rest, out + [AsReadField(field)]);
    }
  }

  lemma NoFields(ind: nat)
    ensures BlockFields([], ind) == []
  {
  }

  /** After one field comes the next, at the same column, or the end of them all. */
  lemma FieldsEnd(lines: seq<string>, j: nat, ind: nat, fields: Fields)
    requires Sits(lines, j, BlockFields(fields, ind)) && BlockEnds(lines, j + |BlockFields(fields, ind)|, ind)
    requires forall k :: 0 <= k < |fields| ==> CleanField(fields[k])
    ensures BlockEnds(lines, j, ind + 1)
  {
    hide BlockFields, Significant, IndentOf, Spaces, CleanField, FieldBody, FieldRest, ParseKeyLine, SeqItem, RestOf;
    if fields == [] {
      NoFields(ind);
    } else {
      BlockFieldsParts(fields, ind);
      SitsFirst(lines, j, BlockFields(fields, ind));
      FieldLine(fields[0], ind);
    }
  }

  /** The value of a key whose line has been read. */
  lemma {:induction false} ValueReads(lines: seq<string>, j: nat, ind: nat, field: (string, Value))
    requires CleanField(field)
    requires Sits(lines, j, FieldRest(field, ind)) && BlockEnds(lines, j + |FieldRest(field, ind)|, ind + 1)
    ensures j <= |lines|
    ensures ParseValueAfterKey(lines, j, RestOf(field), ind) == Got(AsRead(field.1), j + |FieldRest(field, ind)|)
    decreases field, 0
  {
    hide Peek, Block, ParseMapping, ParseSequence, Print, Significant, IndentOf, SeqItem, BlockPrintable, BlockHeader;
    hide Gather, FinishScalar, ReadBlock, ParseFlow, JoinWith, Trim;
    var v := field.1;
    FieldIsPrintable(field);
    if Inline(v) {
      InlineText(v);
      InlineValue(lines, j, v, ind);
    } else {
      BlockEndsFurther(lines, j + |FieldRest(field, ind)|, ind + 1, ind + 2);
      BlockHead(v, ind + 2);
      SitsFirst(lines, j, Block(v, ind + 2));
      PeekLine(lines, j);
      BlockReads(lines, j, ind + 2, v);
    }
  }

  lemma FieldIsPrintable(field: (string, Value))
    requires CleanField(field)
    ensures BlockPrintable(field.1)
  {
  }

  /** A nested block read where it stands. */
  lemma {:induction false} BlockReads(lines: seq<string>, j: nat, ind: nat, v: Value)
    requires BlockPrintable(v) && !Inline(v)
    requires Sits(lines, j, Block(v, ind)) && BlockEnds(lines, j + |Block(v, ind)|, ind)
    ensures j <= |lines|
    ensures v.Map? ==> ParseMapping(lines, j, ind, []) == Got(AsRead(v), j + |Block(v, ind)|)
    ensures v.List? ==> ParseSequence(lines, j, ind, []) == Got(AsRead(v), j + |Block(v, ind)|)
    decreases v, 0
  {
    hide ParseMapping, ParseSequence, BlockFields, BlockItems, Sits, BlockEnds, CleanField;
    match v
    case Map(fields) =>
      assert [] + AsReadFields(fields) == AsReadFields(fields);
      MappingReads(lines, j, ind, fields, []);
    case List(items) =>
      assert [] + AsReadItems(items) == AsReadItems(items);
      SequenceReads(lines, j, ind, items, []);
  }

  /** The first line of a block: significant, at its column, a dash for a list and a key for a mapping. */
  lemma BlockHead(v: Value, ind: nat)
    requires BlockPrintable(v) && !Inline(v)
    ensures var line := Block(v, ind)[0];
      && Significant(line) && IndentOf(line) == Some(ind) && ind <= |line|
      && SeqItem(line[ind..]).Some? == v.List?
  {
    hide Print, Significant, IndentOf, SeqItem, ParseKeyLine, Spaces, FieldBody, Body, ItemLine;
    match v
    case Map(fields) =>
      BlockFieldsParts(fields, ind);
      FieldLine(fields[0], ind);
    case List(items) =>
      BlockItemsParts(items, ind);
      ItemHead(items[0], ind);
  }

  // ── Sequences ─────────────────────────────────────────────────────────────

  /** The text after the indentation on the first line of an item. */
  function ItemLine(v: Value): string {
    if Inline(v) then "- " + Print(v)
    else if v.List? then "-"
    else "- " + FieldBody(v.fields[0])
  }

  /** The lines of an item after its first. */
  function ItemRest(v: Value, ind: nat): seq<string> {
    if Inline(v) then []
    else if v.List? then Block(v, ind + 2)
    else FieldRest(v.fields[0], ind + 2) + BlockFields(v.fields[1..], ind + 2)
  }

  lemma BlockItemsParts(items: seq<Value>, ind: nat)
    requires items != []
    ensures BlockItems(items, ind)
         == [Spaces(ind) + ItemLine(items[0])] + (ItemRest(items[0], ind) + BlockItems(items[1..], ind))
  {
    hide Print, Spaces, FieldBody, FieldRest, BlockFields;
    var v := items[0];
    if !Inline(v) && v.Map? {
      BlockFieldsParts(v.fields, ind + 2);
      SpacesLength(ind + 2);
      var first := Spaces(ind + 2) + FieldBody(v.fields[0]);
      assert first[ind + 2..] == FieldBody(v.fields[0]);
      assert Spaces(ind) + "- " + FieldBody(v.fields[0]) == Spaces(ind) + ("- " + FieldBody(v.fields[0]));
    }
  }

  lemma DashBody(content: string)
    requires Body(content)
    ensures Body("- " + content) && SeqItem("- " + content) == Some(content) && ItemColumn("- " + content, 0) == 2
  {
    var b := "- " + content;
    assert b[1..] == " " + content && (" " + content)[1..] == content && b[|b| - 1] == content[|content| - 1];
    DashIsItem(content);
    DashIsClean(content);
    hide CleanText, SeqItem, SkipBlanks;
  }

  lemma DashIsItem(content: string)
    requires Body(content)
    ensures SeqItem("- " + content) == Some(content) && SkipBlanks(" " + content, 0) == 1
  {
    var b := "- " + content;
    assert b[1..] == " " + content && (" " + content)[1..] == content;
    assert content[0] != ' ' && content[0] != '\t' by { assert !IsSpace(content[0]); }
    SkipOneBlank(content);
    hide IsSpace, SkipBlanks;
  }

  lemma DashIsClean(content: string)
    requires CleanText(content)
    ensures CleanText("- " + content)
  {
    var b := "- " + content;
    forall i | 0 <= i < |b|
      ensures !IsControl(b[i]) && !IsLineTerminator(b[i])
    {
      if i >= 2 {
        assert b[i] == content[i - 2];
      }
    }
  }

  /** What the reader makes of the first line of an item. */
  lemma ItemHead(v: Value, ind: nat)
    requires BlockPrintable(v)
    ensures var line := Spaces(ind) + ItemLine(v);
      && Significant(line) && IndentOf(line) == Some(ind) && |line| == ind + |ItemLine(v)| && line[ind..] == ItemLine(v)
    ensures SeqItem(ItemLine(v)) == Some(ItemLine(v)[if !Inline(v) && v.List? then 1 else 2..])
    ensures Body(ItemLine(v))
  {
    hide Print, Significant, IndentOf, SeqItem, Spaces, FieldBody, ParseKeyLine, ScalarToken, BlockHeader, Body;
    if Inline(v) {
      InlineBody(v);
      DashBody(Print(v));
      assert ("- " + Print(v))[2..] == Print(v);
    } else if v.List? {
      LoneDash();
    } else {
      FieldLine(v.fields[0], ind);
      DashBody(FieldBody(v.fields[0]));
      assert ("- " + FieldBody(v.fields[0]))[2..] == FieldBody(v.fields[0]);
    }
    LineFacts(ind, ItemLine(v));
  }

  lemma InlineBody(v: Value)
    requires BlockPrintable(v) && Inline(v)
    ensures Body(Print(v))
  {
    hide Print, ParseFlow, ScalarToken, ParseKeyLine, BlockHeader, BlockPrintable;
    if v.List? || v.Map? {
      EmptyCollection(v);
    } else {
      ScalarText(v);
    }
  }

  lemma LoneDash()
    ensures Body("-") && SeqItem("-") == Some("") && "-"[1..] == ""
  {
  }

  lemma {:induction false} SequenceReads(lines: seq<string>, i: nat, ind: nat, items: seq<Value>, out: seq<Value>)
    requires Sits(lines, i, BlockItems(items, ind)) && BlockEnds(lines, i + |BlockItems(items, ind)|, ind)
    requires forall k :: 0 <= k < |items| ==> BlockPrintable(items[k])
    ensures i <= |lines|
    ensures ParseSequence(lines, i, ind, out) == Got(List(out + AsReadItems(items)), i + |BlockItems(items, ind)|)
    decreases items, 2
  {
    hide Peek, ParseSequence, BlockItems, Significant, IndentOf, Spaces, BlockPrintable, ItemLine, ItemRest, SeqItem;
    if items == [] {
      NoItems(ind);
      SequenceEnds(lines, i, ind, out);
      assert out + AsReadItems(items) == out;
    } else {
      var v, rest := items[0], items[1..];
      var tail := ItemRest(v, ind);
      BlockItemsParts(items, ind);
      SitsParts(lines, i, [Spaces(ind) + ItemLine(v)], tail + BlockItems(rest, ind));
      SitsParts(lines, i + 1, tail, BlockItems(rest, ind));
      var next := i + 1 + |tail|;
      ItemsEnd(lines, next, ind, rest);
      ItemReads(lines, i, ind, v, out);
      assert (out + [AsReadItem(v)]) + AsReadItems(rest) == out + AsReadItems(items);
      SequenceReads(lines, next, ind, rest, out + [AsReadItem(v)]);
    }
  }

  lemma NoItems(ind: nat)
    ensures BlockItems([], ind) == []
  {
  }

  lemma SequenceEnds(lines: seq<string>, i: nat, ind: nat, out: seq<Value>)
    requires BlockEnds(lines, i, ind)
    ensures ParseSequence(lines, i, ind, out) == Got(List(out), i)
  {
    PeekEnds(lines, i, ind);
    hide Peek, IndentOf, SeqItem, Significant;
  }

  /** After one item comes the next, its dash at the same column, or the end of them all. */
  lemma ItemsEnd(lines: seq<string>, j: nat, ind: nat, items: seq<Value>)
    requires Sits(lines, j, BlockItems(items, ind)) && BlockEnds(lines, j + |BlockItems(items, ind)|, ind)
    requires forall k :: 0 <= k < |items| ==> BlockPrintable(items[k])
    ensures BlockEnds(lines, j, ind + 1)
  {
    hide BlockItems, Significant, IndentOf, Spaces, BlockPrintable, ItemLine, ItemRest, SeqItem;
    if items == [] {
      NoItems(ind);
    } else {
      BlockItemsParts(items, ind);
      SitsFirst(lines, j, BlockItems(items, ind));
      ItemHead(items[0], ind);
    }
  }

  /** One item is read, and the reader goes on after its lines. */
  lemma {:induction false} ItemReads(lines: seq<string>, i: nat, ind: nat, v: Value, out: seq<Value>)
    requires BlockPrintable(v) && Sits(lines, i, [Spaces(ind) + ItemLine(v)]) && Sits(lines, i + 1, ItemRest(v, ind))
    requires BlockEnds(lines, i + 1 + |ItemRest(v, ind)|, ind + 1)
    ensures i + 1 + |ItemRest(v, ind)| <= |lines|
    ensures ParseSequence(lines, i, ind, out)
         == ParseSequence(lines, i + 1 + |ItemRest(v, ind)|, ind, out + [AsReadItem(v)])
    decreases v, 3
  {
    hide ParseSequence, Significant, IndentOf, Spaces, BlockPrintable, ItemLine, SeqItem, Body, Block;
    ItemHead(v, ind);
    SitsFirst(lines, i, [Spaces(ind) + ItemLine(v)]);
    PeekLine(lines, i);
    if Inline(v) {
      InlineItem(lines, i, ind, v, out);
    } else if v.List? {
      ListItem(lines, i, ind, v, out);
    } else {
      MapItem(lines, i, ind, v, out);
    }
  }

  /** The reader has stopped at line `i`, an item's first. */
  predicate AtItem(lines: seq<string>, i: nat, ind: nat, v: Value) {
    && i < |lines| && Significant(lines[i]) && Peek(lines, i) == Line(i) && IndentOf(lines[i]) == Some(ind)
    && lines[i] == Spaces(ind) + ItemLine(v) && |lines[i]| == ind + |ItemLine(v)| && lines[i][ind..] == ItemLine(v)
    && SeqItem(ItemLine(v)) == Some(ItemLine(v)[if !Inline(v) && v.List? then 1 else 2..])
  }

  /** An item printed on its dash's line: a scalar, or an empty collection read as text. */
  lemma InlineItem(lines: seq<string>, i: nat, ind: nat, v: Value, out: seq<Value>)
    requires BlockPrintable(v) && Inline(v) && AtItem(lines, i, ind, v) && BlockEnds(lines, i + 1, ind + 1)
    ensures ItemRest(v, ind) == []
    ensures ParseSequence(lines, i, ind, out) == ParseSequence(lines, i + 1, ind, out + [AsReadItem(v)])
  {
    hide Peek, IndentOf, SeqItem, Spaces, FinishScalar, ParseSequence, Print, BlockPrintable, BlockEnds, ParseKeyLine;
    hide Trim;
    hide ItemLine, Significant, FlowItem;
    InlineContent(v);
    if v.List? || v.Map? {
      EmptyItem(v);
      FlowItemReads(lines, i, ind, Print(v), out);
    } else {
      ScalarStops(lines, i + 1, v, ind);
      ScalarContent(v);
      ScalarStep(lines, i, ind, Print(v), v, i + 1, out);
    }
  }

  lemma InlineContent(v: Value)
    requires BlockPrintable(v) && Inline(v)
    ensures ItemLine(v)[2..] == Print(v) && Trim(Print(v)) == Print(v) && Print(v) != ""
  {
    hide Print, Trim, Body;
    InlineBody(v);
    BodyTrims(Print(v));
    assert ("- " + Print(v))[2..] == Print(v);
  }

  lemma ScalarContent(v: Value)
    requires BlockPrintable(v) && Inline(v) && !v.List? && !v.Map?
    ensures ParseKeyLine(Print(v)) == NotKey
  {
    hide Print, ParseKeyLine, ScalarToken, BlockHeader, Body;
    ScalarText(v);
  }

  lemma EmptyItem(v: Value)
    requires Inline(v) && (v.List? || v.Map?)
    ensures Print(v) != "" && Print(v)[0] in {'[', '{'} && FlowItem(Print(v)) == Some(AsReadItem(v))
  {
    hide ParseFlow, ScalarToken, BlockHeader, Trim;
    EmptyCollection(v);
    assert FirstColon(Print(v)) == 2;
  }

  lemma {:induction false} ListItem(lines: seq<string>, i: nat, ind: nat, v: Value, out: seq<Value>)
    requires BlockPrintable(v) && !Inline(v) && v.List? && AtItem(lines, i, ind, v)
    requires Sits(lines, i + 1, ItemRest(v, ind)) && BlockEnds(lines, i + 1 + |ItemRest(v, ind)|, ind + 1)
    ensures ParseSequence(lines, i, ind, out)
         == ParseSequence(lines, i + 1 + |ItemRest(v, ind)|, ind, out + [AsReadItem(v)])
    decreases v, 2
  {
    hide IndentOf, SeqItem, Spaces, ParseSequence, ParseBareItem, Block, Peek, BlockPrintable, Significant;
    var j := i + 1;
    BlockEndsFurther(lines, j + |ItemRest(v, ind)|, ind + 1, ind + 2);
    BareItemReads(lines, j, ind, v);
    assert ItemLine(v)[1..] == "";
    ListItemStep(lines, i, ind, AsRead(v), j + |ItemRest(v, ind)|, out);
  }

  lemma ListItemStep(lines: seq<string>, i: nat, ind: nat, v: Value, next: nat, out: seq<Value>)
    requires i < |lines| && Peek(lines, i) == Line(i) && IndentOf(lines[i]) == Some(ind) && ind <= |lines[i]|
    requires SeqItem(lines[i][ind..]) == Some("") && next <= |lines|
    requires ParseBareItem(lines, i + 1, ind) == Got(v, next)
    ensures ParseSequence(lines, i, ind, out) == ParseSequence(lines, next, ind, out + [v])
  {
    hide IndentOf, SeqItem, Spaces, FinishScalar, ParseMapping, ParseBareItem, Peek, ParseKeyLine, ItemColumn;
    TrimNothing();
    hide Trim;
  }

  lemma {:induction false} BareItemReads(lines: seq<string>, j: nat, ind: nat, v: Value)
    requires BlockPrintable(v) && !Inline(v) && v.List?
    requires Sits(lines, j, Block(v, ind + 2)) && BlockEnds(lines, j + |Block(v, ind + 2)|, ind + 2)
    ensures j <= |lines| && ParseBareItem(lines, j, ind) == Got(AsRead(v), j + |Block(v, ind + 2)|)
    decreases v, 1
  {
    hide IndentOf, SeqItem, ParseMapping, ParseSequence, Block, Peek, BlockPrintable, Significant;
    BlockHead(v, ind + 2);
    SitsFirst(lines, j, Block(v, ind + 2));
    PeekLine(lines, j);
    BlockReads(lines, j, ind + 2, v);
  }

  /** An item that is a mapping: with its dash overwritten, its lines are just the mapping's own block. */
  lemma {:induction false} MapItem(lines: seq<string>, i: nat, ind: nat, v: Value, out: seq<Value>)
    requires BlockPrintable(v) && !Inline(v) && v.Map? && AtItem(lines, i, ind, v)
    requires Sits(lines, i + 1, ItemRest(v, ind)) && BlockEnds(lines, i + 1 + |ItemRest(v, ind)|, ind + 1)
    ensures ParseSequence(lines, i, ind, out)
         == ParseSequence(lines, i + 1 + |ItemRest(v, ind)|, ind, out + [AsReadItem(v)])
    decreases v, 2
  {
    hide AtItem, IndentOf, Spaces, ParseMapping, ParseSequence, ItemLine, ItemRest, Block, Peek, BlockPrintable;
    hide FieldBody;
    MapItemText(lines, i, ind, v);
    Overwritten(lines, i, ind, v);
    BlockReads(lines[i := Spaces(ind + 2) + FieldBody(v.fields[0])], i, ind + 2, v);
    MapItemStep(lines, i, ind, FieldBody(v.fields[0]), AsRead(v), i + 1 + |ItemRest(v, ind)|, out);
  }

  /** Line `i` is an item whose text is a key line. */
  predicate AtKeyItem(lines: seq<string>, i: nat, ind: nat, content: string) {
    && i < |lines| && Peek(lines, i) == Line(i) && IndentOf(lines[i]) == Some(ind) && ind < |lines[i]|
    && SeqItem(lines[i][ind..]).Some? && Trim(SeqItem(lines[i][ind..]).value) == content && content != ""
    && ParseKeyLine(content).Key? && ItemColumn(lines[i], ind) == ind + 2
  }

  lemma MapItemText(lines: seq<string>, i: nat, ind: nat, v: Value)
    requires BlockPrintable(v) && !Inline(v) && v.Map? && AtItem(lines, i, ind, v)
    ensures AtKeyItem(lines, i, ind, FieldBody(v.fields[0]))
  {
    hide IndentOf, SeqItem, Spaces, Block, Peek, BlockPrintable, ParseKeyLine, FieldBody, RestOf, Body, Trim;
    hide Significant;
    hide ItemColumn, CleanField;
    var field := v.fields[0];
    assert CleanField(field) by { FieldsAreClean(v); }
    FieldLine(field, ind);
    BodyTrims(FieldBody(field));
    assert ItemLine(v)[2..] == FieldBody(field);
    DashColumn(ind, FieldBody(field));
  }

  lemma MapItemStep(lines: seq<string>, i: nat, ind: nat, content: string, v: Value, next: nat, out: seq<Value>)
    requires AtKeyItem(lines, i, ind, content) && next <= |lines|
    requires ParseMapping(lines[i := Spaces(ind + 2) + content], i, ind + 2, []) == Got(v, next)
    ensures ParseSequence(lines, i, ind, out) == ParseSequence(lines, next, ind, out + [v])
  {
    hide IndentOf, SeqItem, Spaces, FinishScalar, ParseMapping, ParseBareItem, Peek, ParseKeyLine, Trim, ItemColumn;
  }

  lemma FieldsAreClean(v: Value)
    requires BlockPrintable(v) && v.Map?
    ensures forall k :: 0 <= k < |v.fields| ==> CleanField(v.fields[k])
  {
  }

  lemma DashColumn(ind: nat, content: string)
    requires Body(content)
    ensures ind < |Spaces(ind) + ("- " + content)| && ItemColumn(Spaces(ind) + ("- " + content), ind) == ind + 2
  {
    SpacesLength(ind);
    var line := Spaces(ind) + ("- " + content);
    assert content[0] != ' ' && content[0] != '\t' by { assert !IsSpace(content[0]); }
    assert line[ind + 1..] == " " + content;
    SkipOneBlank(content);
  }

  lemma Overwritten(lines: seq<string>, i: nat, ind: nat, v: Value)
    requires !Inline(v) && v.Map? && i < |lines|
    requires Sits(lines, i + 1, ItemRest(v, ind)) && BlockEnds(lines, i + 1 + |ItemRest(v, ind)|, ind + 1)
    ensures var lines' := lines[i := Spaces(ind + 2) + FieldBody(v.fields[0])];
      && Sits(lines', i, Block(v, ind + 2)) && BlockEnds(lines', i + |Block(v, ind + 2)|, ind + 2)
      && |Block(v, ind + 2)| == 1 + |ItemRest(v, ind)|
  {
    hide BlockFields, FieldBody, FieldRest, Significant, IndentOf, Spaces;
    BlockFieldsParts(v.fields, ind + 2);
    var first := Spaces(ind + 2) + FieldBody(v.fields[0]);
    var rest := ItemRest(v, ind);
    var lines' := lines[i := first];
    assert lines'[i + 1..i + 1 + |rest|] == lines[i + 1..i + 1 + |rest|];
    assert lines'[i..i + 1 + |rest|] == [first] + lines'[i + 1..i + 1 + |rest|];
    BlockEndsFurther(lines, i + 1 + |rest|, ind + 1, ind + 2);
  }

  lemma PrintedFieldsRead(v: Value)
    requires v.Map? && BlockPrintable(v)
    ensures var lines := BlockFields(v.fields, 0); ParseMapping(lines, 0, 0, []) == Got(AsRead(v), |lines|)
  {
    hide Peek, ParseMapping, BlockFields, Significant, IndentOf, BlockPrintable;
    var lines := BlockFields(v.fields, 0);
    FieldsAreClean(v);
    FieldsAreDistinct(v);
    assert [] + AsReadFields(v.fields) == AsReadFields(v.fields);
    assert lines[0..0 + |lines|] == lines;
    MappingReads(lines, 0, 0, v.fields, []);
  }

  /** The first printed line is neither passed over nor taken for a flow collection. */
  lemma PrintedRoot(v: Value)
    requires v.Map? && BlockPrintable(v) && v.fields != []
    ensures var lines := BlockFields(v.fields, 0);
      && lines != [] && Peek(lines, 0) == Line(0) && IndentOf(lines[0]) == Some(0)
      && lines[0][0..] != "" && lines[0][0..][0] == '"'
  {
    hide Peek, ParseMapping, BlockFields, Significant, IndentOf, BlockPrintable, SeqItem, ParseKeyLine, FieldBody;
    hide FieldRest, Spaces, Body;
    var lines := BlockFields(v.fields, 0);
    FieldsAreClean(v);
    BlockFieldsParts(v.fields, 0);
    FieldLine(v.fields[0], 0);
    PeekLine(lines, 0);
    QuoteFirst(v.fields[0]);
  }

  /** For every printable mapping: its printed lines are read as the mapping, empty items turned into their text. */
  lemma PrintedLinesRead(v: Value)
    requires v.Map? && BlockPrintable(v)
    ensures ParseFrontmatter(BlockFields(v.fields, 0)) == Some(AsRead(v))
  {
    hide Peek, ParseMapping, BlockFields, IndentOf, BlockPrintable, ParseRoot;
    PeekEnd(BlockFields(v.fields, 0));
    if v.fields == [] {
      NoFields(0);
    } else {
      PrintedRoot(v);
      PrintedFieldsRead(v);
    }
  }

  /**
   * Reading the printed lines gives the mapping back just when no list in it, at any depth, holds an empty collection.
   */
  lemma BlockRoundTripIff(v: Value)
    requires v.Map? && BlockPrintable(v)
    ensures ParseFrontmatter(BlockFields(v.fields, 0)) == Some(v) <==> NoEmptyItems(v)
  {
    hide ParseFrontmatter, BlockFields, AsRead, NoEmptyItems, BlockPrintable;
    PrintedLinesRead(v);
    ReadUnchangedIff(v);
  }

  lemma FieldsAreDistinct(v: Value)
    requires BlockPrintable(v) && v.Map?
    ensures DistinctKeys(AsReadFields(v.fields))
  {
    hide AsRead;
  }

  lemma QuoteFirst(field: (string, Value))
    ensures FieldBody(field) != "" && FieldBody(field)[0] == '"'
  {
  }
}

/**
 * Flow text after a dash. The guard's reader takes `key: [a]` for a list, but `- [a]` for the text `[a]`, and
 * `- {k: v}` for a mapping whose key is `{k`. What it reads is given here for every such item of one line.
 */
module FlowItems {
  import opened JsString
  import opened AcceptGuard
  import opened AcceptTransition
  import opened FlowModel
  import opened BlockModel
  import opened BlockLines

  /** The position of the first colon after the opening bracket. */
  function FirstColon(content: string): nat
    requires content != ""
  {
    IndexOf(content, ':', 1)
  }

  /** The first colon is the last character, or a blank follows it. */
  predicate ColonEndsKey(content: string)
    requires content != ""
  {
    var colon := FirstColon(content);
    colon < |content| && (colon + 1 == |content| || content[colon + 1] == ' ' || content[colon + 1] == '\t')
  }

  /** What stands for the value after `key:` when no line continues it. */
  function AfterColon(rest: string): Option<Value> {
    if rest == "" then Some(Null)
    else if BlockHeader(rest) then Some(Str(""))
    else if rest[0] in {'[', '{'} then ParseFlow(rest)
    else ScalarToken(rest)
  }

  /** The value of an item whose whole text is `content`; None refuses. */
  function FlowItem(content: string): Option<Value>
    requires content != ""
  {
    if !ColonEndsKey(content) then Some(Str(content))
    else
      var colon := FirstColon(content);
      match AfterColon(Trim(content[colon + 1..]))
      case None => None
      case Some(v) => Some(Map([(Trim(content[..colon]), v)]))
  }

  /** Line `i` is an item at column `ind` whose text opens a flow collection. */
  predicate AtFlowItem(lines: seq<string>, i: nat, ind: nat, content: string) {
    && i < |lines| && Significant(lines[i]) && IndentOf(lines[i]) == Some(ind)
    && SeqItem(lines[i][ind..]).Some? && Trim(SeqItem(lines[i][ind..]).value) == content
    && content != "" && content[0] in {'[', '{'}
  }

  // ── Trimming ──────────────────────────────────────────────────────────────

  lemma {:induction false} TrimDropsBlanks(s: string, i: nat)
    requires i <= |s| && forall k :: 0 <= k < i ==> s[k] == ' ' || s[k] == '\t'
    ensures Trim(s[SkipBlanks(s, i)..]) == Trim(s)
    decreases |s| - i
  {
    if i < |s| && (s[i] == ' ' || s[i] == '\t') {
      TrimDropsBlanks(s, i + 1);
    } else {
      DropBlanks(s, i);
    }
  }

  lemma {:induction false} DropBlanks(s: string, i: nat)
    requires i <= |s| && forall k :: 0 <= k < i ==> s[k] == ' ' || s[k] == '\t'
    ensures Trim(s[i..]) == Trim(s)
    decreases i
  {
    if i > 0 {
      assert s[1..][i - 1..] == s[i..];
      DropBlanks(s[1..], i - 1);
    } else {
      assert s[0..] == s;
    }
  }

  // ── The item's text ───────────────────────────────────────────────────────

  /** The text after the dash ends its line. */
  lemma SuffixOfLine(line: string, ind: nat)
    requires ind <= |line| && SeqItem(line[ind..]).Some?
    ensures var value := SeqItem(line[ind..]).value; OneLine(value) && forall c :: c in value ==> c in line
  {
    hide IsLineTerminator;
    var after := line[ind..][1..];
    assert forall c :: c in after[SkipBlanks(after, 0)..] ==> c in after;
    assert after == line[ind + 1..];
  }

  /** The text is trimmed, of one line and free of control characters. */
  lemma ItemText(lines: seq<string>, i: nat, ind: nat, content: string)
    requires AtFlowItem(lines, i, ind, content)
    ensures OneLine(content) && Trim(content) == content && !IsSpace(content[0]) && !IsSpace(content[|content| - 1])
    ensures forall c :: c in content ==> !IsControl(c)
  {
    hide Trim, IsControl, IsIgnorable, IndentOf, IsSpace, IsLineTerminator, SeqItem;
    var value := SeqItem(lines[i][ind..]).value;
    SuffixOfLine(lines[i], ind);
    CharsOfLine(lines[i]);
    TrimKeepsChars(value);
    CharsOneLine(value, content);
  }

  lemma CharsOfLine(line: string)
    requires !HasControl(line)
    ensures forall c :: c in line ==> !IsControl(c)
  {
  }

  lemma CharsOneLine(value: string, content: string)
    requires OneLine(value) && forall c :: c in content ==> c in value
    ensures OneLine(content)
  {
    hide IsLineTerminator;
    forall k | 0 <= k < |content|
      ensures !IsLineTerminator(content[k])
    {
      assert content[k] in content;
    }
  }

  lemma OpenerIsPlain(content: string)
    requires content != "" && content[0] in {'[', '{'}
    ensures !IsSpace(content[0]) && content[0] != '#' && content[0] != '-' && content != "..."
    ensures IndentOf(content) == Some(0) && SeqItem(content).None?
  {
    assert content[0] != '.';
  }

  lemma KeyLineOfText(content: string)
    requires content != "" && content[0] in {'[', '{'} && OneLine(content)
    ensures ColonEndsKey(content) ==>
      ParseKeyLine(content) == Key(Trim(content[..FirstColon(content)]), Trim(content[FirstColon(content) + 1..]))
    ensures !ColonEndsKey(content) ==> ParseKeyLine(content) == NotKey
  {
    hide IsSpace, ParseQuoted, IndexOf, Trim, Captured, OneLine;
    OpenerIsPlain(content);
    var colon := FirstColon(content);
    if colon < |content| {
      CapturedAfter(content, colon);
    }
  }

  lemma CapturedAfter(content: string, colon: nat)
    requires OneLine(content) && colon < |content|
    ensures var after := content[colon + 1..];
      && Captured(after).Some? == (after == "" || after[0] == ' ' || after[0] == '\t')
      && (Captured(after).Some? ==> Trim(Captured(after).value) == Trim(after))
  {
    var after := content[colon + 1..];
    TrimDropsBlanks(after, 0);
    hide Trim, IsLineTerminator;
    var rest := after[SkipBlanks(after, 0)..];
    assert rest == content[colon + 1 + SkipBlanks(after, 0)..];
  }

  lemma TokenOfText(content: string)
    requires content != "" && content[0] in {'[', '{'} && Trim(content) == content
    ensures ScalarToken(content) == Some(Str(content))
  {
    hide Trim, DigitsValue, DecimalValue, DoubleLimit, SignedInt, UnquoteIfQuoted;
    assert UnquoteIfQuoted(content) == None by { NotQuoted(content); }
    assert Unsigned(content) == content && !IsDigit(content[0]);
    assert !AllDigits(content);
    assert !IsDecimal(content) by {
      var dot := IndexOf(content, '.', 0);
      assert dot < |content| && dot > 0 ==> content[..dot][0] == content[0];
    }
  }

  lemma NotQuoted(content: string)
    requires content != "" && content[0] in {'[', '{'}
    ensures UnquoteIfQuoted(content) == None
  {
  }

  // ── Read as text ──────────────────────────────────────────────────────────

  lemma TextItem(lines: seq<string>, i: nat, ind: nat, content: string, out: seq<Value>)
    requires AtFlowItem(lines, i, ind, content) && BlockEnds(lines, i + 1, ind + 1) && !ColonEndsKey(content)
    ensures ParseSequence(lines, i, ind, out) == ParseSequence(lines, i + 1, ind, out + [Str(content)])
  {
    hide ParseSequence, ScalarToken, Gather, Peek, IndentOf, SeqItem, Trim, ParseKeyLine, Significant, BlockEnds;
    hide ColonEndsKey;
    hide OneLine, IsSpace;
    ItemText(lines, i, ind, content);
    KeyLineOfText(content);
    TokenOfText(content);
    GatherStops(lines, i + 1, content, ind, " ");
    PeekLine(lines, i);
    ScalarStep(lines, i, ind, content, Str(content), i + 1, out);
  }

  // ── Read as a mapping ─────────────────────────────────────────────────────

  lemma BlockStops(lines: seq<string>, j: nat, owner: nat)
    requires BlockEnds(lines, j, owner + 1)
    ensures ReadBlock(lines, j, owner, None, []) == Got([], j)
  {
    hide IndentOf, HasControl, Trim;
  }

  lemma ValueStops(lines: seq<string>, j: nat, rest: string, col: nat)
    requires BlockEnds(lines, j, col)
    ensures ParseValueAfterKey(lines, j, rest, col)
         == match AfterColon(rest) { case None => Fail case Some(v) => Got(v, j) }
  {
    BlockEndsFurther(lines, j, col, col + 1);
    GatherStops(lines, j, rest, col, "");
    GatherStops(lines, j, rest, col, " ");
    BlockStops(lines, j, col);
    PeekEnds(lines, j, col);
    TrimNothing();
    hide Gather, ReadBlock, ScalarToken, Peek, IndentOf, SeqItem, BlockHeader, ParseFlow, Trim, ParseSequence;
    hide ParseMapping;
    hide Significant, BlockEnds;
  }

  /** The line with the dash and the blanks before the text overwritten. */
  lemma RewrittenLine(lines: seq<string>, i: nat, ind: nat, content: string, col: nat)
    requires AtFlowItem(lines, i, ind, content)
    ensures var line := Spaces(col) + content;
      Significant(line) && IndentOf(line) == Some(col) && |line| == col + |content| && line[col..] == content
  {
    hide Trim, IndentOf, Spaces, IsControl, IsSpace, SeqItem, HasControl;
    ItemText(lines, i, ind, content);
    TrimSpaces(col, content);
    OpenerIsPlain(content);
    SpacesIndent(col, content);
    Indented(col, content);
    NoControlBehind(col, content);
  }

  lemma NoControlBehind(col: nat, content: string)
    requires forall c :: c in content ==> !IsControl(c)
    ensures !HasControl(Spaces(col) + content)
  {
    SpacesLength(col);
    var line := Spaces(col) + content;
    forall k | 0 <= k < |line|
      ensures !IsControl(line[k])
    {
      if k >= col {
        assert line[k] == content[k - col];
      }
    }
  }

  lemma KeyItem(lines: seq<string>, i: nat, ind: nat, content: string, out: seq<Value>)
    requires AtFlowItem(lines, i, ind, content) && BlockEnds(lines, i + 1, ind + 1) && ColonEndsKey(content)
    ensures ParseSequence(lines, i, ind, out)
         == match FlowItem(content) { case None => Fail case Some(v) => ParseSequence(lines, i + 1, ind, out + [v]) }
  {
    ItemText(lines, i, ind, content);
    KeyLineOfText(content);
    PeekLine(lines, i);
    var col := ItemColumn(lines[i], ind);
    KeyItemMapping(lines, i, ind, content, col);
    hide AfterColon, Peek, IndentOf, SeqItem, Trim, ParseKeyLine, ParseMapping, ParseBareItem, Spaces, ItemColumn;
    hide FinishScalar;
    hide Significant, BlockEnds, ColonEndsKey, OneLine, IsSpace;
  }

  /** Reading a mapping at line `j`, whose one key is followed by `rest` and by no further line. */
  lemma OneKeyReads(lines: seq<string>, j: nat, col: nat, key: string, rest: string)
    requires j < |lines| && Peek(lines, j) == Line(j) && IndentOf(lines[j]) == Some(col)
    requires SeqItem(lines[j][col..]).None? && ParseKeyLine(lines[j][col..]) == Key(key, rest)
    requires BlockEnds(lines, j + 1, col)
    ensures ParseMapping(lines, j, col, [])
         == match AfterColon(rest) { case None => Fail case Some(v) => Got(Map([(key, v)]), j + 1) }
  {
    hide AfterColon, Peek, IndentOf, SeqItem, Trim, ParseKeyLine, ParseValueAfterKey, BlockEnds;
    ValueStops(lines, j + 1, rest, col);
    if AfterColon(rest).Some? {
      var v := AfterColon(rest).value;
      KeyStep(lines, j, col, key, rest, v, j + 1, []);
      MappingEnds(lines, j + 1, col, [(key, v)]);
    }
  }

  lemma KeyItemMapping(lines: seq<string>, i: nat, ind: nat, content: string, col: nat)
    requires AtFlowItem(lines, i, ind, content) && BlockEnds(lines, i + 1, ind + 1) && ColonEndsKey(content)
    requires ind < col
    ensures ParseMapping(lines[i := Spaces(col) + content], i, col, [])
         == match FlowItem(content) { case None => Fail case Some(v) => Got(v, i + 1) }
  {
    hide AfterColon, Peek, IndentOf, SeqItem, Trim, ParseKeyLine, ParseMapping, Spaces, Significant, OneLine, IsSpace;
    var lines' := lines[i := Spaces(col) + content];
    RewrittenLine(lines, i, ind, content, col);
    PeekLine(lines', i);
    ItemText(lines, i, ind, content);
    KeyLineOfText(content);
    OpenerIsPlain(content);
    BlockEndsFurther(lines, i + 1, ind + 1, col);
    OneKeyReads(lines', i, col, Trim(content[..FirstColon(content)]), Trim(content[FirstColon(content) + 1..]));
  }

  /**
   * An item whose one-line text opens a flow collection is never read as that collection: it is read as text,
   * unless the first colon in it is followed by a blank or the end, when it is read as a mapping of one key.
   */
  lemma FlowItemReads(lines: seq<string>, i: nat, ind: nat, content: string, out: seq<Value>)
    requires AtFlowItem(lines, i, ind, content) && BlockEnds(lines, i + 1, ind + 1)
    ensures ParseSequence(lines, i, ind, out)
         == match FlowItem(content) { case None => Fail case Some(v) => ParseSequence(lines, i + 1, ind, out + [v]) }
  {
    hide BlockEnds, ParseSequence, Significant, IndentOf, SeqItem, Trim, ColonEndsKey;
    if ColonEndsKey(content) {
      KeyItem(lines, i, ind, content, out);
    } else {
      TextItem(lines, i, ind, content, out);
    }
  }

  // ── Never the collection ──────────────────────────────────────────────────

  lemma {:induction false} ItemsAreList(s: string, start: nat, out: seq<Value>)
    requires start <= |s|
    ensures ParseItems(s, start, out).Ok? ==> ParseItems(s, start, out).value.List?
    decreases |s| - start
  {
    hide ParseValue, AfterItem;
    var r := ParseValue(s, start);
    if r.Ok? && AfterItem(s, r.next, ']').More? {
      ItemsAreList(s, AfterItem(s, r.next, ']').next, out + [r.value]);
    }
  }

  /** The first key stays first. */
  lemma {:induction false} FieldsKeepFirst(s: string, start: nat, out: Fields)
    requires start <= |s| && out != []
    ensures var r := ParseFields(s, start, out);
      r.Ok? ==> r.value.Map? && r.value.fields != [] && r.value.fields[0].0 == out[0].0
    decreases |s| - start
  {
    hide ParseValue, AfterItem, ParseKey, SkipSpace;
    var k := ParseKey(s, SkipSpace(s, start));
    if k.Ok? {
      var colon := SkipSpace(s, k.next);
      if colon < |s| && s[colon] == ':' {
        var r := ParseValue(s, colon + 1);
        if r.Ok? && AfterItem(s, r.next, '}').More? {
          FieldsKeepFirst(s, AfterItem(s, r.next, '}').next, PutField(out, k.value, r.value));
        }
      }
    }
  }

  lemma FirstKeyIs(s: string, i: nat)
    requires i <= |s| && SkipSpace(s, i) == i
    ensures var r := ParseFields(s, i, []);
      r.Ok? ==>
        ParseKey(s, i).Ok? && r.value.Map? && r.value.fields != [] && r.value.fields[0].0 == ParseKey(s, i).value
  {
    hide ParseValue, AfterItem, ParseKey, SkipSpace;
    var k := ParseKey(s, i);
    if k.Ok? {
      var colon := SkipSpace(s, k.next);
      if colon < |s| && s[colon] == ':' {
        var r := ParseValue(s, colon + 1);
        if r.Ok? && AfterItem(s, r.next, '}').More? {
          FieldsKeepFirst(s, AfterItem(s, r.next, '}').next, PutField([], k.value, r.value));
        }
      }
    }
  }

  lemma {:induction false} UnescapeKeeps(s: string, c: char)
    requires c in s && c != '\\'
    ensures c in Unescape(s)
  {
    if s[0] == '\\' && |s| > 1 && !IsLineTerminator(s[1]) {
      assert s == [s[0], s[1]] + s[2..];
      if s[1] != c {
        UnescapeKeeps(s[2..], c);
      }
    } else {
      assert s == [s[0]] + s[1..];
      if s[0] != c {
        UnescapeKeeps(s[1..], c);
      }
    }
  }

  lemma {:induction false} UndoubleKeeps(s: string, c: char)
    requires c in s && c != '\''
    ensures c in UndoubleQuotes(s)
  {
    if s[0] == '\'' && |s| > 1 && s[1] == '\'' {
      assert s == [s[0], s[1]] + s[2..];
      UndoubleKeeps(s[2..], c);
    } else {
      assert s == [s[0]] + s[1..];
      if s[0] != c {
        UndoubleKeeps(s[1..], c);
      }
    }
  }

  lemma {:induction false} UnescapeShrinks(s: string)
    ensures |Unescape(s)| <= |s| && |UndoubleQuotes(s)| <= |s|
  {
    hide IsLineTerminator;
    if s != "" {
      UnescapeShrinks(s[1..]);
      if |s| > 1 {
        UnescapeShrinks(s[2..]);
      }
    }
  }

  /** A quoted token is longer than its text, and the text holds a colon if the token does. */
  lemma UnquotedText(token: string)
    requires UnquoteIfQuoted(token).Some?
    ensures |UnquoteIfQuoted(token).value| < |token| && (':' in token ==> ':' in UnquoteIfQuoted(token).value)
  {
    hide Unescape, UndoubleQuotes, TrailingBackslashes;
    var inner := token[1..|token| - 1];
    UnescapeShrinks(inner);
    assert token == [token[0]] + inner + [token[|token| - 1]];
    if ':' in token {
      assert ':' in inner;
      UnescapeKeeps(inner, ':');
      UndoubleKeeps(inner, ':');
    }
  }

  lemma {:induction false} TrimEndKeeps(s: string, k: nat)
    requires k < |s| && !IsSpace(s[k])
    ensures k < |TrimEnd(s)|
  {
    if IsSpace(s[|s| - 1]) {
      TrimEndKeeps(s[..|s| - 1], k);
    }
  }

  /** The text up to the first colon, as a key, against the first key inside the braces. */
  lemma KeysDiffer(content: string, i: nat)
    requires content != "" && ColonEndsKey(content) && content[0] == '{' && i == SkipSpace(content, 1)
    requires ParseKey(content, i).Ok?
    ensures ParseKey(content, i).value != Trim(content[..FirstColon(content)])
  {
    hide Trim, UnquoteIfQuoted, QuotedEnd, IsSpace;
    var colon := FirstColon(content);
    var front := content[..colon];
    KeyBegins(content, colon);
    TrimKeepsChars(front);
    if i < |content| && content[i] in {'"', '\''} {
      var end := ParseKey(content, i).next;
      var token := content[i..end];
      UnquotedText(token);
      BlanksBefore(content, 1);
      if end <= colon {
        QuoteEnds(token);
        assert token[|token| - 1] == content[end - 1];
        TrimReaches(front, end - 1);
      } else {
        assert colon >= i by { BlankIsNoColon(content, i, colon); }
        assert token[colon - i] == ':';
      }
    } else {
      var end := ScanTo(content, KEY_STOPS, i);
      TrimKeepsChars(content[i..end]);
      if Trim(content[i..end]) != "" {
        assert Trim(content[i..end])[0] in content[i..end];
      }
    }
  }

  lemma KeyBegins(content: string, colon: nat)
    requires content != "" && content[0] == '{' && 1 <= colon <= |content|
    ensures Trim(content[..colon]) != "" && Trim(content[..colon])[0] == '{'
  {
    assert !IsSpace('{');
    TrimEndKeeps(content[..colon], 0);
  }

  lemma QuoteEnds(token: string)
    requires UnquoteIfQuoted(token).Some?
    ensures |token| >= 2 && !IsSpace(token[|token| - 1])
  {
  }

  lemma TrimReaches(s: string, k: nat)
    requires s != "" && s[0] == '{' && k < |s| && !IsSpace(s[k])
    ensures k < |Trim(s)|
  {
    TrimEndKeeps(s, k);
  }

  lemma {:induction false} BlanksBefore(s: string, i: nat)
    requires i <= |s|
    ensures forall k :: i <= k < SkipSpace(s, i) ==> IsSpace(s[k])
    decreases |s| - i
  {
    if i < |s| && IsSpace(s[i]) {
      BlanksBefore(s, i + 1);
    }
  }

  lemma BlankIsNoColon(content: string, i: nat, colon: nat)
    requires 1 <= i <= |content| && 1 <= colon < |content| && content[colon] == ':'
    requires forall k :: 1 <= k < i ==> IsSpace(content[k])
    ensures colon >= i
  {
  }

  lemma MapParses(content: string, i: nat)
    requires content != "" && content[0] == '{' && i == SkipSpace(content, 1)
    ensures ParseFlow(content).Some? ==>
      ParseFlow(content).value == Map([])
      || (ParseFields(content, i, []).Ok? && ParseFlow(content).value == ParseFields(content, i, []).value)
  {
    hide ParseFields, ParseItems, ParseQuoted, InterpretScalar, Trim;
    OpenerIsPlain(content);
    assert ParseValue(content, 0) == ParseMap(content, 0);
    assert i < |content| && content[i] == '}' ==> ParseMap(content, 0) == Ok(Map([]), i + 1);
  }

  lemma SeqParses(content: string, i: nat)
    requires content != "" && content[0] == '[' && i == SkipSpace(content, 1)
    ensures ParseFlow(content).Some? ==> ParseFlow(content).value.List?
  {
    hide ParseFields, ParseItems, ParseQuoted, InterpretScalar, Trim;
    OpenerIsPlain(content);
    assert ParseValue(content, 0) == ParseSeq(content, 0);
    ItemsAreList(content, i, []);
  }

  /** What such an item is read as is not the collection its text writes. */
  lemma NeverTheCollection(content: string)
    requires content != "" && content[0] in {'[', '{'}
    ensures FlowItem(content).Some? ==> FlowItem(content) != ParseFlow(content)
  {
    hide ParseFlow, ParseFields, ParseKey, AfterColon, Trim, ColonEndsKey;
    var i := SkipSpace(content, 1);
    if content[0] == '[' {
      SeqParses(content, i);
    } else {
      MapParses(content, i);
      FirstKeyIs(content, i);
      if ColonEndsKey(content) && FlowItem(content).Some? {
        assert FlowItem(content).value.Map? && |FlowItem(content).value.fields| == 1;
        assert FlowItem(content).value.fields[0].0 == Trim(content[..FirstColon(content)]);
        if ParseKey(content, i).Ok? {
          KeysDiffer(content, i);
        }
      }
    }
  }
}

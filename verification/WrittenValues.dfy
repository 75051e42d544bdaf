/**
 * The lines the editor writes for a value, seen by the guard's reader: a value whose parts hold no line break is read
 * back as itself exactly when each part comes back, on the key's line or as an item of a list.
 */
module WrittenValues {
  import opened JsString
  import opened Splitting
  import opened AcceptGuard
  import opened FlowModel
  import opened BlockModel
  import opened BlockLines
  import opened BlockSound
  import opened BlockWindow
  import opened TopFields
  import opened FieldEdits
  import opened GuardedEdits
  import opened WrittenScalars
  import Edit = FrontmatterEdit
  import Lines = FrontmatterFields
  import Back = FrontmatterReadBack

  /** The value as the guard is shown it. */
  function JudgedValue(number: string -> real, value: Edit.EditValue): Value {
    match value
    case One(v) => JudgedScalar(number, v)
    case Many(items) => List(JudgedItems(number, items))
  }

  function JudgedItems(number: string -> real, items: seq<Edit.Scalar>): (r: seq<Value>)
    ensures |r| == |items| && forall k :: 0 <= k < |r| ==> r[k] == JudgedScalar(number, items[k])
  {
    seq(|items|, k requires 0 <= k < |items| => JudgedScalar(number, items[k]))
  }

  /** Its parts. */
  function Parts(value: Edit.EditValue): seq<Edit.Scalar> {
    match value
    case One(v) => [v]
    case Many(items) => items
  }

  predicate AllProper(value: Edit.EditValue) {
    forall k :: 0 <= k < |Parts(value)| ==> Proper(Parts(value)[k])
  }

  /** On the key's line: one line, no raw control character, and kept. */
  predicate ComesBack(number: string -> real, v: Edit.Scalar) {
    OneLine(Edit.Shown(v)) && !HasControl(Edit.Shown(v)) && Kept(number, v)
  }

  predicate ItemComesBack(number: string -> real, v: Edit.Scalar) {
    OneLine(Edit.Shown(v)) && !HasControl(Edit.Shown(v)) && KeptItem(number, v)
  }

  predicate ValueComesBack(number: string -> real, value: Edit.EditValue) {
    match value
    case One(v) => ComesBack(number, v)
    case Many(items) => forall k :: 0 <= k < |items| ==> ItemComesBack(number, items[k])
  }

  /** No part holds a line feed. */
  predicate Unbroken(value: Edit.EditValue) {
    forall k :: 0 <= k < |Parts(value)| ==> Free(Edit.Shown(Parts(value)[k]), '\n')
  }

  // ── On the key's line ─────────────────────────────────────────────────────

  lemma ShownIsFree(v: Edit.Scalar)
    requires Free(Edit.Shown(v), '\n')
    ensures Free(Edit.SerializeScalar(v), '\n')
  {
    hide Edit.SerializeScalar;
    ShownChars(v);
    var s := Edit.SerializeScalar(v);
    forall i | 0 <= i < |s|
      ensures s[i] != '\n'
    {
      assert s[i] in s;
    }
  }

  /** One line is written. */
  lemma ScalarIsWritten(key: string, v: Edit.Scalar)
    requires Lines.PlainKey(key) && Free(Edit.Shown(v), '\n') && Proper(v)
    ensures WrittenLines(key, Edit.One(v)) == [key + ":" + (" " + Edit.SerializeScalar(v))]
  {
    hide Edit.SerializeScalar, Split, Lines.PlainKey;
    ShownIsFree(v);
    NoCrAtEnd(v);
    Back.ScalarWritten(key, v);
    SplitWhole(Edit.SerializeScalar(v), '\n');
    var line := key + ":" + (" " + Edit.SerializeScalar(v));
    assert Back.Written(key, Edit.One(v)) == [line];
    assert StripCr(line) == line by { EndsClean(key + ":", Edit.SerializeScalar(v)); }
  }

  lemma EndsClean(front: string, s: string)
    requires StripCr(s) == s
    ensures StripCr(front + (" " + s)) == front + (" " + s)
  {
    var line := front + (" " + s);
    if s == "" {
      assert line[|line| - 1] == ' ';
    } else {
      assert line[|line| - 1] == s[|s| - 1];
    }
  }

  lemma ControlIff(front: string, v: Edit.Scalar)
    requires !HasControl(front)
    ensures HasControl(front + (" " + Edit.SerializeScalar(v))) <==> HasControl(Edit.Shown(v))
  {
    hide Edit.SerializeScalar;
    ShownChars(v);
    var s, t := Edit.Shown(v), Edit.SerializeScalar(v);
    var line := front + (" " + t);
    if i :| 0 <= i < |s| && IsControl(s[i]) {
      assert s[i] in t;
      var k :| 0 <= k < |t| && t[k] == s[i];
      assert line[|front| + 1 + k] == s[i];
    }
    assert forall k :: 0 <= k < |front| ==> line[k] == front[k];
    if k :| 0 <= k < |line| && IsControl(line[k]) {
      assert k > |front| && line[k] == t[k - |front| - 1];
      assert line[k] in t;
      var i :| 0 <= i < |s| && s[i] == line[k];
    }
  }

  lemma KeyIsClean(key: string)
    requires Lines.PlainKey(key)
    ensures !HasControl(key + ":")
  {
    assert forall i :: 0 <= i < |key| ==> Edit.IsWord(key[i]);
  }

  /** Where the key ends in its line. */
  lemma KeyEnds(key: string, rest: string)
    requires Lines.PlainKey(key)
    ensures var line := key + ":" + (" " + rest);
      && |line| > |key| && line[..|key|] == key && line[|key| + 1..] == " " + rest && IndexOf(line, ':', 1) == |key|
      && !IsSpace(line[0]) && line[0] !in {'"', '\'', '#'} && Trim(key) == key
  {
    hide Trim;
    var line := key + ":" + (" " + rest);
    assert line[..|key|] == key && line[|key| + 1..] == " " + rest && line[|key|] == ':';
    assert forall i :: 0 <= i < |key| ==> line[i] == key[i] && Edit.IsWord(key[i]);
    assert IndexOf(line, ':', 1) == |key|;
    PlainTrims(key);
  }

  lemma WrittenKeyLine(key: string, rest: string)
    requires Lines.PlainKey(key) && OneLine(rest) && (rest == "" || (!IsSpace(rest[0]) && Trim(rest) == rest))
    ensures ParseKeyLine(key + ":" + (" " + rest)) == Key(key, rest)
  {
    hide OneLine, Trim, IndexOf, IsSpace, Lines.PlainKey, Captured, ParseQuoted;
    KeyEnds(key, rest);
    CapturedRest(rest);
  }

  lemma CapturedRest(rest: string)
    requires OneLine(rest) && (rest == "" || (!IsSpace(rest[0]) && Trim(rest) == rest))
    ensures Captured(" " + rest) == Some(rest) && Trim(rest) == rest
  {
    assert (" " + rest)[1..] == rest;
    assert SkipBlanks(" " + rest, 1) == 1;
    assert Trim("") == "";
  }

  lemma ReadsOnItsLine(line: string, key: string, rest: string)
    requires ParseKeyLine(line) == Key(key, rest) && (rest == "" || (!BlockHeader(rest) && rest[0] !in {'[', '{'}))
    ensures ReadField([line])
         == if rest == "" then Some((key, Null))
            else match ScalarToken(rest) { case None => None case Some(v) => Some((key, v)) }
  {
    hide ParseKeyLine, BlockHeader, ScalarToken, Trim, HasControl;
    assert rest != "" ==> Gather([line], 1, rest, 0, " ") == Got(rest, 1);
  }

  /** Text with a line terminator in it is no remainder of a key line. */
  lemma NoKeyOverTerminator(key: string, rest: string)
    requires Lines.PlainKey(key) && !OneLine(rest)
    ensures ParseKeyLine(key + ":" + (" " + rest)) == NotKey
  {
    hide OneLine, Trim, IndexOf, IsSpace, Lines.PlainKey, Captured, ParseQuoted;
    KeyEnds(key, rest);
    NotCaptured(rest);
  }

  lemma NotCaptured(rest: string)
    requires !OneLine(rest)
    ensures Captured(" " + rest) == None
  {
    var s := " " + rest;
    var k :| 0 <= k < |rest| && IsLineTerminator(rest[k]);
    BlanksEnd(s, 0, k + 1);
    var i := SkipBlanks(s, 0);
    assert s[k + 1] == rest[k] && s[i..][k + 1 - i] == s[k + 1];
  }

  lemma {:induction false} BlanksEnd(s: string, i: nat, k: nat)
    requires i <= k < |s| && s[k] != ' ' && s[k] != '\t'
    ensures SkipBlanks(s, i) <= k
    decreases k - i
  {
    if i < k {
      BlanksEnd(s, i + 1, k);
    }
  }

  lemma TopIff(line: string, key: string)
    requires Lines.PlainKey(key) && key + ":" <= line
    ensures TopLine(line) <==> !HasControl(line)
  {
    if !HasControl(line) {
      PlainIsTop(line, key);
    }
  }

  lemma NothingShown(number: string -> real, v: Edit.Scalar)
    requires Edit.Shown(v) == "" && Proper(v)
    ensures Edit.SerializeScalar(v) == "" && v == Edit.Text("") && !Kept(number, v)
  {
  }

  /** A scalar in which no line breaks, set as a field, is read back exactly when it comes back. */
  lemma ScalarReadsBackIff(number: string -> real, key: string, v: Edit.Scalar)
    requires Lines.PlainKey(key) && Free(Edit.Shown(v), '\n') && Proper(v)
    ensures var W := WrittenLines(key, Edit.One(v));
      && NoTop(W[1..])
      && (WritesField(W, key) && ReadField(W) == Some((key, JudgedScalar(number, v))) <==> ComesBack(number, v))
  {
    hide Edit.SerializeScalar, Edit.Shown, Lines.PlainKey, OneLine, ReadField, ParseKeyLine, TopLine, HasControl;
    hide BlockHeader;
    hide ScalarToken, Trim, IsSpace, WrittenLines, Kept, Free, Proper;
    var rest := Edit.SerializeScalar(v);
    var line, W := key + ":" + (" " + rest), WrittenLines(key, Edit.One(v));
    ScalarIsWritten(key, v);
    KeyIsClean(key);
    ControlIff(key + ":", v);
    OneLineIff(v);
    TopIff(line, key);
    assert W[1..] == [];
    if OneLine(rest) {
      if Edit.Shown(v) == "" {
        NothingShown(number, v);
      } else {
        TokenIff(number, v);
      }
      WrittenKeyLine(key, rest);
      ReadsOnItsLine(line, key, rest);
      assert JudgedScalar(number, v) != Null;
    } else {
      NoKeyOverTerminator(key, rest);
    }
  }

  // ── As items of a list ────────────────────────────────────────────────────

  /** What has been read stays in front. */
  lemma {:induction false} SequenceKeeps(lines: seq<string>, i: nat, indent: nat, out: seq<Value>)
    requires i <= |lines|
    ensures var r := ParseSequence(lines, i, indent, out); r.Got? ==> r.value.List? && out <= r.value.items
    decreases |lines| - i
  {
    hide SeqItem, ParseKeyLine, ParseBareItem, ParseMapping, FinishScalar, Trim, IndentOf, ItemColumn, Spaces;
    match Peek(lines, i)
    case Line(at) =>
      if IndentOf(lines[at]) == Some(indent) && SeqItem(lines[at][indent..]).Some? {
        var r := ItemRead(lines, at, indent);
        SequenceStep(lines, i, indent, out);
        if r.Got? {
          SequenceKeeps(lines, r.next, indent, out + [r.value]);
        }
      }
    case _ =>
  }

  /** The value of the item at line `at`, whose dash stands at column `indent`. */
  function ItemRead(lines: seq<string>, at: nat, indent: nat): (r: Read<Value>)
    requires at < |lines| && IndentOf(lines[at]) == Some(indent) && SeqItem(lines[at][indent..]).Some?
    ensures r.Got? ==> at < r.next <= |lines|
  {
    var content := Trim(SeqItem(lines[at][indent..]).value);
    if content == "" then ParseBareItem(lines, at + 1, indent)
    else
      match ParseKeyLine(content)
      case BadKey => Fail
      case NotKey => FinishScalar(lines, at + 1, content, indent)
      case Key(_, _) =>
        var col := ItemColumn(lines[at], indent);
        var rewritten := Spaces(col) + content;
        SpacesIndent(col, content);
        assert lines[at := rewritten][at] == rewritten;
        ParseMapping(lines[at := rewritten], at, col, [])
  }

  lemma SequenceStep(lines: seq<string>, i: nat, indent: nat, out: seq<Value>)
    requires i <= |lines| && Peek(lines, i).Line?
    requires var at := Peek(lines, i).at; IndentOf(lines[at]) == Some(indent) && SeqItem(lines[at][indent..]).Some?
    ensures var r := ItemRead(lines, Peek(lines, i).at, indent);
      ParseSequence(lines, i, indent, out)
      == if r.Fail? then Fail else ParseSequence(lines, r.next, indent, out + [r.value])
  {
    hide Peek, SeqItem, ParseKeyLine, ParseBareItem, ParseMapping, FinishScalar, Trim, IndentOf, ItemColumn, Spaces;
  }

  function ItemLine(v: Edit.Scalar): string {
    "  - " + Edit.SerializeScalar(v)
  }

  lemma ItemLineStarts(v: Edit.Scalar)
    ensures var line, s := ItemLine(v), Edit.SerializeScalar(v);
      && line == "  -" + (" " + s) && line[2..] == "- " + s && line[2..][1..] == " " + s && IndentOf(line) == Some(2)
  {
    hide Edit.SerializeScalar;
    var line, s := ItemLine(v), Edit.SerializeScalar(v);
    assert line[1..] == " - " + s && line[1..][1..] == line[2..];
    assert IndentOf(line[2..]) == Some(0);
    assert IndentOf(line[1..]) == Some(1);
  }

  /** The line of an item, as the guard's reader takes it apart: a line terminator in it makes it no item. */
  lemma ItemLineIs(v: Edit.Scalar)
    requires !HasControl(Edit.Shown(v)) && Proper(v)
    ensures var line, s := ItemLine(v), Edit.SerializeScalar(v);
      && Significant(line) && IndentOf(line) == Some(2) && |line| >= 2
      && SeqItem(line[2..]) == (if OneLine(s) then Some(s) else None) && (OneLine(s) ==> Trim(s) == s)
  {
    hide Edit.SerializeScalar, Edit.Shown, Trim, HasControl, OneLine, BlockHeader, ScalarToken, Kept, Captured;
    hide IndentOf, Proper;
    var line, s := ItemLine(v), Edit.SerializeScalar(v);
    ItemLineStarts(v);
    ControlIff("  -", v) by { DashIsClean(); }
    DashIsSignificant(line);
    OneLineIff(v);
    if !OneLine(s) {
      NotCaptured(s);
    } else if Edit.Shown(v) == "" {
      NothingShown(_ => 0.0, v);
      NothingTrimmed();
      CapturedRest(s);
    } else {
      TokenIff(_ => 0.0, v);
      CapturedRest(s);
    }
  }

  lemma NothingTrimmed()
    ensures Trim("") == ""
  {
  }

  lemma DashIsClean()
    ensures !HasControl("  -")
  {
  }

  lemma DashIsSignificant(line: string)
    requires "  - " <= line
    ensures Trim(line) != "" && Trim(line)[0] == '-' && Trim(line) != "..."
  {
    assert line[0] == ' ' && line[1] == ' ' && line[2] == '-' && line[1..][0] == ' ' && line[2..][0] == '-';
    assert line[1..][1..] == line[2..];
    assert TrimStart(line) == TrimStart(line[1..]) == line[2..];
    TrimEndKeepsFirst(line[2..]);
  }

  /** An item that is kept is read as itself, and any other as something else, or it is refused. */
  lemma ItemReadIff(number: string -> real, lines: seq<string>, at: nat, v: Edit.Scalar)
    requires at < |lines| && lines[at] == ItemLine(v) && BlockEnds(lines, at + 1, 3)
    requires OneLine(Edit.Shown(v)) && !HasControl(Edit.Shown(v)) && Proper(v)
    ensures IndentOf(lines[at]) == Some(2) && SeqItem(lines[at][2..]).Some?
    ensures var r := ItemRead(lines, at, 2);
      if KeptItem(number, v) then r == Got(JudgedScalar(number, v), at + 1)
      else r.Got? ==> r.value != JudgedScalar(number, v)
  {
    hide ItemLine, OneLine, Trim, HasControl, ParseKeyLine, Edit.SerializeScalar, Edit.Shown, Kept, ClosesEarly;
    hide ScalarToken;
    hide SeqItem, Gather, Peek, ParseMapping, ItemColumn, Spaces, BlockHeader, IndentOf, BlockEnds, Significant, Proper;
    ItemLineIs(v);
    OneLineIff(v);
    var content := Edit.SerializeScalar(v);
    if Edit.Shown(v) == "" {
      NothingShown(number, v);
      BareItemIsNull(lines, at + 1);
    } else {
      TokenIff(number, v);
      if Kept(number, v) {
        ItemIsNoKeyIff(number, v);
      }
      GatherStops(lines, at + 1, content, 2, " ");
      if ParseKeyLine(content).Key? {
        var col := ItemColumn(lines[at], 2);
        MappingIsMap(lines[at := Spaces(col) + content], at, col, []);
      }
    }
  }

  lemma BareItemIsNull(lines: seq<string>, i: nat)
    requires i <= |lines| && BlockEnds(lines, i, 3)
    ensures ParseBareItem(lines, i, 2) == Got(Null, i)
  {
    PeekEnds(lines, i, 3);
    hide Peek, IndentOf, Significant, ParseNested;
  }

  /** One step of the list: the item and the rest, or something else in its place. */
  lemma ListStep(number: string -> real, lines: seq<string>, i: nat, v: Edit.Scalar, rest: seq<Edit.Scalar>,
                 out: seq<Value>)
    requires i < |lines| && lines[i] == ItemLine(v) && BlockEnds(lines, i + 1, 3)
    requires !HasControl(Edit.Shown(v)) && Proper(v)
    ensures var r := ParseSequence(lines, i, 2, out);
      if OneLine(Edit.Shown(v)) && KeptItem(number, v) then
        r == ParseSequence(lines, i + 1, 2, out + [JudgedScalar(number, v)])
      else r.Got? ==> r.value != List(out + JudgedItems(number, [v] + rest))
  {
    hide ItemLine, OneLine, HasControl, KeptItem, Peek, IndentOf, SeqItem, ItemRead, Significant, ParseSequence;
    hide BlockEnds;
    hide JudgedScalar, Edit.Shown, Edit.SerializeScalar, Proper;
    ItemLineIs(v);
    OneLineIff(v);
    PeekLine(lines, i);
    var judged := JudgedItems(number, [v] + rest);
    assert judged[0] == JudgedScalar(number, v);
    if !OneLine(Edit.Shown(v)) {
      NoItemStops(lines, i, out);
      assert |out + judged| > |out|;
    } else {
      ItemReadIff(number, lines, i, v);
      SequenceStep(lines, i, 2, out);
      var r := ItemRead(lines, i, 2);
      if !KeptItem(number, v) && r.Got? {
        SequenceKeeps(lines, r.next, 2, out + [r.value]);
        OtherInPlace(out, r.value, ParseSequence(lines, r.next, 2, out + [r.value]), JudgedScalar(number, v), judged);
      }
    }
  }

  lemma NoItemStops(lines: seq<string>, i: nat, out: seq<Value>)
    requires i < |lines| && Peek(lines, i) == Line(i) && IndentOf(lines[i]) == Some(2) && SeqItem(lines[i][2..]).None?
    ensures ParseSequence(lines, i, 2, out) == Got(List(out), i)
  {
    hide Peek, IndentOf, SeqItem;
  }

  lemma OtherInPlace(out: seq<Value>, v: Value, r: Read<Value>, u: Value, us: seq<Value>)
    requires v != u && us != [] && us[0] == u && (r.Got? ==> r.value.List? && out + [v] <= r.value.items)
    ensures r.Got? ==> r.value != List(out + us)
  {
    assert (out + us)[|out|] == u;
    if r.Got? {
      assert r.value.items[|out|] == (out + [v])[|out|] == v;
    }
  }

  predicate AllKept(number: string -> real, items: seq<Edit.Scalar>) {
    forall k :: 0 <= k < |items| ==> OneLine(Edit.Shown(items[k])) && KeptItem(number, items[k])
  }

  /** The last lines are those of the items, without raw control characters. */
  predicate ItemsAt(lines: seq<string>, i: nat, items: seq<Edit.Scalar>) {
    && i + |items| == |lines|
    && (forall k :: 0 <= k < |items| ==> lines[i + k] == ItemLine(items[k]))
    && forall k :: 0 <= k < |items| ==> !HasControl(Edit.Shown(items[k])) && Proper(items[k])
  }

  lemma ItemsSplit(number: string -> real, lines: seq<string>, i: nat, items: seq<Edit.Scalar>)
    requires ItemsAt(lines, i, items) && items != []
    ensures i < |lines| && lines[i] == ItemLine(items[0]) && !HasControl(Edit.Shown(items[0])) && Proper(items[0])
    ensures ItemsAt(lines, i + 1, items[1..])
    ensures AllKept(number, items)
       <==> OneLine(Edit.Shown(items[0])) && KeptItem(number, items[0]) && AllKept(number, items[1..])
    ensures [JudgedScalar(number, items[0])] + JudgedItems(number, items[1..]) == JudgedItems(number, items)
  {
    hide ItemLine, OneLine, HasControl, KeptItem, JudgedScalar, Edit.Shown, Proper;
    assert lines[i + 0] == ItemLine(items[0]);
    assert items == [items[0]] + items[1..];
  }

  lemma Associate(out: seq<Value>, v: Value, rest: seq<Value>)
    ensures out + [v] + rest == out + ([v] + rest)
  {
  }

  /** The list read to line `end`, if it is to be; otherwise another value, or a refusal. */
  predicate ReadsList(r: Read<Value>, kept: bool, items: seq<Value>, end: nat) {
    if kept then r == Got(List(items), end) else r.Got? ==> r.value != List(items)
  }

  /** The items from line `i` on are read as those they were written for exactly when all of these are kept. */
  lemma {:induction false} ItemsReadIff(number: string -> real, lines: seq<string>, i: nat, items: seq<Edit.Scalar>,
                                        out: seq<Value>)
    requires i <= |lines| && ItemsAt(lines, i, items)
    ensures ReadsList(ParseSequence(lines, i, 2, out), AllKept(number, items), out + JudgedItems(number, items),
                      |lines|)
    decreases |items|
  {
    hide ItemLine, OneLine, HasControl, KeptItem, ParseSequence, BlockEnds, ItemsAt, AllKept, JudgedItems, JudgedScalar;
    hide Edit.Shown, Proper;
    if items == [] {
      NoItems(number, lines, i, items, out);
    } else {
      ItemsSplit(number, lines, i, items);
      NextItem(lines, i, items);
      ListStep(number, lines, i, items[0], items[1..], out);
      assert items == [items[0]] + items[1..];
      if OneLine(Edit.Shown(items[0])) && KeptItem(number, items[0]) {
        ItemsReadIff(number, lines, i + 1, items[1..], out + [JudgedScalar(number, items[0])]);
        Associate(out, JudgedScalar(number, items[0]), JudgedItems(number, items[1..]));
      }
    }
  }

  lemma NoItems(number: string -> real, lines: seq<string>, i: nat, items: seq<Edit.Scalar>, out: seq<Value>)
    requires i <= |lines| && ItemsAt(lines, i, items) && items == []
    ensures ReadsList(ParseSequence(lines, i, 2, out), AllKept(number, items), out + JudgedItems(number, items),
                      |lines|)
  {
    hide ItemLine, KeptItem;
    assert out + JudgedItems(number, items) == out;
  }

  lemma NextItem(lines: seq<string>, i: nat, items: seq<Edit.Scalar>)
    requires items != [] && ItemsAt(lines, i, items)
    ensures BlockEnds(lines, i + 1, 3)
  {
    hide ItemLine, OneLine, HasControl, Significant, IndentOf, Proper, Edit.Shown;
    if |items| > 1 {
      assert lines[i + 1] == ItemLine(items[1]);
      ItemLineIs(items[1]);
    }
  }

  // ── The list as a field ───────────────────────────────────────────────────

  lemma {:induction false} LinesOfItems(items: seq<Edit.Scalar>)
    ensures var lines := Edit.ItemLines(items);
      |lines| == |items| && forall k :: 0 <= k < |lines| ==> lines[k] == ItemLine(items[k])
  {
    hide Edit.SerializeScalar;
    if items != [] {
      LinesOfItems(items[1..]);
    }
  }

  lemma ItemLineIsFree(v: Edit.Scalar)
    requires Free(Edit.Shown(v), '\n') && Proper(v)
    ensures Free(ItemLine(v), '\n') && StripCr(ItemLine(v)) == ItemLine(v)
  {
    hide Edit.SerializeScalar, StripCr, Proper;
    ShownIsFree(v);
    NoCrAtEnd(v);
    var s := Edit.SerializeScalar(v);
    assert ItemLine(v) == "  -" + (" " + s) == "  - " + s;
    EndsClean("  -", s);
    FreeBehind(s);
  }

  lemma FreeBehind(s: string)
    requires Free(s, '\n')
    ensures Free("  - " + s, '\n')
  {
  }

  /** A key line and a line for each item are written. */
  lemma ListIsWritten(key: string, items: seq<Edit.Scalar>)
    requires Lines.PlainKey(key) && items != [] && AllProper(Edit.Many(items)) && Unbroken(Edit.Many(items))
    ensures WrittenLines(key, Edit.Many(items)) == [key + ":"] + Edit.ItemLines(items)
  {
    hide Split, Lines.PlainKey, OneLine, Edit.ItemLines, ItemLine, Free, Join, StripCr, Edit.Shown, Proper;
    var below := Edit.ItemLines(items);
    Back.PlainKeyIsFree(key);
    LinesOfItems(items);
    forall k | 0 <= k < |below|
      ensures Free(below[k], '\n') && StripCr(below[k]) == below[k]
    {
      assert Free(Edit.Shown(Parts(Edit.Many(items))[k]), '\n') && Proper(Parts(Edit.Many(items))[k]);
      ItemLineIsFree(items[k]);
    }
    assert Edit.SerializeKey(key, Edit.Many(items)) == (key + ":") + ['\n'] + Join(below, '\n');
    SplitFirst(key + ":", '\n', Join(below, '\n'));
    SplitJoin(below, '\n');
    assert StripCr(key + ":") == key + ":" by { ColonStays(key); }
    var written := [key + ":"] + below;
    assert Back.Written(key, Edit.Many(items)) == written;
    assert forall k :: 0 <= k < |written| ==> StripCr(written[k]) == written[k];
  }

  lemma ColonStays(key: string)
    ensures StripCr(key + ":") == key + ":"
  {
  }

  lemma BareKeyLine(key: string)
    requires Lines.PlainKey(key)
    ensures ParseKeyLine(key + ":") == Key(key, "") && TopLine(key + ":") && KeyOf(key + ":") == Some(key)
  {
    var line := key + ":";
    hide Trim, HasControl, TopLine;
    assert line[..|key|] == key && line[|key| + 1..] == "" && line[|key|] == ':';
    assert forall i :: 0 <= i < |key| ==> line[i] == key[i] && Edit.IsWord(key[i]);
    assert IndexOf(line, ':', 1) == |key|;
    NothingTrimmed();
    PlainTrims(key);
    KeyIsClean(key);
    PlainIsTop(line, key);
  }

  lemma ItemsAreNoTop(key: string, items: seq<Edit.Scalar>)
    ensures NoTop(([key + ":"] + Edit.ItemLines(items))[1..])
  {
    hide ItemLine, Significant;
    LinesOfItems(items);
    var below := Edit.ItemLines(items);
    assert ([key + ":"] + below)[1..] == below;
    forall k | 0 <= k < |below|
      ensures !TopLine(below[k])
    {
      assert below[k] == ItemLine(items[k]);
      ItemIsNoTop(items[k]);
    }
  }

  lemma ItemIsNoTop(v: Edit.Scalar)
    ensures !TopLine(ItemLine(v))
  {
    hide Edit.SerializeScalar, Significant;
    assert ItemLine(v)[0] == ' ';
  }

  /** A key line without a value over an indented line: the list, or the mapping, that begins there. */
  lemma NestedField(W: seq<string>, key: string)
    requires |W| > 1 && ParseKeyLine(W[0]) == Key(key, "") && Peek(W, 1) == Line(1) && IndentOf(W[1]) == Some(2)
    ensures var r := if SeqItem(W[1][2..]).Some? then ParseSequence(W, 1, 2, []) else ParseMapping(W, 1, 2, []);
      ReadField(W) == if r.Got? && Peek(W, r.next) == End then Some((key, r.value)) else None
  {
    hide Peek, IndentOf, SeqItem, ParseKeyLine, ParseSequence, ParseMapping;
  }

  lemma WrittenItemsAt(key: string, items: seq<Edit.Scalar>)
    requires items != [] && AllProper(Edit.Many(items))
    requires forall k :: 0 <= k < |items| ==> !HasControl(Edit.Shown(items[k]))
    ensures var W := [key + ":"] + Edit.ItemLines(items);
      && |W| > 1 && ItemsAt(W, 1, items) && Peek(W, 1) == Line(1) && IndentOf(W[1]) == Some(2) && Peek(W, |W|) == End
      && (SeqItem(W[1][2..]).Some? <==> OneLine(Edit.Shown(items[0])))
  {
    hide ItemLine, OneLine, HasControl, Significant, IndentOf, SeqItem, Edit.ItemLines, Edit.Shown, Proper, Peek;
    var W := [key + ":"] + Edit.ItemLines(items);
    LinesOfItems(items);
    assert forall k :: 0 <= k < |items| ==> Parts(Edit.Many(items))[k] == items[k];
    assert W[1] == ItemLine(items[0]);
    ItemLineIs(items[0]);
    OneLineIff(items[0]);
    PeekLine(W, 1);
    PeekEnd(W);
  }

  /** The list written, read from its key line. */
  lemma ListFieldReads(number: string -> real, key: string, items: seq<Edit.Scalar>)
    requires Lines.PlainKey(key) && items != [] && AllProper(Edit.Many(items))
    requires forall k :: 0 <= k < |items| ==> !HasControl(Edit.Shown(items[k]))
    ensures ReadField([key + ":"] + Edit.ItemLines(items)) == Some((key, List(JudgedItems(number, items))))
       <==> AllKept(number, items)
  {
    hide ItemLine, OneLine, KeptItem, ParseKeyLine, ParseSequence, ParseMapping, IndentOf, SeqItem, HasControl, ItemsAt;
    hide Edit.ItemLines, Edit.Shown, JudgedItems, Proper, ReadField, Peek, Lines.PlainKey, AllProper;
    var W := [key + ":"] + Edit.ItemLines(items);
    BareKeyLine(key);
    WrittenItemsAt(key, items);
    NestedField(W, key);
    if OneLine(Edit.Shown(items[0])) {
      hide AllKept;
      ItemsReadIff(number, W, 1, items, []);
      assert [] + JudgedItems(number, items) == JudgedItems(number, items);
    } else {
      MappingIsMap(W, 1, 2, []);
    }
  }

  lemma EmptyListReads(key: string)
    requires Lines.PlainKey(key)
    ensures var W := WrittenLines(key, Edit.Many([]));
      NoTop(W[1..]) && WritesField(W, key) && ReadField(W) == Some((key, List([])))
  {
    hide Lines.PlainKey, TopLine, HasControl, ParseKeyLine, OneLine, Trim, IsSpace;
    var line, W := key + ":" + (" " + "[]"), WrittenLines(key, Edit.Many([]));
    Back.EmptyListWritten(key);
    EmptyBrackets();
    assert " " + "[]" == " []";
    assert W == [line] by { EndsClean(key + ":", "[]"); }
    WrittenKeyLine(key, "[]");
    assert Gather([line], 1, "[]", 0, "") == Got("[]", 1);
    KeyIsClean(key);
    assert !HasControl(line) by { BracketsClean(key + ":"); }
    TopIff(line, key);
    assert W[1..] == [];
  }

  lemma EmptyBrackets()
    ensures Trim("[]") == "[]" && OneLine("[]") && !IsSpace('[') && StripCr("[]") == "[]"
    ensures ParseFlow("[]") == Some(List([])) && !BlockHeader("[]")
  {
  }

  lemma BracketsClean(front: string)
    requires !HasControl(front)
    ensures !HasControl(front + (" " + "[]"))
  {
    var line := front + (" " + "[]");
    assert forall k :: 0 <= k < |front| ==> line[k] == front[k];
  }

  /** A list in whose items no line breaks is read back exactly when each of them comes back as an item. */
  lemma ListReadsBackIff(number: string -> real, key: string, items: seq<Edit.Scalar>)
    requires Lines.PlainKey(key) && AllProper(Edit.Many(items)) && Unbroken(Edit.Many(items))
    ensures var W, value := WrittenLines(key, Edit.Many(items)), Edit.Many(items);
      && NoTop(W[1..])
      && (WritesField(W, key) && ReadField(W) == Some((key, JudgedValue(number, value)))
          <==> ValueComesBack(number, value))
  {
    hide Lines.PlainKey, OneLine, ReadField, ParseKeyLine, TopLine, HasControl, KeptItem, WrittenLines, KeyOf, ItemLine;
    hide Edit.ItemLines, Edit.Shown, JudgedScalar, Free, Proper;
    if items == [] {
      EmptyListReads(key);
      assert JudgedItems(number, items) == [];
    } else {
      var W := [key + ":"] + Edit.ItemLines(items);
      ListIsWritten(key, items);
      BareKeyLine(key);
      ItemsAreNoTop(key, items);
      if k :| 0 <= k < |items| && HasControl(Edit.Shown(items[k])) {
        LinesOfItems(items);
        assert W[k + 1] == ItemLine(items[k]);
        ItemControl(items[k]);
        if ReadField(W).Some? {
          FieldIsClean(W);
        }
      } else {
        ListFieldReads(number, key, items);
      }
    }
  }

  lemma ItemControl(v: Edit.Scalar)
    ensures HasControl(ItemLine(v)) <==> HasControl(Edit.Shown(v))
  {
    hide HasControl, Edit.SerializeScalar;
    DashIsClean();
    ControlIff("  -", v);
    assert ItemLine(v) == "  -" + (" " + Edit.SerializeScalar(v));
  }

  /**
   * What is written for a value in whose parts no line breaks: one field, read back exactly when the value comes back.
   */
  lemma ReadsBackIff(number: string -> real, key: string, value: Edit.EditValue)
    requires Lines.PlainKey(key) && AllProper(value) && Unbroken(value)
    ensures var W := WrittenLines(key, value);
      && NoTop(W[1..])
      && (WritesField(W, key) && ReadField(W) == Some((key, JudgedValue(number, value)))
          <==> ValueComesBack(number, value))
  {
    hide Lines.PlainKey, WrittenLines, ReadField, WritesField, ComesBack, ItemComesBack, NoTop, Proper;
    match value
    case One(v) =>
      assert Parts(value)[0] == v;
      ScalarReadsBackIff(number, key, v);
    case Many(items) => ListReadsBackIff(number, key, items);
  }
}

/** What setting a field achieves: when the lines written are the lines found for the key afterwards. */
module FrontmatterReadBack {
  import opened JsString
  import opened Splitting
  import opened Fence
  import opened FrontmatterEdit
  import opened FrontmatterFields

  predicate Terminated(s: string) {
    exists i :: 0 <= i < |s| && IsLineTerminator(s[i])
  }

  /** What `String(n)` gives: digits, letters, signs and points. */
  predicate NumberText(s: string) {
    s != "" && forall i :: 0 <= i < |s| ==> IsWord(s[i]) || s[i] in {'+', '.'}
  }

  predicate NumbersShown(value: EditValue) {
    value.One? && value.v.Number? ==> NumberText(value.v.shown)
  }

  function Written(key: string, value: EditValue): (r: seq<string>)
    ensures r != []
  {
    Split(SerializeKey(key, value), '\n')
  }

  /** A scalar without line terminators; or a list whose items put only list items on further lines. */
  predicate OneShape(key: string, value: EditValue) {
    match value
    case One(v) => !Terminated(Shown(v))
    case Many(_) => forall i :: 0 < i < |Written(key, value)| ==> IsListItem(Written(key, value)[i])
  }

  /** The line would be taken for a continuation of the value written above it. */
  predicate Extends(value: EditValue, line: string) {
    match value
    case One(v) => Shown(v) == "" && (IsListItem(line) || IsIndented(line))
    case Many(items) => items != [] && IsListItem(line)
  }

  /** Such a line stands right below the lines replaced. */
  predicate StrayBelow(lines: seq<string>, key: string, value: EditValue) {
    match FindKeyRange(lines, key, 0)
    case Found(_, end) => end < |lines| && Extends(value, lines[end])
    case _ => false
  }

  // ── The first line written ────────────────────────────────────────────────

  lemma KeyIsPlain(line: string, key: string)
    requires IsKey(line, key)
    ensures PlainKey(key) && key + ":" <= line
  {
    WordsBefore(line, 0);
  }

  lemma {:induction false} WordsBefore(s: string, i: nat)
    requires i <= |s|
    ensures forall j :: i <= j < WordEnd(s, i) ==> IsWord(s[j])
    decreases |s| - i
  {
    if i < |s| && IsWord(s[i]) {
      WordsBefore(s, i + 1);
    }
  }

  /** A line beginning with a plain key and a colon is the key's line unless the rest, trimmed, holds a terminator. */
  lemma PlainKeyLine(key: string, rest: string)
    requires PlainKey(key)
    ensures IsKey(key + ":" + rest, key) <==> !Terminated(Trim(rest))
    ensures IsKey(key + ":" + rest, key) ==> ParseKey(key + ":" + rest).value.raw == Trim(rest)
  {
    var line := key + ":" + rest;
    assert line[|key|] == ':' && forall i :: 0 <= i < |key| ==> line[i] == key[i];
    WordEndAt(line, 0, |key|);
    hide Trim, IsWord, IsWordStart;
    assert line[..|key|] == key && line[|key| + 1..] == rest;
  }

  lemma SplitBehind(a: string, b: string, c: char)
    requires Free(a, c)
    ensures Split(a + b, c) == [a + Split(b, c)[0]] + Split(b, c)[1..]
  {
    hide Split, IndexOf;
    var k := IndexOf(b, c, 0);
    if k == |b| {
      SplitWhole(b, c);
      SplitWhole(a + b, c);
    } else {
      var front, rest := b[..k], b[k + 1..];
      assert b == front + [c] + rest && a + b == (a + front) + [c] + rest;
      SplitFirst(front, c, rest);
      SplitFirst(a + front, c, rest);
    }
  }

  lemma PlainKeyIsFree(key: string)
    requires PlainKey(key)
    ensures Free(key + ":", '\n') && Free(key, '\n')
  {
  }

  // ── Scalars ───────────────────────────────────────────────────────────────

  lemma {:induction false} EscapeKeepsTerminators(s: string)
    ensures Terminated(EscapeQuotes(s)) <==> Terminated(s)
  {
    if s != "" {
      EscapeKeepsTerminators(s[1..]);
      TerminatedHead([s[0]], s[1..]);
      assert s == [s[0]] + s[1..];
      var head := if s[0] == '"' then "\\\"" else [s[0]];
      TerminatedHead(head, EscapeQuotes(s[1..]));
      assert Terminated(head) <==> Terminated([s[0]]) by {
        assert !IsLineTerminator("\\\""[0]) && !IsLineTerminator("\\\""[1]);
      }
    }
  }

  lemma TerminatedHead(a: string, b: string)
    ensures Terminated(a + b) <==> Terminated(a) || Terminated(b)
  {
    assert forall i :: 0 <= i < |a| ==> (a + b)[i] == a[i];
    assert forall i :: 0 <= i < |b| ==> (a + b)[|a| + i] == b[i];
  }

  /**
   * Serialized text neither begins nor ends with white space, begins with no mark of another shape, and keeps
   * terminators.
   */
  lemma SerializedText(v: Scalar)
    requires v.Number? ==> NumberText(v.shown)
    ensures var sv := SerializeScalar(v);
      && (sv == "" <==> Shown(v) == "") && (Terminated(sv) <==> Terminated(Shown(v)))
      && (sv != "" ==> !IsSpace(sv[0]) && !IsSpace(sv[|sv| - 1]) && sv[0] !in {'|', '>', '{'})
  {
    match v
    case Flag(on) =>
    case Number(shown) =>
    case Text(s) =>
      if NeedsQuoting(s) {
        EscapeKeepsTerminators(s);
        TerminatedHead("\"", EscapeQuotes(s));
        TerminatedHead("\"" + EscapeQuotes(s), "\"");
        assert !Terminated("\"");
      }
  }

  lemma BlankBefore(s: string)
    ensures Trim(" " + s) == Trim(s)
  {
  }

  /** Text with a line feed inside begins with a line that is not blank. */
  lemma FirstPart(s: string)
    requires s != "" && !IsSpace(s[0])
    ensures var part := Split(s, '\n')[0]; part != "" && Trim(part) != "" && (Free(s, '\n') ==> Split(s, '\n') == [s])
    ensures !Free(s, '\n') ==> |Split(s, '\n')| > 1 && Terminated(s)
  {
    var k := IndexOf(s, '\n', 0);
    assert k > 0;
    EndsAtFirst(s[..k]);
    hide Trim, IsSpace;
    assert s[..|s|] == s;
  }

  // ── What is found for the lines written ───────────────────────────────────

  /** What is found for a key begins with a line of that key. */
  lemma {:induction false} ScanHead(lines: seq<string>, key: string)
    ensures Scan(lines, key).Lines? ==> Scan(lines, key).lines != [] && IsKey(Scan(lines, key).lines[0], key)
  {
    hide IsKey, IsListItem, IsIndented;
    if lines != [] && !IsKey(lines[0], key) {
      ScanHead(lines[1..], key);
    }
  }

  lemma {:induction false} AllItems(lines: seq<string>, j: nat)
    requires j <= |lines|
    ensures ItemsEnd(lines, j) == |lines| <==> forall i :: j <= i < |lines| ==> IsListItem(lines[i])
    decreases |lines| - j
  {
    hide IsListItem;
    if j < |lines| {
      AllItems(lines, j + 1);
    }
  }

  /** The range found from the key's line covers exactly the lines written. */
  lemma RangeIsWritten(written: seq<string>, post: seq<string>, raw: string)
    requires written != []
    ensures raw != "" ==>
      (ScanAt(written + post, raw) == Lines(written) <==> raw[0] !in {'|', '>', '{'} && |written| == 1)
    ensures raw == "" && |written| == 1 ==>
      (ScanAt(written + post, raw) == Lines(written) <==> post == [] || (!IsListItem(post[0]) && !IsIndented(post[0])))
    ensures raw == "" && |written| > 1 ==>
      (ScanAt(written + post, raw) == Lines(written)
       <==> (forall i :: 0 < i < |written| ==> IsListItem(written[i])) && (post == [] || !IsListItem(post[0])))
  {
    hide IsListItem, IsIndented;
    ItemsGoOn(written, post, 1);
    AllItems(written, 1);
    assert forall e :: 0 <= e <= |written| ==> (written + post)[..e] == written[..e];
  }

  lemma ScanFirst(lines: seq<string>, key: string)
    requires lines != [] && IsKey(lines[0], key)
    ensures ParseKey(lines[0]).Some? && Scan(lines, key) == ScanAt(lines, ParseKey(lines[0]).value.raw)
  {
  }

  lemma ScalarReadsBackIff(key: string, v: Scalar, post: seq<string>)
    requires PlainKey(key) && (v.Number? ==> NumberText(v.shown))
    ensures Scan(Written(key, One(v)) + post, key) == Lines(Written(key, One(v)))
       <==> OneShape(key, One(v)) && !(post != [] && Extends(One(v), post[0]))
  {
    hide IsKey, IsListItem, IsIndented, Trim, Split, IsSpace, Terminated, SerializeScalar, Shown, PlainKey, ParseKey;
    hide ScanAt, Scan;
    var sv := SerializeScalar(v);
    var part := Split(sv, '\n')[0];
    var written := Written(key, One(v));
    SerializedText(v);
    ScalarWritten(key, v);
    PlainKeyLine(key, " " + part);
    BlankBefore(part);
    if sv == "" {
      EmptyParts();
    } else {
      FirstPart(sv);
      WholeTrim(sv);
    }
    if IsKey(written[0], key) {
      ScanFirst(written + post, key);
      RangeIsWritten(written, post, Trim(part));
    } else {
      ScanHead(written + post, key);
    }
  }

  lemma EmptyParts()
    ensures Split("", '\n') == [""] && Trim("") == "" && !Terminated("")
  {
  }

  lemma WholeTrim(s: string)
    requires s != "" && !IsSpace(s[0]) && !IsSpace(s[|s| - 1])
    ensures Trim(s) == s
  {
  }

  lemma ScalarWritten(key: string, v: Scalar)
    requires PlainKey(key)
    ensures var parts := Split(SerializeScalar(v), '\n');
      Written(key, One(v)) == [key + ":" + (" " + parts[0])] + parts[1..]
  {
    hide Split, SerializeScalar, PlainKey;
    var sv := SerializeScalar(v);
    PlainKeyIsFree(key);
    assert key + ": " + sv == (key + ":") + (" " + sv);
    SplitBehind(key + ":", " " + sv, '\n');
    SplitBehind(" ", sv, '\n');
  }

  lemma ListWritten(key: string, items: seq<Scalar>)
    requires PlainKey(key) && items != []
    ensures Written(key, Many(items))[0] == key + ":" && |Written(key, Many(items))| > 1
  {
    hide Split, PlainKey;
    PlainKeyIsFree(key);
    assert SerializeKey(key, Many(items)) == (key + ":") + ['\n'] + Join(ItemLines(items), '\n');
    SplitFirst(key + ":", '\n', Join(ItemLines(items), '\n'));
  }

  lemma EmptyListWritten(key: string)
    requires PlainKey(key)
    ensures Written(key, Many([])) == [key + ":" + " []"] && Trim(" []") == "[]" && !Terminated("[]")
  {
    hide Split, PlainKey;
    PlainKeyIsFree(key);
    assert key + ": []" == (key + ":") + " []";
    SplitBehind(key + ":", " []", '\n');
    SplitWhole(" []", '\n');
    BlankBefore("[]");
    assert " " + "[]" == " []";
  }

  lemma ListReadsBackIff(key: string, items: seq<Scalar>, post: seq<string>)
    requires PlainKey(key)
    ensures Scan(Written(key, Many(items)) + post, key) == Lines(Written(key, Many(items)))
       <==> OneShape(key, Many(items)) && !(post != [] && Extends(Many(items), post[0]))
  {
    hide IsKey, IsListItem, IsIndented, Trim, Written, Terminated, PlainKey, ParseKey, ScanAt, Scan;
    var written := Written(key, Many(items));
    if items == [] {
      EmptyListWritten(key);
      PlainKeyLine(key, " []");
      ScanFirst(written + post, key);
      RangeIsWritten(written, post, "[]");
    } else {
      ListWritten(key, items);
      EmptyParts();
      PlainKeyLine(key, "");
      assert key + ":" + "" == key + ":";
      ScanFirst(written + post, key);
      RangeIsWritten(written, post, "");
    }
  }

  /** The lines written for a key are the lines then found for it, under this condition and no other. */
  lemma SetReadsBackIff(lines: seq<string>, key: string, value: EditValue)
    requires lines != [] && SetLines(lines, key, value).Some? && NumbersShown(value)
    ensures FieldOf(SetLines(lines, key, value).value, key) == Lines(Written(key, value))
       <==> PlainKey(key) && OneShape(key, value) && !StrayBelow(lines, key, value)
  {
    hide IsKey, IsListItem, IsIndented, Scan, Written, OneShape, Extends, PlainKey;
    var written, after := Written(key, value), SetLines(lines, key, value).value;
    var r := FindKeyRange(lines, key, 0);
    var pre := if r.Found? then lines[..r.start] else Without(lines);
    var post := if r.Found? then lines[r.end..] else [];
    FirstKey(lines, key, 0);
    assert after == pre + (written + post) by { SetParts(lines, key, value); }
    ScanIsFind(after, key, 0);
    assert after[0..] == after;
    ScanPast(pre, written + post, key);
    if PlainKey(key) {
      match value
      case One(v) => ScalarReadsBackIff(key, v, post);
      case Many(items) => ListReadsBackIff(key, items, post);
    } else {
      ScanHead(written + post, key);
      if IsKey(written[0], key) {
        KeyIsPlain(written[0], key);
      }
    }
  }

  lemma SetParts(lines: seq<string>, key: string, value: EditValue)
    requires lines != [] && SetLines(lines, key, value).Some?
    ensures var r, written := FindKeyRange(lines, key, 0), Written(key, value);
      var pre := if r.Found? then lines[..r.start] else Without(lines);
      SetLines(lines, key, value).value == pre + (written + if r.Found? then lines[r.end..] else [])
  {
  }

  /** A list of one-line items always has the shape. */
  lemma OneLineItemsHaveOneShape(key: string, items: seq<Scalar>)
    requires PlainKey(key) && OneLineValue(Many(items))
    ensures OneShape(key, Many(items))
  {
    if items == [] {
      EmptyListWritten(key);
    } else {
      hide Split, SerializeScalar, PlainKey, IsListItem;
      PlainKeyIsFree(key);
      ItemLinesShape(items);
      assert SerializeKey(key, Many(items)) == (key + ":") + ['\n'] + Join(ItemLines(items), '\n');
      SplitFirst(key + ":", '\n', Join(ItemLines(items), '\n'));
      SplitJoin(ItemLines(items), '\n');
      forall i | 0 < i < |Written(key, Many(items))|
        ensures IsListItem(Written(key, Many(items))[i])
      {
        DashIsItem(ItemLines(items)[i - 1]);
      }
    }
  }

  lemma DashIsItem(line: string)
    requires "  - " <= line
    ensures IsListItem(line)
  {
    assert line[0] == ' ' && line[1] == ' ' && line[2] == '-' && line[3] == ' ';
    assert Blanks(line, 2) == 2;
  }
}

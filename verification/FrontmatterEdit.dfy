/** The line editor of frontmatter fields: one key's lines are replaced or removed, all others stay. */
module FrontmatterEdit {
  import opened JsString
  import opened Splitting
  import opened Fence

  datatype Scalar = Text(s: string) | Flag(on: bool) | Number(shown: string)

  datatype EditValue = One(v: Scalar) | Many(items: seq<Scalar>)

  // ── Serializers ───────────────────────────────────────────────────────────

  const SPECIAL := {',', ':', '#', '&', '*', '!', '|', '>', '\'', '"', '%', '@', '`', '{', '}', '[', ']'}

  predicate NeedsQuoting(s: string) {
    s != "" && (IsSpace(s[0]) || IsSpace(s[|s| - 1]) || exists i :: 0 <= i < |s| && s[i] in SPECIAL)
  }

  function EscapeQuotes(s: string): string {
    if s == "" then "" else (if s[0] == '"' then "\\\"" else [s[0]]) + EscapeQuotes(s[1..])
  }

  function SerializeScalar(v: Scalar): string {
    match v
    case Flag(on) => if on then "true" else "false"
    case Number(shown) => shown
    case Text(s) => if NeedsQuoting(s) then "\"" + EscapeQuotes(s) + "\"" else s
  }

  function ItemLines(items: seq<Scalar>): seq<string> {
    if items == [] then [] else ["  - " + SerializeScalar(items[0])] + ItemLines(items[1..])
  }

  function SerializeKey(key: string, value: EditValue): string {
    match value
    case One(v) => key + ": " + SerializeScalar(v)
    case Many(items) => if items == [] then key + ": []" else key + ":\n" + Join(ItemLines(items), '\n')
  }

  // ── Finding a key ─────────────────────────────────────────────────────────

  predicate IsWordStart(c: char) {
    'A' <= c <= 'Z' || 'a' <= c <= 'z' || c == '_'
  }

  predicate IsWord(c: char) {
    IsWordStart(c) || '0' <= c <= '9' || c == '-'
  }

  function WordEnd(s: string, i: nat): (k: nat)
    requires i <= |s|
    ensures i <= k <= |s|
    decreases |s| - i
  {
    if i < |s| && IsWord(s[i]) then WordEnd(s, i + 1) else i
  }

  datatype KeyLine = KeyLine(key: string, raw: string)

  /** `KEY_LINE_RE`: a plain key, and what stands between it and the end of the line, trimmed. */
  function ParseKey(line: string): Option<KeyLine> {
    if line == "" || !IsWordStart(line[0]) then None
    else
      var k := WordEnd(line, 0);
      if k == |line| || line[k] != ':' then None
      else
        var raw := Trim(line[k + 1..]);
        if exists i :: 0 <= i < |raw| && IsLineTerminator(raw[i]) then None else Some(KeyLine(line[..k], raw))
  }

  predicate IsKey(line: string, key: string) {
    ParseKey(line).Some? && ParseKey(line).value.key == key
  }

  function Blanks(s: string, i: nat): (k: nat)
    requires i <= |s|
    ensures i <= k <= |s|
    decreases |s| - i
  {
    if i < |s| && IsSpace(s[i]) then Blanks(s, i + 1) else i
  }

  /** `/^\s+-\s/`. */
  predicate IsListItem(line: string) {
    var k := Blanks(line, 0);
    k > 0 && k + 1 < |line| && line[k] == '-' && IsSpace(line[k + 1])
  }

  /** `/^\s+\S/`. */
  predicate IsIndented(line: string) {
    0 < Blanks(line, 0) < |line|
  }

  function ItemsEnd(lines: seq<string>, j: nat): (k: nat)
    requires j <= |lines|
    ensures j <= k <= |lines|
    decreases |lines| - j
  {
    if j < |lines| && IsListItem(lines[j]) then ItemsEnd(lines, j + 1) else j
  }

  datatype KeyRange = Found(start: nat, end: nat) | Missing | Refused

  /** The lines of the key at `i`, whose text after the colon is `raw`. */
  function RangeAt(lines: seq<string>, i: nat, raw: string): (r: KeyRange)
    requires i < |lines|
    ensures r.Found? ==> r.start == i < r.end <= |lines|
  {
    if raw == "" then
      var j := ItemsEnd(lines, i + 1);
      if j > i + 1 then Found(i, j)
      else if j < |lines| && IsIndented(lines[j]) then Refused
      else Found(i, i + 1)
    else if raw[0] in {'|', '>', '{'} then Refused
    else Found(i, i + 1)
  }

  /** `findKeyRange`, from line `i` on. */
  function FindKeyRange(lines: seq<string>, key: string, i: nat): (r: KeyRange)
    requires i <= |lines|
    ensures r.Found? ==> i <= r.start < r.end <= |lines| && IsKey(lines[r.start], key)
    decreases |lines| - i
  {
    if i == |lines| then Missing
    else if IsKey(lines[i], key) then RangeAt(lines, i, ParseKey(lines[i]).value.raw)
    else FindKeyRange(lines, key, i + 1)
  }

  method FindRange(lines: seq<string>, key: string) returns (r: KeyRange)
    ensures r == FindKeyRange(lines, key, 0)
  {
    hide ParseKey, IsListItem, IsIndented;
    for i := 0 to |lines|
      invariant FindKeyRange(lines, key, i) == FindKeyRange(lines, key, 0)
    {
      if !IsKey(lines[i], key) {
        continue;
      }
      var raw := ParseKey(lines[i]).value.raw;
      if raw == "" {
        var j := i + 1;
        while j < |lines| && IsListItem(lines[j])
          invariant i < j <= |lines| && ItemsEnd(lines, j) == ItemsEnd(lines, i + 1)
        {
          j := j + 1;
        }
        if j > i + 1 {
          return Found(i, j);
        }
        if j < |lines| && IsIndented(lines[j]) {
          return Refused;
        }
        return Found(i, i + 1);
      }
      if raw[0] in {'|', '>', '{'} {
        return Refused;
      }
      return Found(i, i + 1);
    }
    return Missing;
  }

  // ── The edits ─────────────────────────────────────────────────────────────

  function Without(lines: seq<string>): seq<string>
    requires lines != []
  {
    if Trim(Last(lines)) == "" then lines[..|lines| - 1] else lines
  }

  /** The block with `key` set; None when the key's present value has a shape the editor refuses. */
  function SetLines(lines: seq<string>, key: string, value: EditValue): Option<seq<string>>
    requires lines != []
  {
    var written := Split(SerializeKey(key, value), '\n');
    match FindKeyRange(lines, key, 0)
    case Refused => None
    case Missing => Some(Without(lines) + written)
    case Found(start, end) => Some(lines[..start] + written + lines[end..])
  }

  function DeleteLines(lines: seq<string>, key: string): Option<seq<string>>
  {
    match FindKeyRange(lines, key, 0)
    case Found(start, end) => Some(lines[..start] + lines[end..])
    case _ => None
  }

  /** `[].join` is the empty text. */
  function JoinLines(lines: seq<string>): string {
    if lines == [] then "" else Join(lines, '\n')
  }

  /** `setFrontmatterField` past its guard: the text written back, or a refusal. */
  function SetField(text: string, key: string, value: EditValue): Option<string> {
    match Locate(text)
    case None => Some("---\n" + SerializeKey(key, value) + "\n---\n\n" + text)
    case Some(region) =>
      match SetLines(Split(region.block, '\n'), key, value)
      case None => None
      case Some(lines) => Some(Reassemble(region, JoinLines(lines)))
  }

  /** `deleteFrontmatterField` past its guard: the text written back, or None when nothing is written. */
  function DeleteField(text: string, key: string): Option<string> {
    match Locate(text)
    case None => None
    case Some(region) =>
      match DeleteLines(Split(region.block, '\n'), key)
      case None => None
      case Some(lines) => Some(Reassemble(region, JoinLines(lines)))
  }

  // ── Which blocks close nowhere ────────────────────────────────────────────

  predicate Dashed(line: string) {
    Dashes(line, 0)
  }

  /** No line has a closer inside, and only the first may begin with dashes. */
  ghost predicate CleanLines(lines: seq<string>) {
    && (forall i :: 0 <= i < |lines| ==> NoCloser(lines[i]))
    && (forall i :: 0 < i < |lines| ==> !Dashed(lines[i]))
  }

  lemma ClosesInTwo(a: string, b: string, i: nat)
    ensures Closes(a + ['\n'] + b, i)
         == if i < |a| then Closes(a, i) else if i == |a| then Dashed(b) else Closes(b, i - |a| - 1)
  {
  }

  /** `a`, a line feed and `b` close nowhere exactly when neither does and `b` does not begin with dashes. */
  lemma JoinTwo(a: string, b: string)
    ensures NoCloser(a + ['\n'] + b) <==> NoCloser(a) && NoCloser(b) && !Dashed(b)
  {
    hide Closes;
    var s := a + ['\n'] + b;
    ClosesInTwo(a, b, |a|);
    if NoCloser(s) {
      forall i: nat
        ensures !Closes(a, i)
      {
        ClosesInTwo(a, b, i);
        ClosesBound(a, i);
      }
      forall i: nat
        ensures !Closes(b, i)
      {
        ClosesInTwo(a, b, |a| + 1 + i);
      }
    } else {
      var i: nat :| Closes(s, i);
      ClosesInTwo(a, b, i);
    }
  }

  lemma ClosesBound(s: string, i: nat)
    ensures Closes(s, i) ==> i < |s|
  {
  }

  lemma {:induction false} JoinClean(lines: seq<string>)
    requires lines != []
    ensures NoCloser(Join(lines, '\n')) <==> CleanLines(lines)
  {
    hide Dashes, Closes;
    if |lines| > 1 {
      var rest := lines[1..];
      JoinClean(rest);
      JoinTwo(lines[0], Join(rest, '\n'));
      JoinStart(rest);
      assert forall i :: 0 < i < |lines| ==> lines[i] == rest[i - 1];
      assert forall i :: 0 <= i < |rest| ==> rest[i] == lines[i + 1];
    }
  }

  /** Joined lines begin with dashes exactly when the first does. */
  lemma JoinStart(lines: seq<string>)
    requires lines != []
    ensures Dashed(Join(lines, '\n')) == Dashed(lines[0])
  {
  }

  // ── What an edit does to the body ─────────────────────────────────────────

  /** The serialized field would open with dashes, and some line stays in front of it. */
  predicate DashedBelowAnother(block: string, key: string) {
    && "---" <= key
    && !(FindKeyRange(Split(block, '\n'), key, 0).Missing? && Without(Split(block, '\n')) == [])
  }

  lemma SerializedStart(key: string, value: EditValue)
    ensures Dashed(SerializeKey(key, value)) <==> "---" <= key
  {
  }

  /** A key line begins with a letter, so it is never the line that begins with dashes. */
  lemma KeysAreNotDashed(line: string, key: string)
    requires IsKey(line, key)
    ensures !Dashed(line) && !("---" <= key)
  {
  }

  lemma CleanAppend(a: seq<string>, b: seq<string>)
    ensures CleanLines(a + b) <==> CleanLines(a) && CleanLines(b) && (a == [] || b == [] || !Dashed(b[0]))
  {
    hide Dashed, NoCloser;
    var s := a + b;
    assert forall i :: 0 <= i < |a| ==> s[i] == a[i];
    forall i | 0 <= i < |b|
      ensures s[|a| + i] == b[i]
    {
    }
    if CleanLines(a) && CleanLines(b) && (a == [] || b == [] || !Dashed(b[0])) {
      forall i | 0 <= i < |s|
        ensures NoCloser(s[i]) && (i > 0 ==> !Dashed(s[i]))
      {
        if i >= |a| {
          assert s[i] == b[i - |a|];
        }
      }
    }
  }

  lemma CleanSlice(lines: seq<string>, i: nat, j: nat)
    requires i <= j <= |lines| && CleanLines(lines)
    ensures CleanLines(lines[i..j]) && (0 < i < j ==> !Dashed(lines[i..j][0]))
  {
  }

  /** Cutting lines out from `start` to `end` leaves two clean parts, the second not beginning with dashes. */
  lemma CleanCut(lines: seq<string>, start: nat, end: nat)
    requires start < end <= |lines| && CleanLines(lines)
    ensures CleanLines(lines[..start]) && CleanLines(lines[end..])
    ensures lines[end..] != [] ==> !Dashed(lines[end..][0])
  {
  }

  /** The lines an edit writes back close nowhere exactly when the serialized field neither holds nor makes a closer. */
  lemma SetLinesClean(block: string, key: string, value: EditValue)
    requires NoCloser(block) && SetLines(Split(block, '\n'), key, value).Some?
    ensures CleanLines(SetLines(Split(block, '\n'), key, value).value)
       <==> NoCloser(SerializeKey(key, value)) && !DashedBelowAnother(block, key)
  {
    hide CleanLines, SerializeKey, ParseKey, Dashed;
    var lines := Split(block, '\n');
    var written := Split(SerializeKey(key, value), '\n');
    SplitClean(block);
    SplitClean(SerializeKey(key, value));
    SerializedStart(key, value);
    SplitStart(SerializeKey(key, value));
    match FindKeyRange(lines, key, 0)
    case Missing =>
      var kept := Without(lines);
      CleanSlice(lines, 0, |kept|);
      CleanAppend(kept, written);
    case Found(start, end) =>
      KeysAreNotDashed(lines[start], key);
      CleanCut(lines, start, end);
      CleanAppend(lines[..start], written);
      CleanAppend(lines[..start] + written, lines[end..]);
  }

  lemma SplitClean(block: string)
    ensures NoCloser(block) <==> CleanLines(Split(block, '\n'))
  {
    JoinSplit(block, '\n');
    JoinClean(Split(block, '\n'));
  }

  lemma SplitStart(s: string)
    ensures Dashed(s) == Dashed(Split(s, '\n')[0])
  {
  }

  lemma JoinLinesClean(lines: seq<string>)
    ensures NoCloser(JoinLines(lines)) <==> CleanLines(lines)
  {
    if lines != [] {
      JoinClean(lines);
    }
  }

  /**
   * Setting a field on a fenced note leaves its body as read exactly when the serialized field holds no
   * closer of its own, and does not put a key that begins with dashes below another line.
   */
  lemma SetKeepsBodyIff(text: string, key: string, value: EditValue)
    requires Locate(text).Some? && SetField(text, key, value).Some?
    ensures BodyOf(SetField(text, key, value).value) == BodyOf(text)
       <==> NoCloser(SerializeKey(key, value)) && !DashedBelowAnother(Locate(text).value.block, key)
  {
    hide BodyOf, Locate, SerializeKey, FindKeyRange, CleanLines, NoCloser, Reassemble, DashedBelowAnother;
    var region := Locate(text).value;
    var lines := SetLines(Split(region.block, '\n'), key, value).value;
    LocatedBlockIsClean(text);
    SetLinesClean(region.block, key, value);
    JoinLinesClean(lines);
    ReassembledBody(text, JoinLines(lines));
  }

  /** Deleting a field never changes the body as read. */
  lemma DeleteKeepsBody(text: string, key: string)
    requires DeleteField(text, key).Some?
    ensures BodyOf(DeleteField(text, key).value) == BodyOf(text)
  {
    hide BodyOf, Locate, ParseKey, CleanLines, NoCloser, Reassemble;
    var region := Locate(text).value;
    var lines := Split(region.block, '\n');
    var range := FindKeyRange(lines, key, 0);
    LocatedBlockIsClean(text);
    SplitClean(region.block);
    CleanCut(lines, range.start, range.end);
    CleanAppend(lines[..range.start], lines[range.end..]);
    JoinLinesClean(lines[..range.start] + lines[range.end..]);
    ReassembledBody(text, JoinLines(lines[..range.start] + lines[range.end..]));
  }

  /** Setting a field on a note without frontmatter puts its whole text, behind one blank line, into the body. */
  lemma NewFieldBodyIff(text: string, key: string, value: EditValue)
    requires Locate(text).None?
    ensures SetField(text, key, value).Some?
    ensures BodyOf(SetField(text, key, value).value) == "\n" + text <==> NoCloser(SerializeKey(key, value))
  {
    NewFrontmatterBody(SerializeKey(key, value), text);
  }

  // ── One-line keys and values ──────────────────────────────────────────────

  predicate OneLine(s: string) {
    forall i :: 0 <= i < |s| ==> !IsBreak(s[i])
  }

  function Shown(v: Scalar): string {
    match v
    case Flag(on) => if on then "true" else "false"
    case Number(shown) => shown
    case Text(s) => s
  }

  /** No part of the value holds a line break. */
  predicate OneLineValue(value: EditValue) {
    match value
    case One(v) => OneLine(Shown(v))
    case Many(items) => forall i :: 0 <= i < |items| ==> OneLine(Shown(items[i]))
  }

  lemma {:induction false} EscapedOneLine(s: string)
    requires OneLine(s)
    ensures OneLine(EscapeQuotes(s))
  {
    if s != "" {
      EscapedOneLine(s[1..]);
    }
  }

  lemma ScalarOneLine(v: Scalar)
    requires OneLine(Shown(v))
    ensures OneLine(SerializeScalar(v))
  {
    if v.Text? {
      EscapedOneLine(v.s);
    }
  }

  lemma OneLineClosesNowhere(s: string)
    requires OneLine(s)
    ensures NoCloser(s)
  {
  }

  lemma {:induction false} ItemsClean(items: seq<Scalar>)
    requires forall i :: 0 <= i < |items| ==> OneLine(Shown(items[i]))
    ensures CleanLines(ItemLines(items)) && (items != [] ==> ItemLines(items) != [] && !Dashed(ItemLines(items)[0]))
  {
    hide SerializeScalar;
    if items != [] {
      ItemsClean(items[1..]);
      ScalarOneLine(items[0]);
      var first := "  - " + SerializeScalar(items[0]);
      OneLineClosesNowhere(first);
      CleanAppend([first], ItemLines(items[1..]));
    }
  }

  /** A one-line key with a value free of line breaks serializes to text that closes nowhere. */
  lemma SerializedClean(key: string, value: EditValue)
    requires OneLine(key) && OneLineValue(value)
    ensures NoCloser(SerializeKey(key, value))
  {
    hide SerializeScalar;
    match value
    case One(v) =>
      ScalarOneLine(v);
      OneLineClosesNowhere(SerializeKey(key, value));
    case Many(items) =>
      if items == [] {
        OneLineClosesNowhere(SerializeKey(key, value));
      } else {
        ItemsClean(items);
        var body := ItemLines(items);
        JoinClean(body);
        JoinStart(body);
        OneLineClosesNowhere(key + ":");
        assert SerializeKey(key, value) == (key + ":") + ['\n'] + Join(body, '\n');
        JoinTwo(key + ":", Join(body, '\n'));
      }
  }

  /** A one-line field whose key does not begin with dashes never moves the body. */
  lemma OneLineFieldKeepsBody(text: string, key: string, value: EditValue)
    requires Locate(text).Some? && SetField(text, key, value).Some?
    requires OneLine(key) && !("---" <= key) && OneLineValue(value)
    ensures BodyOf(SetField(text, key, value).value) == BodyOf(text)
  {
    hide BodyOf, SetField, Locate, SerializeKey;
    SerializedClean(key, value);
    SetKeepsBodyIff(text, key, value);
  }
}

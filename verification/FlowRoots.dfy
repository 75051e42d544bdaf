/**
 * Frontmatter that is one flow collection, edited by lines. A flow collection is read up to its closing bracket
 * whatever follows, and text behind it is refused: a key set there for the first time leaves a note the guard cannot
 * read.
 */
module FlowRoots {
  import opened JsString
  import opened Splitting
  import opened AcceptGuard
  import opened FlowModel
  import opened FlowItems
  import opened BlockModel
  import opened BlockWindow
  import opened TopFields
  import opened FieldEdits
  import opened GuardedEdits
  import opened GuardedTexts
  import opened ClosedNotes
  import opened Fence
  import Edit = FrontmatterEdit
  import Lines = FrontmatterFields

  // ── Reading depends on no later text ──────────────────────────────────────

  /** The first `n` characters are the same. */
  predicate Agree(s: string, t: string, n: nat) {
    n <= |s| && n <= |t| && forall k :: 0 <= k < n ==> s[k] == t[k]
  }

  lemma {:induction false} SkipAgrees(s: string, t: string, i: nat, n: nat)
    requires Agree(s, t, n) && i <= n && SkipSpace(s, i) < n
    ensures SkipSpace(t, i) == SkipSpace(s, i)
    decreases n - i
  {
    if IsSpace(s[i]) {
      SkipAgrees(s, t, i + 1, n);
    }
  }

  lemma {:induction false} ScanAgrees(s: string, t: string, stops: set<char>, i: nat, n: nat)
    requires Agree(s, t, n) && i <= n && ScanTo(s, stops, i) < n
    ensures ScanTo(t, stops, i) == ScanTo(s, stops, i)
    decreases n - i
  {
    if s[i] !in stops {
      ScanAgrees(s, t, stops, i + 1, n);
    }
  }

  lemma {:induction false} QuotedAgrees(s: string, t: string, q: char, j: nat, n: nat)
    requires Agree(s, t, n) && j <= n && QuotedEnd(s, q, j).Some? && QuotedEnd(s, q, j).value < n
    ensures QuotedEnd(t, q, j) == QuotedEnd(s, q, j)
    decreases n - j
  {
    if q == '"' && s[j] == '\\' && j + 1 < |s| {
      QuotedAgrees(s, t, q, j + 2, n);
    } else if s[j] != q {
      QuotedAgrees(s, t, q, j + 1, n);
    } else if q == '\'' && j + 1 < |s| && s[j + 1] == '\'' {
      QuotedAgrees(s, t, q, j + 2, n);
    }
  }

  lemma TokenAgrees(s: string, t: string, i: nat, n: nat)
    requires Agree(s, t, n) && i < n && ParseQuoted(s, i).Ok? && ParseQuoted(s, i).next < n
    ensures ParseQuoted(t, i) == ParseQuoted(s, i)
  {
    hide UnquoteIfQuoted;
    QuotedAgrees(s, t, s[i], i + 1, n);
    var end := ParseQuoted(s, i).next;
    assert s[i..end] == t[i..end];
  }

  lemma KeyAgrees(s: string, t: string, i: nat, n: nat)
    requires Agree(s, t, n) && i <= n && ParseKey(s, i).Ok? && ParseKey(s, i).next < n
    ensures ParseKey(t, i) == ParseKey(s, i)
  {
    hide ParseQuoted, Trim;
    if s[i] in {'"', '\''} {
      TokenAgrees(s, t, i, n);
    } else {
      ScanAgrees(s, t, KEY_STOPS, i, n);
      var end := ParseKey(s, i).next;
      assert s[i..end] == t[i..end];
    }
  }

  lemma AfterAgrees(s: string, t: string, start: nat, close: char, n: nat)
    requires Agree(s, t, n) && start <= n && !AfterItem(s, start, close).Malformed?
    requires match AfterItem(s, start, close) { case More(k) => k < n case Closed(end) => end <= n case _ => true }
    ensures start < n && AfterItem(t, start, close) == AfterItem(s, start, close)
  {
    hide IsSpace;
    var i := SkipSpace(s, start);
    SkipAgrees(s, t, start, n);
    if s[i] == ',' {
      SkipAgrees(s, t, i + 1, n);
    }
  }

  predicate Opens(s: string, i: nat)
    requires i <= |s|
  {
    SkipSpace(s, i) < |s| && s[SkipSpace(s, i)] in {'[', '{'}
  }

  lemma {:induction false} ValueAgrees(s: string, t: string, i: nat, n: nat)
    requires Agree(s, t, n) && i <= n && ParseValue(s, i).Ok?
    requires ParseValue(s, i).next < n || (ParseValue(s, i).next == n && Opens(s, i))
    ensures ParseValue(t, i) == ParseValue(s, i)
    decreases |s| - i, 0
  {
    hide ParseQuoted, InterpretScalar, Trim, ParseSeq, ParseMap, NeedsDocumentModel;
    var k := SkipSpace(s, i);
    SkipAgrees(s, t, i, n);
    if s[k] == '[' {
      SeqAgrees(s, t, k, n);
    } else if s[k] == '{' {
      MapAgrees(s, t, k, n);
    } else if s[k] in {'"', '\''} {
      TokenAgrees(s, t, k, n);
    } else {
      ScanAgrees(s, t, PLAIN_STOPS, k, n);
      var end := ScanTo(s, PLAIN_STOPS, k);
      assert s[k..end] == t[k..end];
    }
  }

  lemma {:induction false} SeqAgrees(s: string, t: string, i: nat, n: nat)
    requires Agree(s, t, n) && i < n && ParseSeq(s, i).Ok? && ParseSeq(s, i).next <= n
    ensures ParseSeq(t, i) == ParseSeq(s, i)
    decreases |s| - i - 1, 2
  {
    hide ParseItems, IsSpace;
    SkipAgrees(s, t, i + 1, n);
    var k := SkipSpace(s, i + 1);
    if s[k] != ']' {
      ItemsAgree(s, t, k, [], n);
    }
  }

  lemma {:induction false} ItemsAgree(s: string, t: string, i: nat, out: seq<Value>, n: nat)
    requires Agree(s, t, n) && i <= n && ParseItems(s, i, out).Ok? && ParseItems(s, i, out).next <= n
    ensures ParseItems(t, i, out) == ParseItems(s, i, out)
    decreases |s| - i, 1
  {
    hide ParseValue, AfterItem, Agree;
    var r := ParseValue(s, i);
    AfterAgrees(s, t, r.next, ']', n);
    ValueAgrees(s, t, i, n);
    match AfterItem(s, r.next, ']')
    case More(k) => ItemsAgree(s, t, k, out + [r.value], n);
    case _ =>
  }

  lemma {:induction false} MapAgrees(s: string, t: string, i: nat, n: nat)
    requires Agree(s, t, n) && i < n && ParseMap(s, i).Ok? && ParseMap(s, i).next <= n
    ensures ParseMap(t, i) == ParseMap(s, i)
    decreases |s| - i - 1, 2
  {
    hide ParseFields, IsSpace;
    SkipAgrees(s, t, i + 1, n);
    var k := SkipSpace(s, i + 1);
    if s[k] != '}' {
      FieldsAgree(s, t, k, [], n);
    }
  }

  lemma {:induction false} FieldsAgree(s: string, t: string, i: nat, out: Fields, n: nat)
    requires Agree(s, t, n) && i <= n && ParseFields(s, i, out).Ok? && ParseFields(s, i, out).next <= n
    ensures ParseFields(t, i, out) == ParseFields(s, i, out)
    decreases |s| - i, 1
  {
    hide ParseValue, AfterItem, ParseKey, SkipSpace, PutField;
    var k := ParseKey(s, SkipSpace(s, i));
    var colon := SkipSpace(s, k.next);
    var r := ParseValue(s, colon + 1);
    AfterAgrees(s, t, r.next, '}', n);
    SkipAgrees(s, t, i, n);
    KeyAgrees(s, t, SkipSpace(s, i), n);
    SkipAgrees(s, t, k.next, n);
    ValueAgrees(s, t, colon + 1, n);
    match AfterItem(s, r.next, '}')
    case More(next) => FieldsAgree(s, t, next, PutField(out, k.value, r.value), n);
    case _ =>
  }

  // ── Where a collection ends ───────────────────────────────────────────────

  lemma AfterEnds(s: string, start: nat, close: char)
    requires start <= |s|
    ensures AfterItem(s, start, close).Closed? ==> s[AfterItem(s, start, close).end - 1] == close
  {
    hide IsSpace;
  }

  lemma {:induction false} ItemsEnd(s: string, i: nat, out: seq<Value>)
    requires i <= |s| && ParseItems(s, i, out).Ok?
    ensures s[ParseItems(s, i, out).next - 1] == ']'
    decreases |s| - i
  {
    hide ParseValue, AfterItem;
    var r := ParseValue(s, i);
    AfterEnds(s, r.next, ']');
    match AfterItem(s, r.next, ']')
    case More(k) => ItemsEnd(s, k, out + [r.value]);
    case _ =>
  }

  lemma {:induction false} FieldsEnd(s: string, i: nat, out: Fields)
    requires i <= |s| && ParseFields(s, i, out).Ok?
    ensures s[ParseFields(s, i, out).next - 1] == '}'
    decreases |s| - i
  {
    hide ParseValue, AfterItem, ParseKey, SkipSpace, PutField;
    var k := ParseKey(s, SkipSpace(s, i));
    var r := ParseValue(s, SkipSpace(s, k.next) + 1);
    AfterEnds(s, r.next, '}');
    match AfterItem(s, r.next, '}')
    case More(next) => FieldsEnd(s, next, PutField(out, k.value, r.value));
    case _ =>
  }

  /** With its closing bracket. */
  lemma CollectionEnds(s: string)
    requires Opens(s, 0) && ParseValue(s, 0).Ok?
    ensures var end := ParseValue(s, 0).next; end > 0 && s[end - 1] in {']', '}'}
  {
    hide ParseItems, ParseFields, IsSpace;
    var i := SkipSpace(s, 0);
    var k := SkipSpace(s, i + 1);
    if s[i] == '[' {
      if !(k < |s| && s[k] == ']') {
        ItemsEnd(s, k, []);
      }
    } else if !(k < |s| && s[k] == '}') {
      FieldsEnd(s, k, []);
    }
  }

  lemma {:induction false} SkipStops(s: string, i: nat, k: nat)
    requires i <= k < |s| && !IsSpace(s[k])
    ensures SkipSpace(s, i) <= k
    decreases k - i
  {
    if IsSpace(s[i]) {
      SkipStops(s, i + 1, k);
    }
  }

  /** Where a flow collection has been read, text behind it is refused. */
  lemma TrailingTextRefused(text: string, kept: string, blank: string, more: string)
    requires text == kept + blank && (forall k :: 0 <= k < |blank| ==> IsSpace(blank[k]))
    requires Opens(text, 0) && ParseFlow(text).Some? && more != "" && !IsSpace(more[0])
    ensures ParseFlow(kept + "\n" + more) == None
  {
    hide ParseValue, IsSpace;
    var text', n, end := kept + "\n" + more, |kept|, ParseValue(text, 0).next;
    CollectionEnds(text);
    BracketsAreNoSpace();
    assert forall k :: n <= k < |text| ==> text[k] == blank[k - n];
    assert end <= n;
    assert Agree(text, text', n);
    assert text'[..n] == kept;
    ValueAgrees(text, text', 0, n);
    assert text'[n + 1] == more[0];
    SkipStops(text', end, n + 1);
  }

  lemma BracketsAreNoSpace()
    ensures !IsSpace(']') && !IsSpace('}') && !IsSpace('[') && !IsSpace('{')
  {
  }

  // ── A block that is one flow collection ───────────────────────────────────

  lemma {:induction false} JoinedParts(a: seq<string>, b: seq<string>)
    requires a != [] && b != []
    ensures JoinWith(a + b, "\n") == JoinWith(a, "\n") + "\n" + JoinWith(b, "\n")
  {
    if |a| == 1 {
      assert (a + b)[1..] == b;
    } else {
      JoinedParts(a[1..], b);
      assert (a + b)[1..] == a[1..] + b;
      var x, y := JoinWith(a[1..], "\n"), JoinWith(b, "\n");
      assert a[0] + "\n" + (x + "\n" + y) == (a[0] + "\n" + x) + "\n" + y;
    }
  }

  lemma JoinedStart(lines: seq<string>)
    requires lines != []
    ensures lines[0] <= JoinWith(lines, "\n")
  {
  }

  lemma {:induction false} IndentIsSpace(line: string)
    ensures IndentOf(line).Some? ==> forall k :: 0 <= k < IndentOf(line).value ==> line[k] == ' '
  {
    if line != "" && line[0] == ' ' {
      IndentIsSpace(line[1..]);
      assert forall k :: 1 <= k < |line| ==> line[k] == line[1..][k - 1];
    }
  }

  /** The text opens where its first line does. */
  lemma OpensBehindIndent(line: string, text: string)
    requires line <= text && IndentOf(line).Some? && RootOpens(line[IndentOf(line).value..])
    ensures Opens(text, 0)
  {
    hide IndentOf, IsSpace;
    var ind := IndentOf(line).value;
    IndentIsSpace(line);
    BracketsAreNoSpace();
    assert IsSpace(' ') by { BlankIsSpace(); }
    assert text[ind] == line[ind] && line[ind] == line[ind..][0];
    SkipStops(text, 0, ind);
    assert forall k :: 0 <= k < ind ==> IsSpace(text[k]);
  }

  lemma BlankIsSpace()
    ensures IsSpace(' ') && IsSpace('\n')
  {
  }

  lemma {:induction false} AllSpace(line: string)
    requires Trim(line) == ""
    ensures forall k :: 0 <= k < |line| ==> IsSpace(line[k])
  {
    hide IsSpace, Trim;
    forall k | 0 <= k < |line|
      ensures IsSpace(line[k])
    {
      if !IsSpace(line[k]) {
        KeptBySides(line, k);
      }
    }
  }

  lemma {:induction false} KeptBySides(s: string, k: nat)
    requires k < |s| && !IsSpace(s[k])
    ensures Trim(s) != ""
  {
    if IsSpace(s[0]) {
      KeptBySides(s[1..], k - 1);
      assert Trim(s) == Trim(s[1..]);
    } else {
      TrimKeepsFirst(s);
    }
  }

  /** Behind the lines of a flow collection, a last blank one left out, a key line and what follows is refused. */
  lemma RootRefusesMore(lines: seq<string>, kept: seq<string>, W: seq<string>, key: string)
    requires !BlockRoot(lines) && ParseFrontmatter(lines).Some?
    requires kept <= lines && |lines| <= |kept| + 1
    requires |kept| < |lines| ==> Trim(lines[|kept|]) == ""
    requires Lines.PlainKey(key) && W != [] && key + ":" <= W[0] && !BlockRoot(kept + W)
    ensures ParseFrontmatter(kept + W) == None
  {
    hide ParseFrontmatter, BlockRoot, Lines.PlainKey, ParseRoot, IndentOf, HasControl, IsIgnorable, Trim, ParseFlow;
    hide IsSpace;
    RootIsParsed(lines);
    RootIsParsed(kept + W);
    var at := Peek(lines, 0).at;
    SameStart(lines, kept, W);
    var rest, front := lines[at..], kept[at..];
    assert (kept + W)[at..] == front + W;
    RootIsFlow(rest);
    RootIsFlow(front + W);
    JoinedParts(front, W);
    JoinedStart(rest);
    JoinedStart(W);
    OpensHere(lines);
    OpensBehindIndent(lines[at], JoinWith(rest, "\n"));
    var blank := if |kept| < |lines| then "\n" + lines[|kept|] else "";
    assert JoinWith(rest, "\n") == JoinWith(front, "\n") + blank by {
      if |kept| < |lines| {
        assert rest == front + [lines[|kept|]];
        JoinedParts(front, [lines[|kept|]]);
      } else {
        assert rest == front;
      }
    }
    BlankIsSpace();
    if |kept| < |lines| {
      AllSpace(lines[|kept|]);
    }
    KeyIsNoSpace(key, JoinWith(W, "\n"));
    TrailingTextRefused(JoinWith(rest, "\n"), JoinWith(front, "\n"), blank, JoinWith(W, "\n"));
  }

  lemma KeyIsNoSpace(key: string, text: string)
    requires Lines.PlainKey(key) && key + ":" <= text
    ensures text != "" && !IsSpace(text[0])
  {
    assert text[0] == (key + ":")[0] == key[0];
  }

  /** The first significant line is not the blank one left out. */
  lemma SameStart(lines: seq<string>, kept: seq<string>, W: seq<string>)
    requires Peek(lines, 0).Line? && kept <= lines && |lines| <= |kept| + 1
    requires |kept| < |lines| ==> Trim(lines[|kept|]) == ""
    ensures var at := Peek(lines, 0).at; at < |kept| && Peek(kept + W, 0) == Line(at)
  {
    hide HasControl, Trim;
    var tail := lines[|kept|..];
    assert lines == kept + tail;
    PeekFirst(kept, tail, 0);
    PeekFirst(kept, W, 0);
  }

  lemma RootIsFlow(rest: seq<string>)
    ensures ParseRoot(rest).Some? ==> ParseFlow(JoinWith(rest, "\n")).Some?
  {
    hide HasControl, Trim, ParseFlow, JoinWith;
  }

  lemma OpensHere(lines: seq<string>)
    requires !BlockRoot(lines)
    ensures Peek(lines, 0).Line?
    ensures var line := lines[Peek(lines, 0).at]; IndentOf(line).Some? && RootOpens(line[IndentOf(line).value..])
  {
    hide Peek, IndentOf, RootOpens;
  }

  /** Setting a key the editor does not find in such a note leaves one the guard cannot read. */
  lemma NewKeyIsRefused(text: string, key: string, value: Edit.EditValue)
    requires Locate(text).Some? && GuardRead(text).Some? && !BlockRoot(Stripped(BlockLinesOf(text)))
    requires Lines.PlainKey(key) && Edit.FindKeyRange(BlockLinesOf(text), key, 0).Missing?
    ensures Edit.SetField(text, key, value).Some? && GuardRead(Edit.SetField(text, key, value).value) == None
  {
    hide Locate, ParseFrontmatter, BlockRoot, Edit.FindKeyRange, Lines.PlainKey, Stripped, Split, Trim, NoCloser;
    hide Edit.SerializeKey, CutLines, WrittenLines, KeptLines, Reassemble, Edit.CleanLines, Edit.JoinLines, GuardRead;
    var lines := BlockLinesOf(text);
    var G, kept := Stripped(lines), KeptLines(lines);
    BlockReads(text);
    KeptIs(lines);
    if NoCloser(Edit.SerializeKey(key, value)) {
      var W := WrittenLines(key, value);
      SetLinesAreClean(text, key, value);
      SetGives(lines, key, value);
      WrittenBegins(key, value);
      KeptRoot(lines, W);
      RootRefusesMore(G, kept, W, key);
      RewrittenReads(text, Edit.SetLines(lines, key, value).value);
    } else {
      var W := CutLines(key, value);
      ClosedReads(text, key, value);
      CutBegins(key, value);
      KeptRoot(lines, W);
      RootRefusesMore(G, kept, W, key);
      AboveIsKept(text, key);
    }
  }

  lemma KeptIs(lines: seq<string>)
    requires lines != []
    ensures var G, kept := Stripped(lines), KeptLines(lines);
      kept <= G && |G| <= |kept| + 1 && (|kept| < |G| ==> Trim(G[|kept|]) == "")
  {
    hide Trim, StripCr;
    StripKeepsBlank(Last(lines));
  }

  lemma AboveIsKept(text: string, key: string)
    requires Locate(text).Some? && Edit.FindKeyRange(BlockLinesOf(text), key, 0).Missing?
    ensures Stripped(LinesAbove(text, key)) == KeptLines(BlockLinesOf(text))
  {
    hide Locate, Edit.FindKeyRange, Split, Trim, Stripped;
    var lines := BlockLinesOf(text);
    StrippedSlices(lines, |lines| - 1, |lines|);
  }
}

/**
 * Values that close the fence: a line break followed by dashes, written inside the frontmatter, ends it there. What the
 * guard then reads, which keys it no longer sees, and that in a block read line by line it is never what was judged.
 */
module ClosedNotes {
  import opened JsString
  import opened Splitting
  import opened AcceptGuard
  import opened FlowModel
  import opened BlockModel
  import opened BlockSound
  import opened BlockWindow
  import opened TopFields
  import opened Assignments
  import opened FieldEdits
  import opened GuardedEdits
  import opened WrittenScalars
  import opened WrittenValues
  import opened BrokenValues
  import opened GuardedTexts
  import opened Fence
  import Edit = FrontmatterEdit
  import Lines = FrontmatterFields
  import Back = FrontmatterReadBack

  // ── The text up to the closer ─────────────────────────────────────────────

  /** The lines that stay above those written. */
  function LinesAbove(text: string, key: string): seq<string> {
    if Locate(text).None? then []
    else
      match Edit.FindKeyRange(BlockLinesOf(text), key, 0)
      case Found(start, _) => BlockLinesOf(text)[..start]
      case _ => Edit.Without(BlockLinesOf(text))
  }

  /** The serialized field up to where it first closes. */
  function CutText(key: string, value: Edit.EditValue): string {
    var serialized := Edit.SerializeKey(key, value);
    serialized[..FirstClosing(serialized, 0)]
  }

  /**
   * Its lines, as the guard's reader has them; a carriage return before the line feed that closes belongs to the
   * closer.
   */
  function CutLines(key: string, value: Edit.EditValue): (r: seq<string>)
    ensures r != []
  {
    GuardLines(if ClosedByFeed(key, value) then StripCr(CutText(key, value)) else CutText(key, value))
  }

  predicate ClosedByFeed(key: string, value: Edit.EditValue) {
    var serialized := Edit.SerializeKey(key, value);
    var q := FirstClosing(serialized, 0);
    q < |serialized| && serialized[q] == '\n'
  }

  lemma FirstClosingIs(s: string)
    requires !NoCloser(s)
    ensures var q := FirstClosing(s, 0);
      && q < |s| && IsBreak(s[q]) && NoCloser(s[..q]) && |s| >= q + 4 && s == s[..q] + [s[q]] + "---" + s[q + 4..]
  {
    var q := FirstClosing(s, 0);
    var i: nat :| Closes(s, i);
    assert q < |s|;
    assert s[q + 1..q + 4] == "---";
    assert s == s[..q] + [s[q]] + s[q + 1..q + 4] + s[q + 4..];
    forall j: nat
      ensures !Closes(s[..q], j)
    {
      if j < q {
        assert !Closes(s, j);
      }
    }
  }

  /** Lines joined behind others. */
  lemma {:induction false} JoinBehind(above: seq<string>, lines: seq<string>)
    requires lines != []
    ensures Join(above + lines, '\n') == (if above == [] then "" else Join(above, '\n') + ['\n']) + Join(lines, '\n')
  {
    if above == [] {
      assert above + lines == lines;
    } else if |above| == 1 {
      assert (above + lines)[1..] == lines;
    } else {
      JoinBehind(above[1..], lines);
      assert (above + lines)[1..] == above[1..] + lines;
      var tail := Join(above[1..], '\n');
      assert above[0] + ['\n'] + (tail + ['\n'] + Join(lines, '\n'))
          == (above[0] + ['\n'] + tail) + ['\n'] + Join(lines, '\n');
    }
  }

  /** The block written back: the lines above, the serialized field, and the rest. */
  lemma WrittenBlock(above: seq<string>, serialized: string, rest: seq<string>) returns (front: string, tail: string)
    ensures Join(above + Split(serialized, '\n') + rest, '\n') == front + serialized + tail
    ensures forall cut :: Join(above + Split(cut, '\n'), '\n') == front + cut
  {
    hide Join, Split;
    front := if above == [] then "" else Join(above, '\n') + ['\n'];
    tail := if rest == [] then "" else ['\n'] + Join(rest, '\n');
    forall cut
      ensures Join(above + Split(cut, '\n'), '\n') == front + cut
    {
      JoinBehind(above, Split(cut, '\n'));
      JoinSplit(cut, '\n');
    }
    var written := above + Split(serialized, '\n');
    if rest == [] {
      assert written + rest == written && front + serialized + tail == front + serialized;
    } else {
      JoinBehind(written, rest);
      assert front + serialized + ['\n'] + Join(rest, '\n') == front + serialized + (['\n'] + Join(rest, '\n'));
    }
  }

  /** Above a plain key's cut text nothing closes. */
  lemma CutIsClean(above: seq<string>, key: string, value: Edit.EditValue)
    requires Lines.PlainKey(key) && Edit.CleanLines(above) && !NoCloser(Edit.SerializeKey(key, value))
    ensures NoCloser(Join(above + Split(CutText(key, value), '\n'), '\n'))
  {
    hide Edit.CleanLines, NoCloser, Split, Join, Edit.SerializeKey, FirstClosing, Lines.PlainKey;
    var cut := CutText(key, value);
    FirstClosingIs(Edit.SerializeKey(key, value));
    Edit.SplitClean(cut);
    Edit.SplitStart(cut);
    assert !Edit.Dashed(cut) by { CutIsUndashed(key, value); }
    Edit.CleanAppend(above, Split(cut, '\n'));
    Edit.JoinClean(above + Split(cut, '\n'));
  }

  lemma CutIsUndashed(key: string, value: Edit.EditValue)
    requires Lines.PlainKey(key)
    ensures !Edit.Dashed(CutText(key, value))
  {
    hide FirstClosing, Edit.SerializeScalar;
    var serialized := Edit.SerializeKey(key, value);
    assert serialized[0] == key[0];
  }

  /** The note written is closed there. */
  lemma NoteIsClosed(region: Region, above: seq<string>, rest: seq<string>, key: string, value: Edit.EditValue)
    requires region.before == "" || region.before == [BOM]
    requires Lines.PlainKey(key) && Edit.CleanLines(above) && !NoCloser(Edit.SerializeKey(key, value))
    ensures var serialized := Edit.SerializeKey(key, value); var q := FirstClosing(serialized, 0);
      var out := Reassemble(region, Join(above + Split(serialized, '\n') + rest, '\n'));
      var block := Join(above + Split(CutText(key, value), '\n'), '\n');
      q < |serialized| && Locate(out).Some?
      && Locate(out).value.block == (if serialized[q] == '\n' then StripCr(block) else block)
  {
    hide NoCloser, Split, Join, Edit.SerializeKey, FirstClosing, LeadingFrontmatter, Edit.CleanLines, Lines.PlainKey;
    hide StripCr;
    var serialized := Edit.SerializeKey(key, value);
    var q := FirstClosing(serialized, 0);
    FirstClosingIs(serialized);
    var front, tail := WrittenBlock(above, serialized, rest);
    var whole := Join(above + Split(serialized, '\n') + rest, '\n');
    var block := Join(above + Split(CutText(key, value), '\n'), '\n');
    CutIsClean(above, key, value);
    assert block == front + serialized[..q];
    var more := StripOneBreak(region.after);
    var after := serialized[q + 4..] + tail + "\n---\n" + more;
    ClosesInside(front, serialized[..q], serialized[q], serialized[q + 4..], tail, more);
    hide Fenced, FencedUpTo;
    ReassembledIsFenced(region, whole);
    ClosedBlock(block, serialized[q], after);
  }

  lemma ClosesInside(front: string, cut: string, c: char, rest: string, tail: string, more: string)
    ensures Fenced(front + (cut + [c] + "---" + rest) + tail, more)
         == FencedUpTo(front + cut, c, rest + tail + "\n---\n" + more)
  {
  }

  lemma LinesAboveAreClean(text: string, key: string)
    ensures Edit.CleanLines(LinesAbove(text, key))
    ensures forall i :: 0 <= i < |LinesAbove(text, key)| ==> Free(LinesAbove(text, key)[i], '\n')
  {
    hide Locate, Edit.CleanLines, NoCloser, Split, Edit.FindKeyRange, Trim, Free;
    if Locate(text).Some? {
      var lines := BlockLinesOf(text);
      LocatedBlockIsClean(text);
      Edit.SplitClean(Locate(text).value.block);
      SplitIsFree(Locate(text).value.block, '\n');
      Edit.CleanSlice(lines, 0, |LinesAbove(text, key)|);
      assert lines[0..|LinesAbove(text, key)|] == LinesAbove(text, key);
    } else {
      assert Edit.CleanLines([]) by { NothingIsClean(); }
    }
  }

  lemma NothingIsClean()
    ensures Edit.CleanLines([])
  {
  }

  /** Lines put before others stay as they are read. */
  lemma CutBehind(above: seq<string>, key: string, value: Edit.EditValue)
    requires forall i :: 0 <= i < |above| ==> Free(above[i], '\n')
    ensures var block := Join(above + Split(CutText(key, value), '\n'), '\n');
      GuardLines(if ClosedByFeed(key, value) then StripCr(block) else block) == Stripped(above) + CutLines(key, value)
  {
    hide Split, Join, CutText, ClosedByFeed, StripCr, GuardLines, Stripped, Free;
    var cut := CutText(key, value);
    var parts := Split(cut, '\n');
    SplitIsFree(cut, '\n');
    JoinSplit(cut, '\n');
    if ClosedByFeed(key, value) {
      GuardLinesOfJoin(above + parts);
      GuardLinesOfJoin(parts);
      StrippedParts(above, parts);
    } else {
      SplitJoin(above + parts, '\n');
      LinesBehind(above, cut, Join(above + parts, '\n'));
    }
  }

  lemma LinesBehind(above: seq<string>, cut: string, block: string)
    requires Split(block, '\n') == above + Split(cut, '\n')
    ensures GuardLines(block) == Stripped(above) + GuardLines(cut)
  {
    hide Split, GuardLines, Stripped, StripCr;
    var r, parts := GuardLines(block), Split(cut, '\n');
    forall i | 0 <= i < |r|
      ensures r[i] == (Stripped(above) + GuardLines(cut))[i]
    {
      assert Split(block, '\n')[i] == (above + parts)[i];
    }
  }

  /** A value that closes the fence: the guard reads the lines up to there, and all below is body. */
  lemma ClosedReads(text: string, key: string, value: Edit.EditValue)
    requires Lines.PlainKey(key) && !NoCloser(Edit.SerializeKey(key, value)) && Edit.SetField(text, key, value).Some?
    ensures GuardRead(Edit.SetField(text, key, value).value)
         == ReadLines(Stripped(LinesAbove(text, key)) + CutLines(key, value))
  {
    hide NoCloser, Split, Join, Edit.SerializeKey, Edit.CleanLines, Lines.PlainKey, StripCr, ParseFrontmatter, CutText;
    hide Free;
    hide GuardLines, Locate, Reassemble, Stripped, LinesAbove, CutLines, FirstClosing;
    var above := LinesAbove(text, key);
    var region, rest := RegionWritten(text, key, value);
    LinesAboveAreClean(text, key);
    NoteIsClosed(region, above, rest, key, value);
    CutBehind(above, key, value);
  }

  lemma RegionWritten(text: string, key: string, value: Edit.EditValue) returns (region: Region, rest: seq<string>)
    requires Edit.SetField(text, key, value).Some?
    ensures region.before == "" || region.before == [BOM]
    ensures var lines := LinesAbove(text, key) + Split(Edit.SerializeKey(key, value), '\n') + rest;
      Edit.SetField(text, key, value).value == Reassemble(region, Join(lines, '\n'))
  {
    hide Split, Join, Edit.SerializeKey, LeadingFrontmatter, Edit.FindKeyRange, Trim;
    var written := Split(Edit.SerializeKey(key, value), '\n');
    if Locate(text).None? {
      region, rest := Region("", "", "\n\n" + text), [];
      assert [] + written + [] == written;
      JoinSplit(Edit.SerializeKey(key, value), '\n');
      NewNote(Edit.SerializeKey(key, value), text);
    } else {
      region := Locate(text).value;
      var lines := BlockLinesOf(text);
      var r := Edit.FindKeyRange(lines, key, 0);
      rest := if r.Found? then lines[r.end..] else [];
      if r.Missing? {
        assert Edit.Without(lines) + written + [] == Edit.Without(lines) + written;
      }
    }
  }

  lemma NewNote(block: string, text: string)
    ensures Reassemble(Region("", "", "\n\n" + text), block) == "---\n" + block + "\n---\n\n" + text
  {
    assert StripOneBreak("\n\n" + text) == "\n" + text;
    assert "---\n" + block + "\n---\n" + ("\n" + text) == "---\n" + block + "\n---\n\n" + text;
  }

  // ── Never what was judged ─────────────────────────────────────────────────

  lemma CalmClosesNowhere(value: Edit.EditValue, key: string)
    requires Lines.PlainKey(key) && forall k :: 0 <= k < |Parts(value)| ==> Calm(Edit.Shown(Parts(value)[k]))
    ensures NoCloser(Edit.SerializeKey(key, value))
  {
    hide NoCloser, Edit.SerializeKey;
    assert Edit.OneLine(key) by { PlainIsOneLine(key); }
    forall k | 0 <= k < |Parts(value)|
      ensures Edit.OneLine(Edit.Shown(Parts(value)[k]))
    {
      CalmIsOneLine(Edit.Shown(Parts(value)[k]));
    }
    assert Edit.OneLineValue(value) by { PartsAreOneLine(value); }
    Edit.SerializedClean(key, value);
  }

  lemma PartsAreOneLine(value: Edit.EditValue)
    requires forall k :: 0 <= k < |Parts(value)| ==> Edit.OneLine(Edit.Shown(Parts(value)[k]))
    ensures Edit.OneLineValue(value)
  {
    hide Edit.OneLine, Edit.Shown;
    match value
    case One(v) => assert Parts(value)[0] == v;
    case Many(items) => assert forall i :: 0 <= i < |items| ==> Parts(value)[i] == items[i];
  }

  lemma PlainIsOneLine(key: string)
    requires Lines.PlainKey(key)
    ensures Edit.OneLine(key)
  {
  }

  lemma CalmIsOneLine(s: string)
    requires Calm(s)
    ensures Edit.OneLine(s)
  {
  }

  /** The lines up to the closer are too few, or the closer too odd, for the value to be read of them. */
  lemma CutIsIllegible(number: string -> real, key: string, value: Edit.EditValue)
    requires Lines.PlainKey(key) && AllProper(value) && !NoCloser(Edit.SerializeKey(key, value))
    ensures !Legible(JudgedValue(number, value), |CutLines(key, value)|) && !ValueComesBack(number, value)
  {
    hide Edit.SerializeKey, Lines.PlainKey, Proper, KeptItem, Kept, CutLines, NoCloser, Calm, Edit.Shown;
    var k :| 0 <= k < |Parts(value)| && !Calm(Edit.Shown(Parts(value)[k])) by {
      if forall k :: 0 <= k < |Parts(value)| ==> Calm(Edit.Shown(Parts(value)[k])) {
        CalmClosesNowhere(value, key);
      }
    }
    var v := Parts(value)[k];
    assert v.Text? by {
      if !v.Text? {
        ProperIsCalm(v);
      }
    }
    assert Edit.Shown(v) == v.s by { ShownText(v); }
    NotCalmIsBroken(v.s);
    match value
    case One(_) => CutIsShort(key, v.s);
    case Many(items) => assert JudgedItems(number, items)[k] == Str(v.s);
  }

  lemma ShownText(v: Edit.Scalar)
    requires v.Text?
    ensures Edit.Shown(v) == v.s
  {
  }

  lemma NotCalmIsBroken(s: string)
    requires !Calm(s)
    ensures !OneLine(s) || HasControl(s)
  {
    if '\n' in s {
      var i :| 0 <= i < |s| && s[i] == '\n';
      assert IsLineTerminator(s[i]);
    } else {
      var i :| 0 <= i < |s| && s[i] == '\r';
      assert IsLineTerminator(s[i]);
    }
  }

  /**
   * A text with breaks in it has as many line feeds as it is written over, and the closer takes one, or is a carriage
   * return.
   */
  lemma CutIsShort(key: string, s: string)
    requires Lines.PlainKey(key) && !NoCloser(Edit.SerializeKey(key, Edit.One(Edit.Text(s)))) && !Calm(s)
    ensures !Legible(Str(s), |CutLines(key, Edit.One(Edit.Text(s)))|)
  {
    hide Edit.SerializeKey, Lines.PlainKey, NoCloser, Split, StripCr, FirstClosing;
    var value := Edit.One(Edit.Text(s));
    var serialized, cut := Edit.SerializeKey(key, value), CutText(key, value);
    var q := FirstClosing(serialized, 0);
    FirstClosingIs(serialized);
    FeedsWritten(key, s);
    NoFeeds(s);
    FeedsConcat(cut, serialized[q..]);
    assert serialized == cut + serialized[q..];
    FeedsOfParts(cut);
    FeedsOfParts(StripCr(cut));
    FeedsUncr(cut);
  }

  lemma FeedsUncr(s: string)
    ensures Feeds(StripCr(s)) == Feeds(s)
  {
  }

  lemma FirstBegins(key: string, t: string)
    requires Lines.PlainKey(key) && key + ":" <= t
    ensures key + ":" <= Split(t, '\n')[0] && key + ":" <= StripCr(Split(t, '\n')[0])
  {
    Back.PlainKeyIsFree(key);
    var k := IndexOf(t, '\n', 0);
    assert t[|key|] == (key + ":")[|key|] == ':';
    assert forall i :: 0 <= i < |key| ==> t[i] == (key + ":")[i] == key[i];
    assert k > |key|;
  }

  lemma CutBegins(key: string, value: Edit.EditValue)
    requires Lines.PlainKey(key) && !NoCloser(Edit.SerializeKey(key, value))
    ensures key + ":" <= CutLines(key, value)[0]
  {
    hide NoCloser, Lines.PlainKey, StripCr, Split, FirstClosing, Edit.SerializeScalar, GuardLines;
    var serialized, cut := Edit.SerializeKey(key, value), CutText(key, value);
    var q := FirstClosing(serialized, 0);
    FirstClosingIs(serialized);
    assert key + ":" <= serialized;
    BreakIsLater(serialized, key, q);
    FirstBegins(key, cut);
    CrIsLast(key, cut);
    FirstBegins(key, StripCr(cut));
    var c := if ClosedByFeed(key, value) then StripCr(cut) else cut;
    assert CutLines(key, value) == GuardLines(c);
    assert GuardLines(c)[0] in {Split(c, '\n')[0], StripCr(Split(c, '\n')[0])};
  }

  lemma BreakIsLater(s: string, key: string, q: nat)
    requires Lines.PlainKey(key) && key + ":" <= s && q < |s| && IsBreak(s[q])
    ensures key + ":" <= s[..q]
  {
    assert s[|key|] == (key + ":")[|key|] == ':';
    assert forall i :: 0 <= i < |key| ==> s[i] == (key + ":")[i] == key[i];
    assert q > |key|;
  }

  lemma CrIsLast(key: string, cut: string)
    requires key + ":" <= cut
    ensures key + ":" <= StripCr(cut)
  {
    assert cut[|key|] == (key + ":")[|key|] == ':';
  }

  /** Below the same lines, what is written keeps the block one that is read line by line, or one flow collection. */
  lemma RootBelow(text: string, key: string, W: seq<string>)
    requires Locate(text).Some? && Lines.PlainKey(key) && W != [] && key + ":" <= W[0]
    ensures BlockRoot(Stripped(LinesAbove(text, key)) + W) <==> BlockRoot(Stripped(BlockLinesOf(text)))
  {
    hide Locate, Edit.FindKeyRange, BlockRoot, Lines.PlainKey, Edit.IsKey, Stripped, Split, Trim;
    var lines := BlockLinesOf(text);
    var G, n, r := Stripped(lines), |LinesAbove(text, key)|, Edit.FindKeyRange(lines, key, 0);
    var above := Stripped(LinesAbove(text, key));
    assert LinesAbove(text, key) == lines[..n];
    StrippedSlices(lines, n, n);
    assert above == G[..n] && G == G[..n] + G[n..];
    if BlockRoot(G) {
      StillBlockRoot(above, W, [], G[n..], key);
      assert above + W + [] == above + W;
    } else if r.Found? {
      KeyPrefix(lines[r.start], key);
      FlowRootStays(G, r.start, W, key);
    } else {
      KeptRoot(lines, W);
    }
  }

  /** In a block read line by line, what is read above the closer is never the object judged. */
  lemma ClosedNeverReads(number: string -> real, text: string, key: string, value: Edit.EditValue, judged: Fields)
    requires Lines.PlainKey(key) && AllProper(value) && !NoCloser(Edit.SerializeKey(key, value))
    requires Edit.SetField(text, key, value).Some? && ValueOf(judged, key) == Some(JudgedValue(number, value))
    requires Locate(text).Some? ==> BlockRoot(Stripped(BlockLinesOf(text)))
    ensures var r := GuardRead(Edit.SetField(text, key, value).value); r.Some? ==> !SameObject(r.value, judged)
  {
    hide ParseFrontmatter, BlockRoot, Lines.PlainKey, NoCloser, Edit.SerializeKey, Edit.SetField, Locate, GuardRead;
    hide LinesAbove, CutLines;
    hide AllProper, JudgedValue, FieldsOf, FieldsFrom, PutAll, ValueOf, Legible, Free, TopLine, KeyOf, Named;
    var above, C := Stripped(LinesAbove(text, key)), CutLines(key, value);
    ClosedReads(text, key, value);
    CutBegins(key, value);
    CutIsIllegible(number, key, value);
    CutIsFree(key, value);
    RootOfCut(text, key, value);
    DocumentIsItsFields(above + C);
    if FieldsOf(above + C).Some? {
      assert above + C + [] == above + C;
      BeginsWhereRead(above, C, [], key);
      BlockAppend(above, C);
      FirstIsNamed(C, key);
      BrokenIsNoField(C, key, JudgedValue(number, value));
      ValueIsLast(FieldsOf(above).value, FieldsFrom(C).value, key);
      OtherValue(PutAll([], FieldsOf(above).value + FieldsFrom(C).value), judged, key);
    }
  }

  lemma OtherValue(f: Fields, g: Fields, key: string)
    requires ValueOf(f, key) != ValueOf(g, key)
    ensures !SameObject(f, g)
  {
  }

  lemma RootOfCut(text: string, key: string, value: Edit.EditValue)
    requires Lines.PlainKey(key) && !NoCloser(Edit.SerializeKey(key, value))
    ensures BlockRoot(Stripped(LinesAbove(text, key)) + CutLines(key, value))
      <==> (Locate(text).Some? ==> BlockRoot(Stripped(BlockLinesOf(text))))
  {
    hide BlockRoot, Lines.PlainKey, NoCloser, Edit.SerializeKey, Locate, CutLines;
    CutBegins(key, value);
    if Locate(text).Some? {
      RootBelow(text, key, CutLines(key, value));
    } else {
      var none: seq<string> := [];
      assert Stripped(LinesAbove(text, key)) == none;
      NothingIsBlock();
      assert none + none == none && none + CutLines(key, value) + none == none + CutLines(key, value);
      StillBlockRoot(none, CutLines(key, value), none, none, key);
    }
  }

  lemma CutIsFree(key: string, value: Edit.EditValue)
    ensures forall k :: 0 <= k < |CutLines(key, value)| ==> Free(CutLines(key, value)[k], '\n')
  {
    hide Split, CutText, ClosedByFeed;
    var c := if ClosedByFeed(key, value) then StripCr(CutText(key, value)) else CutText(key, value);
    SplitIsFree(c, '\n');
  }

  /** The last field of that name tells the value. */
  lemma ValueIsLast(above: Fields, fields: Fields, key: string)
    requires Named(fields, key)
    ensures ValueOf(PutAll([], above + fields), key).Some?
    ensures (key, ValueOf(PutAll([], above + fields), key).value) in fields
  {
    hide PutAll, ValueOf, LastOf, Named;
    PutAllValue([], above + fields, key);
    LastOfConcat(above, fields, key);
    LastOfNamed(fields, key);
    LastOfIsIn(fields, key);
  }

  /** Of such a block, the guard still sees just the keys named above the closer. */
  lemma ClosedKeepsKeysIff(text: string, key: string, value: Edit.EditValue, k: string)
    requires Lines.PlainKey(key) && !NoCloser(Edit.SerializeKey(key, value)) && Edit.SetField(text, key, value).Some?
    requires Locate(text).Some? ==> BlockRoot(Stripped(BlockLinesOf(text)))
    requires GuardRead(Edit.SetField(text, key, value).value).Some?
    ensures Named(GuardRead(Edit.SetField(text, key, value).value).value, k)
       <==> NamesKey(Stripped(LinesAbove(text, key)), k) || NamesKey(CutLines(key, value), k)
  {
    hide ParseFrontmatter, BlockRoot, Lines.PlainKey, NoCloser, Edit.SerializeKey, Edit.SetField, Locate, GuardRead;
    hide LinesAbove, CutLines;
    hide FieldsOf, PutAll, Named, NamesKey;
    var above, C := Stripped(LinesAbove(text, key)), CutLines(key, value);
    ClosedReads(text, key, value);
    RootOfCut(text, key, value);
    DocumentIsItsFields(above + C);
    BlockNamesKeys(above + C, k);
    PutAllNames([], FieldsOf(above + C).value, k);
    NothingNamed(k);
    NamesAppend(above, C, k);
  }
}

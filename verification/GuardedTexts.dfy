/**
 * The frontmatter the guard reads of a text written by the line editor: the lines put back, or, where a value written
 * closes the fence, the lines up to there.
 */
module GuardedTexts {
  import opened JsString
  import opened Splitting
  import opened AcceptGuard
  import opened AcceptTransition
  import opened FlowModel
  import opened BlockModel
  import opened BlockSound
  import opened BlockWindow
  import opened TopFields
  import opened Assignments
  import opened FieldEdits
  import opened GuardedEdits
  import opened WrittenScalars
  import opened WrittenValues
  import opened BrokenValues
  import opened Fence
  import Edit = FrontmatterEdit
  import Lines = FrontmatterFields
  import Back = FrontmatterReadBack

  // ── What the guard reads of a text ────────────────────────────────────────

  /** The block cut at `\r?\n`. */
  function GuardLines(block: string): (r: seq<string>)
    ensures r != [] && |r| == |Split(block, '\n')| && r[|r| - 1] == Split(block, '\n')[|r| - 1]
    ensures forall i :: 0 <= i < |r| - 1 ==> r[i] == StripCr(Split(block, '\n')[i])
  {
    var lines := Split(block, '\n');
    seq(|lines|, i requires 0 <= i < |lines| => if i < |lines| - 1 then StripCr(lines[i]) else lines[i])
  }

  /** `parseGuardFrontmatter`; a note without frontmatter has no fields, None refuses. */
  function GuardRead(text: string): Option<Fields> {
    match Locate(text)
    case None => Some([])
    case Some(region) =>
      match ParseFrontmatter(GuardLines(region.block))
      case Some(Map(fields)) => Some(fields)
      case _ => None
  }

  function ReadLines(lines: seq<string>): Option<Fields> {
    match ParseFrontmatter(lines) case Some(Map(fields)) => Some(fields) case _ => None
  }

  /** The block's own lines, where the editor and the guard look. */
  function BlockLinesOf(text: string): seq<string>
    requires Locate(text).Some?
  {
    Split(Locate(text).value.block, '\n')
  }

  // ── Lines written back ────────────────────────────────────────────────────

  lemma {:induction false} LastStripped(parts: seq<string>)
    requires parts != []
    ensures StripCr(Join(parts, '\n')) == Join(parts[..|parts| - 1] + [StripCr(parts[|parts| - 1])], '\n')
  {
    hide StripCr;
    var last := StripCr(parts[|parts| - 1]);
    if |parts| == 1 {
      assert parts[..0] + [last] == [last];
    } else {
      LastStripped(parts[1..]);
      assert (parts[..|parts| - 1] + [last])[1..] == parts[1..][..|parts| - 2] + [last];
      StripTail(parts[0] + ['\n'], Join(parts[1..], '\n'));
    }
  }

  lemma StripTail(front: string, rest: string)
    requires front != "" && front[|front| - 1] == '\n'
    ensures StripCr(front + rest) == front + StripCr(rest)
  {
    if rest == "" {
      assert front + rest == front;
    } else if rest[|rest| - 1] == '\r' {
      assert (front + rest)[..|front + rest| - 1] == front + rest[..|rest| - 1];
    }
  }

  lemma LocateFenced(text: string, block: string, rest: string)
    requires StripBom(text) == Fenced(block, rest) && NoCloser(block)
    ensures Locate(text).Some? && Locate(text).value.block == StripCr(block)
  {
    hide LeadingFrontmatter, Fenced, NoCloser, StripBom, StripCr;
    FencedBlock(block, rest);
  }

  lemma GuardLinesOfJoin(lines: seq<string>)
    requires lines != [] && forall i :: 0 <= i < |lines| ==> Free(lines[i], '\n')
    ensures GuardLines(StripCr(Join(lines, '\n'))) == Stripped(lines)
  {
    hide StripCr, Split, Join, GuardLines, Free, Stripped;
    var n := |lines| - 1;
    LastStripped(lines);
    CutSplits(lines[..n], lines[n]);
    GuardLinesOfCut(StripCr(Join(lines, '\n')), lines);
  }

  lemma CutSplits(front: seq<string>, last: string)
    requires Free(last, '\n') && forall i :: 0 <= i < |front| ==> Free(front[i], '\n')
    ensures Split(Join(front + [StripCr(last)], '\n'), '\n') == front + [StripCr(last)]
  {
    hide StripCr, Split, Join, Free;
    StrippedIsFree(last);
    SplitJoin(front + [StripCr(last)], '\n');
  }

  lemma GuardLinesOfCut(block: string, lines: seq<string>)
    requires lines != [] && Split(block, '\n') == lines[..|lines| - 1] + [StripCr(lines[|lines| - 1])]
    ensures GuardLines(block) == Stripped(lines)
  {
    hide StripCr, Split, GuardLines, Stripped;
    var r := GuardLines(block);
    forall i | 0 <= i < |r|
      ensures r[i] == Stripped(lines)[i]
    {
      if i < |r| - 1 {
        assert r[i] == StripCr(Split(block, '\n')[i]);
      }
    }
  }

  /** Lines joined into a fenced note are the lines the guard reads of it. */
  lemma RelocatedLines(lines: seq<string>, text: string, rest: string)
    requires lines != [] && (forall i :: 0 <= i < |lines| ==> Free(lines[i], '\n')) && Edit.CleanLines(lines)
    requires StripBom(text) == Fenced(Join(lines, '\n'), rest)
    ensures Locate(text).Some? && GuardLines(Locate(text).value.block) == Stripped(lines)
  {
    hide Locate, Fenced, StripBom, Edit.CleanLines, NoCloser, StripCr, GuardLines, Join;
    Edit.JoinClean(lines);
    LocateFenced(text, Join(lines, '\n'), rest);
    GuardLinesOfJoin(lines);
  }

  lemma StrippedIsFree(line: string)
    requires Free(line, '\n')
    ensures Free(StripCr(line), '\n')
  {
  }

  lemma NoLines(text: string, rest: string)
    requires StripBom(text) == Fenced("", rest)
    ensures GuardRead(text) == Some([])
  {
    hide LeadingFrontmatter, Fenced;
    FencedBlock("", rest);
    assert GuardLines("") == [""];
    EmptyBlock();
  }

  lemma EmptyBlock()
    ensures ParseFrontmatter([""]) == Some(Map([])) && ParseFrontmatter([]) == Some(Map([]))
  {
    hide ParseRoot, ParseMapping;
    assert Peek([""], 0) == End;
  }

  /** The guard reads of the text written back what its reader makes of the lines. */
  lemma RewrittenReads(text: string, lines: seq<string>)
    requires Locate(text).Some? && (forall i :: 0 <= i < |lines| ==> Free(lines[i], '\n')) && Edit.CleanLines(lines)
    ensures var out := Reassemble(Locate(text).value, Edit.JoinLines(lines));
      GuardRead(out) == ReadLines(Stripped(lines))
  {
    hide LeadingFrontmatter, Fenced, Edit.CleanLines, ParseFrontmatter, Locate, Reassemble, GuardLines;
    var region := Locate(text).value;
    var out, rest := Reassemble(region, Edit.JoinLines(lines)), StripOneBreak(region.after);
    LocatedBody(text);
    ReassembledIsFenced(region, Edit.JoinLines(lines));
    if lines == [] {
      NoLines(out, rest);
      EmptyBlock();
      assert Stripped(lines) == [];
    } else {
      RelocatedLines(lines, out, rest);
    }
  }

  /**
   * In a block that is read no line ends in a stray carriage return, so the guard's lines are the editor's, stripped.
   */
  lemma AcceptedLines(block: string)
    requires ParseFrontmatter(GuardLines(block)).Some?
    ensures GuardLines(block) == Stripped(Split(block, '\n'))
  {
    hide ParseFrontmatter, HasControl, Split, GuardLines, Stripped, StripCr;
    LastIsClean(GuardLines(block));
    LinesOfCleanBlock(block);
  }

  lemma LastIsClean(lines: seq<string>)
    requires lines != [] && ParseFrontmatter(lines).Some?
    ensures !HasControl(lines[|lines| - 1])
  {
    hide FieldsOf, HasControl, TopLine, KeyOf, BlockRoot, ParseRoot, ParseFrontmatter, Peek;
    if BlockRoot(lines) {
      DocumentIsItsFields(lines);
      BlockIsClean(lines);
    } else {
      RootIsParsed(lines);
      var rest := lines[Peek(lines, 0).at..];
      RootIsClean(rest);
      assert rest[|rest| - 1] == lines[|lines| - 1];
    }
  }

  lemma RootIsClean(rest: seq<string>)
    requires rest != []
    ensures ParseRoot(rest).Some? ==> !HasControl(rest[|rest| - 1])
  {
    hide HasControl, ParseFlow, Trim, JoinWith;
  }

  lemma LinesOfCleanBlock(block: string)
    requires !HasControl(GuardLines(block)[|GuardLines(block)| - 1])
    ensures GuardLines(block) == Stripped(Split(block, '\n'))
  {
    hide HasControl, Split, GuardLines, Stripped, StripCr;
    var lines := Split(block, '\n');
    CleanLast(lines[|lines| - 1]);
    GuardLinesOfCut(block, lines) by { assert lines == lines[..|lines| - 1] + [lines[|lines| - 1]]; }
  }

  lemma CleanLast(line: string)
    requires !HasControl(line)
    ensures StripCr(line) == line
  {
    assert line != "" ==> !IsControl(line[|line| - 1]);
  }

  lemma DeletedLinesAreClean(text: string, key: string)
    requires Locate(text).Some? && Edit.DeleteLines(BlockLinesOf(text), key).Some?
    ensures var after := Edit.DeleteLines(BlockLinesOf(text), key).value;
      Edit.CleanLines(after) && forall i :: 0 <= i < |after| ==> Free(after[i], '\n')
  {
    hide Locate, Edit.FindKeyRange, Edit.CleanLines, NoCloser, Split, Free;
    var lines, r := BlockLinesOf(text), Edit.FindKeyRange(BlockLinesOf(text), key, 0);
    LocatedBlockIsClean(text);
    Edit.SplitClean(Locate(text).value.block);
    SplitIsFree(Locate(text).value.block, '\n');
    Edit.CleanCut(lines, r.start, r.end);
    Edit.CleanAppend(lines[..r.start], lines[r.end..]);
  }

  lemma SetLinesAreFree(lines: seq<string>, key: string, value: Edit.EditValue)
    requires lines != [] && (forall i :: 0 <= i < |lines| ==> Free(lines[i], '\n'))
    requires Edit.SetLines(lines, key, value).Some?
    ensures var after := Edit.SetLines(lines, key, value).value;
      after != [] && forall i :: 0 <= i < |after| ==> Free(after[i], '\n')
  {
    hide Edit.FindKeyRange, Split, Free, Trim, Edit.SerializeKey;
    SplitIsFree(Edit.SerializeKey(key, value), '\n');
  }

  lemma PlainIsUndashed(key: string)
    requires Lines.PlainKey(key)
    ensures !("---" <= key)
  {
  }

  lemma SetLinesAreClean(text: string, key: string, value: Edit.EditValue)
    requires Locate(text).Some? && Edit.SetLines(BlockLinesOf(text), key, value).Some?
    requires Lines.PlainKey(key) && NoCloser(Edit.SerializeKey(key, value))
    ensures var after := Edit.SetLines(BlockLinesOf(text), key, value).value;
      after != [] && Edit.CleanLines(after) && forall i :: 0 <= i < |after| ==> Free(after[i], '\n')
  {
    hide Locate, Edit.SetLines, Edit.CleanLines, NoCloser, Split, Free, Lines.PlainKey, Edit.SerializeKey;
    LocatedBlockIsClean(text);
    SplitIsFree(Locate(text).value.block, '\n');
    SetLinesAreFree(BlockLinesOf(text), key, value);
    PlainIsUndashed(key);
    Edit.SetLinesClean(Locate(text).value.block, key, value);
  }

  /** The block the editor works on, as the guard has read it. */
  lemma BlockReads(text: string)
    requires Locate(text).Some? && GuardRead(text).Some?
    ensures ParseFrontmatter(Stripped(BlockLinesOf(text))) == Some(Map(GuardRead(text).value))
  {
    hide Locate, ParseFrontmatter, GuardLines;
    AcceptedLines(Locate(text).value.block);
  }

  // ── The first field of a note ─────────────────────────────────────────────

  lemma NewNoteIsFenced(block: string, text: string)
    ensures StripBom("---\n" + block + "\n---\n\n" + text) == Fenced(block, "\n" + text)
  {
    assert "---\n" + block + "\n---\n\n" + text == Fenced(block, "\n" + text);
  }

  lemma NothingIsBlock()
    ensures BlockRoot([]) && FieldsOf([]) == Some([])
  {
  }

  lemma FirstFieldReads(text: string, key: string, value: Edit.EditValue)
    requires Locate(text).None? && Lines.PlainKey(key) && NoCloser(Edit.SerializeKey(key, value))
    ensures GuardRead(Edit.SetField(text, key, value).value) == ReadLines(WrittenLines(key, value))
  {
    hide ParseFrontmatter, GuardLines, NoCloser, Edit.CleanLines, Lines.PlainKey, Edit.SerializeKey, Split, Locate;
    hide StripCr, Join, Fenced;
    var serialized := Edit.SerializeKey(key, value);
    var out := Edit.SetField(text, key, value).value;
    NewNoteIsFenced(serialized, text);
    JoinSplit(serialized, '\n');
    SplitIsFree(serialized, '\n');
    Edit.SplitClean(serialized);
    RelocatedLines(Split(serialized, '\n'), out, "\n" + text);
  }
}

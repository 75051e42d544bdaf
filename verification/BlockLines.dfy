/** Single lines of a block, and where the guard's block reader stops. */
module BlockLines {
  import opened JsString
  import opened AcceptGuard
  import opened FlowModel
  import opened BlockModel

  lemma {:induction false} SpacesLength(n: nat)
    ensures |Spaces(n)| == n && forall i :: 0 <= i < n ==> Spaces(n)[i] == ' '
  {
    if n > 0 {
      SpacesLength(n - 1);
    }
  }

  /** Text that stays on one line of a frontmatter block. */
  predicate CleanText(s: string) {
    forall i :: 0 <= i < |s| ==> !IsControl(s[i]) && !IsLineTerminator(s[i])
  }

  /** The text of a line after its indentation: what the reader takes for neither blank, comment nor marker. */
  predicate Body(b: string) {
    b != "" && !IsSpace(b[0]) && !IsSpace(b[|b| - 1]) && b[0] !in {'#', '.'} && CleanText(b)
  }

  /** A line the reader stops at. */
  predicate Significant(line: string) {
    !HasControl(line) && !IsIgnorable(line) && Trim(line) != "..."
  }

  lemma {:induction false} TrimSpaces(n: nat, b: string)
    requires b != "" && !IsSpace(b[0]) && !IsSpace(b[|b| - 1])
    ensures Trim(Spaces(n) + b) == b
  {
    if n == 0 {
      assert Spaces(0) + b == b;
    } else {
      var line := Spaces(n) + b;
      assert line[0] == ' ' && line[1..] == Spaces(n - 1) + b;
      assert TrimStart(line) == TrimStart(line[1..]);
      hide IsSpace, TrimStart, TrimEnd;
      TrimSpaces(n - 1, b);
    }
  }

  lemma NoControl(n: nat, b: string)
    requires CleanText(b)
    ensures !HasControl(Spaces(n) + b)
  {
    SpacesLength(n);
    var line := Spaces(n) + b;
    forall i | 0 <= i < |line|
      ensures !IsControl(line[i])
    {
      if i >= n {
        assert line[i] == b[i - n];
      }
    }
  }

  lemma BodyStart(b: string)
    requires Body(b)
    ensures IndentOf(b) == Some(0) && b != "..." && b != "" && b[0] != '#' && CleanText(b)
  {
  }

  lemma SignificantLine(n: nat, b: string)
    requires Body(b)
    ensures Significant(Spaces(n) + b)
  {
    TrimSpaces(n, b);
    BodyStart(b);
    NoControl(n, b);
    hide HasControl, Spaces, Trim, IndentOf, Body, CleanText;
  }

  lemma Indented(n: nat, b: string)
    ensures |Spaces(n) + b| == n + |b| && (Spaces(n) + b)[n..] == b
  {
  }

  lemma LineFacts(n: nat, b: string)
    requires Body(b)
    ensures var line := Spaces(n) + b;
      Significant(line) && IndentOf(line) == Some(n) && |line| == n + |b| && line[n..] == b
  {
    hide Significant, Spaces, IndentOf, Body, CleanText;
    SignificantLine(n, b);
    BodyStart(b);
    SpacesIndent(n, b);
    Indented(n, b);
  }

  lemma PeekLine(lines: seq<string>, i: nat)
    requires i < |lines| && Significant(lines[i])
    ensures Peek(lines, i) == Line(i)
  {
  }

  lemma PeekEnd(lines: seq<string>)
    ensures Peek(lines, |lines|) == End
  {
  }

  lemma TrimNothing()
    ensures Trim("") == ""
  {
  }

  lemma BodyTrims(b: string)
    requires Body(b)
    ensures Trim(b) == b && b != ""
  {
  }

  lemma SkipOneBlank(content: string)
    requires content != "" && content[0] != ' ' && content[0] != '\t'
    ensures SkipBlanks(" " + content, 0) == 1
  {
  }

  // ── Where the reader stops ────────────────────────────────────────────────

  /** From line `j` on nothing continues a block at column `col`: the lines end, or one less indented follows. */
  predicate BlockEnds(lines: seq<string>, j: nat, col: nat) {
    j == |lines| || (j < |lines| && Significant(lines[j]) && IndentOf(lines[j]).Some? && IndentOf(lines[j]).value < col)
  }

  lemma BlockEndsFurther(lines: seq<string>, j: nat, col: nat, more: nat)
    requires BlockEnds(lines, j, col) && col <= more
    ensures BlockEnds(lines, j, more)
  {
  }

  /** What the reader finds where it looks next: the end, or a line at a smaller column. */
  lemma PeekEnds(lines: seq<string>, j: nat, col: nat)
    requires BlockEnds(lines, j, col)
    ensures j == |lines| ==> Peek(lines, j) == End
    ensures j < |lines| ==> Peek(lines, j) == Line(j) && IndentOf(lines[j]).Some? && IndentOf(lines[j]).value < col
  {
  }

  lemma GatherStops(lines: seq<string>, j: nat, text: string, owner: nat, sep: string)
    requires BlockEnds(lines, j, owner + 1)
    ensures Gather(lines, j, text, owner, sep) == Got(text, j)
  {
  }

  lemma MappingEnds(lines: seq<string>, i: nat, ind: nat, out: Fields)
    requires BlockEnds(lines, i, ind)
    ensures ParseMapping(lines, i, ind, out) == Got(Map(out), i)
  {
  }

  /** One key and its value, read where a mapping stands. */
  lemma KeyStep(lines: seq<string>, i: nat, ind: nat, key: string, rest: string, v: Value, next: nat, out: Fields)
    requires i < |lines| && Peek(lines, i) == Line(i) && IndentOf(lines[i]) == Some(ind)
    requires SeqItem(lines[i][ind..]).None? && ParseKeyLine(lines[i][ind..]) == Key(key, rest)
    requires next <= |lines| && ParseValueAfterKey(lines, i + 1, rest, ind) == Got(v, next)
    ensures ParseMapping(lines, i, ind, out) == ParseMapping(lines, next, ind, PutField(out, key, v))
  {
    hide Peek, SeqItem, ParseKeyLine, ParseValueAfterKey, IndentOf, PutField;
  }

  /** One item whose text is a scalar, read where a sequence stands. */
  lemma ScalarStep(lines: seq<string>, i: nat, ind: nat, content: string, v: Value, next: nat, out: seq<Value>)
    requires i < |lines| && Peek(lines, i) == Line(i) && IndentOf(lines[i]) == Some(ind)
    requires SeqItem(lines[i][ind..]).Some? && Trim(SeqItem(lines[i][ind..]).value) == content && content != ""
    requires ParseKeyLine(content) == NotKey && FinishScalar(lines, i + 1, content, ind) == Got(v, next)
    ensures ParseSequence(lines, i, ind, out) == ParseSequence(lines, next, ind, out + [v])
  {
    hide Peek, SeqItem, ParseKeyLine, FinishScalar, IndentOf, ParseMapping, ParseBareItem, ItemColumn, Trim;
  }
}

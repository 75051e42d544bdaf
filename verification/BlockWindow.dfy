/**
 * A stretch of lines read inside a document and read alone: when what follows it cannot continue it, the guard's
 * block reader makes the same of both.
 */
module BlockWindow {
  import opened JsString
  import opened AcceptGuard
  import opened FlowModel
  import opened BlockModel
  import opened BlockLines

  /** A significant line at column 0 that is no item: in any document that is read, the key line of a field. */
  predicate TopLine(line: string) {
    Significant(line) && IndentOf(line) == Some(0) && SeqItem(line).None?
  }

  /**
   * Line `e` and those after it: the end, or blank lines and comments up to a field's key line, not indented at first.
   */
  predicate ClosesAt(lines: seq<string>, e: nat) {
    && e <= |lines| && Peek(lines, e) != Bad
    && (Peek(lines, e).Line? ==> TopLine(lines[Peek(lines, e).at]))
    && (NonBlank(lines, e) < |lines| ==> IndentOf(lines[NonBlank(lines, e)]) == Some(0))
  }

  /** `w` stands in `lines` from line `o` on, and nothing behind it continues it. */
  predicate Window(lines: seq<string>, o: nat, w: seq<string>) {
    o + |w| <= |lines| && ClosesAt(lines, o + |w|) && forall k :: 0 <= k < |w| ==> lines[o + k] == w[k]
  }

  /** The same place: inside the window, or at its end and wherever the reader may look next behind it. */
  predicate Same(lines: seq<string>, o: nat, w: seq<string>, n: nat, m: nat) {
    && n <= |w| && o + |w| <= |lines|
    && if n < |w| then m == o + n else o + |w| <= m <= |lines| && Peek(lines, m) == Peek(lines, o + |w|)
  }

  predicate Alike<T(==)>(lines: seq<string>, o: nat, w: seq<string>, r: Read<T>, s: Read<T>) {
    match (r, s)
    case (Fail, Fail) => true
    case (Got(v, n), Got(u, m)) => v == u && Same(lines, o, w, n, m)
    case _ => false
  }

  // ── Looking ahead ─────────────────────────────────────────────────────────

  lemma {:induction false} PeekStops(lines: seq<string>, i: nat)
    requires i <= |lines|
    ensures match Peek(lines, i)
      case Line(at) => Peek(lines, at) == Line(at) && Significant(lines[at])
      case _ => true
    decreases |lines| - i
  {
    hide HasControl, IsIgnorable;
    if i < |lines| && !HasControl(lines[i]) && IsIgnorable(lines[i]) {
      PeekStops(lines, i + 1);
    }
  }

  /** What is seen from inside the window is what is seen in it alone, or what is seen from its end. */
  lemma {:induction false} PeekWithin(lines: seq<string>, o: nat, w: seq<string>, n: nat, m: nat)
    requires Window(lines, o, w) && Same(lines, o, w, n, m)
    ensures match Peek(w, n)
      case Line(at) => Peek(lines, m) == Line(o + at) && lines[o + at] == w[at] && Significant(w[at])
      case Bad => Peek(lines, m) == Bad
      case End => Peek(lines, m) == Peek(lines, o + |w|)
    decreases |w| - n
  {
    hide HasControl, IsIgnorable, ClosesAt, Trim;
    if n < |w| && !HasControl(w[n]) && IsIgnorable(w[n]) {
      PeekWithin(lines, o, w, n + 1, m + 1);
    }
  }

  /** Behind the window the reader finds the end or a key line at column 0, and stays there. */
  lemma PeekBehind(lines: seq<string>, o: nat, w: seq<string>)
    requires Window(lines, o, w)
    ensures match Peek(lines, o + |w|)
      case Line(t) => TopLine(lines[t]) && Same(lines, o, w, |w|, t)
      case End => Same(lines, o, w, |w|, |lines|)
      case Bad => false
  {
    PeekStops(lines, o + |w|);
    PeekEnd(lines);
    hide TopLine, Peek, Significant;
  }

  lemma TopLineIs(line: string)
    requires TopLine(line)
    ensures IndentOf(line) == Some(0) && SeqItem(line[0..]).None? && SeqItem(line).None? && !HasControl(line)
    ensures Trim(line) != ""
  {
    assert line[0..] == line;
    hide HasControl, IndentOf, SeqItem, Trim;
  }

  lemma {:induction false} NonBlankWithin(lines: seq<string>, o: nat, w: seq<string>, n: nat)
    requires Window(lines, o, w) && n <= |w|
    ensures NonBlank(lines, o + n) == if NonBlank(w, n) < |w| then o + NonBlank(w, n) else NonBlank(lines, o + |w|)
    decreases |w| - n
  {
    hide ClosesAt, Trim;
    if n < |w| {
      NonBlankWithin(lines, o, w, n + 1);
    }
  }

  // ── Text over several lines ───────────────────────────────────────────────

  lemma {:induction false} GatherWithin(lines: seq<string>, o: nat, w: seq<string>, n: nat, m: nat, acc: string,
                                        owner: nat, sep: string)
    requires Window(lines, o, w) && Same(lines, o, w, n, m)
    ensures m <= |lines| && Alike(lines, o, w, Gather(w, n, acc, owner, sep), Gather(lines, m, acc, owner, sep))
    decreases |w| - n
  {
    hide Peek, IndentOf, SeqItem, ParseKeyLine, Trim, ClosesAt, TopLine, Significant;
    PeekWithin(lines, o, w, n, m);
    match Peek(w, n)
    case Bad =>
    case End =>
      PeekBehind(lines, o, w);
      if Peek(lines, m).Line? {
        TopLineIs(lines[Peek(lines, m).at]);
      }
    case Line(at) =>
      if IndentOf(w[at]).Some? && IndentOf(w[at]).value > owner {
        var ind := IndentOf(w[at]).value;
        var body := w[at][ind..];
        if SeqItem(body).None? && ParseKeyLine(body).NotKey? {
          AfterLine(lines, o, w, at);
          GatherWithin(lines, o, w, at + 1, o + at + 1, acc + sep + Trim(body), owner, sep);
        }
      }
  }

  /** The place right after a line of the window. */
  lemma AfterLine(lines: seq<string>, o: nat, w: seq<string>, at: nat)
    requires Window(lines, o, w) && at < |w|
    ensures Same(lines, o, w, at + 1, o + at + 1)
  {
    hide ClosesAt;
  }

  lemma FinishWithin(lines: seq<string>, o: nat, w: seq<string>, n: nat, m: nat, first: string, owner: nat)
    requires Window(lines, o, w) && Same(lines, o, w, n, m)
    ensures m <= |lines| && Alike(lines, o, w, FinishScalar(w, n, first, owner), FinishScalar(lines, m, first, owner))
  {
    hide Gather, ScalarToken, Same, Window;
    GatherWithin(lines, o, w, n, m, first, owner, " ");
  }

  lemma {:induction false} ReadBlockWithin(lines: seq<string>, o: nat, w: seq<string>, n: nat, owner: nat,
                                           content: Option<nat>, parts: seq<string>)
    requires Window(lines, o, w) && n <= |w|
    ensures Alike(lines, o, w, ReadBlock(w, n, owner, content, parts), ReadBlock(lines, o + n, owner, content, parts))
    decreases |w| - n
  {
    hide IndentOf, HasControl, Trim, Peek, NonBlank, Window, ClosesAt;
    if n == |w| {
      BlockStopsBehind(lines, o, w, owner, content, parts);
    } else {
      LineIsSame(lines, o, w, n);
      AtLine(lines, o, w, n);
      if Trim(w[n]) == "" {
        hide ReadBlock, Alike, Same;
        ReadBlockWithin(lines, o, w, n + 1, owner, content, parts + [""]);
        BlankLineWithin(lines, o, w, n, owner, content, parts);
      } else if IndentOf(w[n]).Some? && IndentOf(w[n]).value > owner {
        var ind := IndentOf(w[n]).value;
        var column := if content.Some? then content.value else ind;
        ReadBlockWithin(lines, o, w, n + 1, owner, Some(column), parts + [w[n][Min(ind, column)..]]);
      }
    }
  }

  /** A blank line belongs to the block if what follows does. */
  lemma BlankLineWithin(lines: seq<string>, o: nat, w: seq<string>, n: nat, owner: nat, content: Option<nat>,
                        parts: seq<string>)
    requires Window(lines, o, w) && n < |w| && o + n < |lines| && lines[o + n] == w[n] && Trim(w[n]) == ""
    requires Alike(lines, o, w, ReadBlock(w, n + 1, owner, content, parts + [""]),
                   ReadBlock(lines, o + n + 1, owner, content, parts + [""]))
    ensures Alike(lines, o, w, ReadBlock(w, n, owner, content, parts), ReadBlock(lines, o + n, owner, content, parts))
  {
    hide IndentOf, HasControl, Trim, Peek, NonBlank, Window, ClosesAt, Min;
    AtLine(lines, o, w, n);
    NonBlankWithin(lines, o, w, n + 1);
    BehindIsLess(lines, o, w);
    if NonBlank(w, n + 1) < |w| {
      LineIsSame(lines, o, w, NonBlank(w, n + 1));
    }
  }

  lemma BehindIsLess(lines: seq<string>, o: nat, w: seq<string>)
    requires Window(lines, o, w)
    ensures NonBlank(lines, o + |w|) < |lines| ==> IndentOf(lines[NonBlank(lines, o + |w|)]) == Some(0)
  {
  }

  lemma BlockStopsBehind(lines: seq<string>, o: nat, w: seq<string>, owner: nat, content: Option<nat>,
                         parts: seq<string>)
    requires Window(lines, o, w)
    ensures ReadBlock(lines, o + |w|, owner, content, parts) == Got(parts, o + |w|)
  {
    hide IndentOf, HasControl, Trim, TopLine;
  }

  // ── The mutually recursive readers ────────────────────────────────────────

  lemma {:induction false} MappingWithin(lines: seq<string>, o: nat, w: seq<string>, n: nat, m: nat, indent: nat,
                                         out: Fields)
    requires Window(lines, o, w) && Same(lines, o, w, n, m) && indent > 0
    ensures m <= |lines| && Alike(lines, o, w, ParseMapping(w, n, indent, out), ParseMapping(lines, m, indent, out))
    decreases |w| - n, 1
  {
    hide Peek, IndentOf, SeqItem, ParseKeyLine, ParseValueAfterKey, ClosesAt, TopLine, Significant, PutField, Window;
    hide Same;
    SameBounds(lines, o, w, n, m);
    PeekWithin(lines, o, w, n, m);
    match Peek(w, n)
    case Bad =>
    case End => MappingBehind(lines, o, w, m, indent, out);
    case Line(at) =>
      AtLine(lines, o, w, at);
      if IndentOf(w[at]) == Some(indent) {
        var body := w[at][indent..];
        if SeqItem(body).None? && ParseKeyLine(body).Key? {
          var key, rest := ParseKeyLine(body).key, ParseKeyLine(body).rest;
          AfterLine(lines, o, w, at);
          ValueWithin(lines, o, w, at + 1, o + at + 1, rest, indent);
          match ParseValueAfterKey(w, at + 1, rest, indent)
          case Fail =>
          case Got(v, next) =>
            var next' := ParseValueAfterKey(lines, o + at + 1, rest, indent).next;
            MappingWithin(lines, o, w, next, next', indent, PutField(out, key, v));
        }
      }
  }

  lemma SameBounds(lines: seq<string>, o: nat, w: seq<string>, n: nat, m: nat)
    requires Same(lines, o, w, n, m)
    ensures n <= |w| && m <= |lines| && o + |w| <= |lines|
  {
  }

  lemma MappingBehind(lines: seq<string>, o: nat, w: seq<string>, m: nat, indent: nat, out: Fields)
    requires Window(lines, o, w) && m <= |lines| && Peek(lines, m) == Peek(lines, o + |w|) && indent > 0
    ensures ParseMapping(lines, m, indent, out).Got? && ParseMapping(lines, m, indent, out).value == Map(out)
    ensures Same(lines, o, w, |w|, ParseMapping(lines, m, indent, out).next)
  {
    hide Peek, IndentOf, SeqItem, ParseKeyLine, ParseValueAfterKey, ClosesAt, Significant, PutField, Same, Window;
    PeekBehind(lines, o, w);
  }

  lemma {:induction false} SequenceWithin(lines: seq<string>, o: nat, w: seq<string>, n: nat, m: nat, indent: nat,
                                          out: seq<Value>)
    requires Window(lines, o, w) && Same(lines, o, w, n, m)
    ensures m <= |lines| && Alike(lines, o, w, ParseSequence(w, n, indent, out), ParseSequence(lines, m, indent, out))
    decreases |w| - n, 2
  {
    hide Peek, IndentOf, SeqItem, ParseKeyLine, ParseBareItem, ParseMapping, FinishScalar, ClosesAt, TopLine;
    hide Significant;
    hide Window, Same, Trim, ItemColumn, Spaces;
    SameBounds(lines, o, w, n, m);
    PeekWithin(lines, o, w, n, m);
    match Peek(w, n)
    case Bad =>
    case End => SequenceBehind(lines, o, w, m, indent, out);
    case Line(at) =>
      LineIsSame(lines, o, w, at);
      AtLine(lines, o, w, at);
      if IndentOf(w[at]) == Some(indent) && SeqItem(w[at][indent..]).Some? {
        var content := Trim(SeqItem(w[at][indent..]).value);
        AfterLine(lines, o, w, at);
        if content == "" {
          BareWithin(lines, o, w, at + 1, o + at + 1, indent);
          match ParseBareItem(w, at + 1, indent)
          case Fail =>
          case Got(v, next) =>
            SequenceWithin(lines, o, w, next, ParseBareItem(lines, o + at + 1, indent).next, indent, out + [v]);
        } else if ParseKeyLine(content).Key? {
          var col := ItemColumn(w[at], indent);
          var line := Spaces(col) + content;
          OverwrittenIndent(w[at], indent, content);
          Rewritten(lines, o, w, at, line);
          MappingWithin(lines[o + at := line], o, w[at := line], at, o + at, col, []);
          ItemAdvances(w[at := line], at, col);
          match ParseMapping(w[at := line], at, col, [])
          case Fail =>
          case Got(v, next) =>
            var next' := ParseMapping(lines[o + at := line], o + at, col, []).next;
            SameRewritten(lines, o, w, at, line, next, next');
            SequenceWithin(lines, o, w, next, next', indent, out + [v]);
        } else if ParseKeyLine(content).NotKey? {
          FinishWithin(lines, o, w, at + 1, o + at + 1, content, indent);
          match FinishScalar(w, at + 1, content, indent)
          case Fail =>
          case Got(v, next) =>
            SequenceWithin(lines, o, w, next, FinishScalar(lines, o + at + 1, content, indent).next, indent, out + [v]);
        }
      }
  }

  lemma SequenceBehind(lines: seq<string>, o: nat, w: seq<string>, m: nat, indent: nat, out: seq<Value>)
    requires Window(lines, o, w) && m <= |lines| && Peek(lines, m) == Peek(lines, o + |w|)
    ensures ParseSequence(lines, m, indent, out).Got? && ParseSequence(lines, m, indent, out).value == List(out)
    ensures Same(lines, o, w, |w|, ParseSequence(lines, m, indent, out).next)
  {
    hide Peek, IndentOf, SeqItem, ParseKeyLine, ParseBareItem, ParseMapping, FinishScalar, ClosesAt, Significant, Same;
    hide Window, TopLine;
    PeekBehind(lines, o, w);
    if Peek(lines, m).Line? {
      TopLineIs(lines[Peek(lines, m).at]);
    }
  }

  lemma LineIsSame(lines: seq<string>, o: nat, w: seq<string>, at: nat)
    requires Window(lines, o, w) && at < |w|
    ensures o + at < |lines| && lines[o + at] == w[at]
  {
    hide ClosesAt;
  }

  lemma OverwrittenIndent(line: string, ind: nat, content: string)
    requires ind < |line| && content != "" && !IsSpace(content[0])
    ensures ItemColumn(line, ind) > 0
    ensures IndentOf(Spaces(ItemColumn(line, ind)) + content) == Some(ItemColumn(line, ind))
  {
    assert IndentOf(content) == Some(0);
    hide IsSpace, IndentOf;
    SpacesIndent(ItemColumn(line, ind), content);
  }

  /** The line of an item, overwritten, is read from again. */
  lemma ItemAdvances(w: seq<string>, at: nat, col: nat)
    requires at < |w| && IndentOf(w[at]).Some? && IndentOf(w[at]).value >= col
    ensures ParseMapping(w, at, col, []).Got? ==> at < ParseMapping(w, at, col, []).next
  {
  }

  lemma {:induction false} PeekUnchanged(lines: seq<string>, lines': seq<string>, i: nat)
    requires |lines'| == |lines| && i <= |lines| && forall k :: i <= k < |lines| ==> lines'[k] == lines[k]
    ensures Peek(lines', i) == Peek(lines, i) && NonBlank(lines', i) == NonBlank(lines, i)
    decreases |lines| - i
  {
    hide HasControl, IsIgnorable, Trim;
    if i < |lines| {
      PeekUnchanged(lines, lines', i + 1);
    }
  }

  /** Overwriting a line of the window changes nothing behind it. */
  lemma Rewritten(lines: seq<string>, o: nat, w: seq<string>, at: nat, line: string)
    requires Window(lines, o, w) && at < |w|
    ensures o + at < |lines| && Window(lines[o + at := line], o, w[at := line])
    ensures Same(lines[o + at := line], o, w[at := line], at, o + at)
  {
    hide Peek, NonBlank, TopLine, IndentOf;
    PeekUnchanged(lines, lines[o + at := line], o + |w|);
    if Peek(lines, o + |w|).Line? {
      PeekNoEarlier(lines, o + |w|);
    }
  }

  lemma PeekNoEarlier(lines: seq<string>, i: nat)
    requires i <= |lines|
    ensures Peek(lines, i).Line? ==> i <= Peek(lines, i).at
  {
  }

  lemma SameRewritten(lines: seq<string>, o: nat, w: seq<string>, at: nat, line: string, n: nat, m: nat)
    requires Window(lines, o, w) && at < |w|
    requires o + at < |lines| && Same(lines[o + at := line], o, w[at := line], n, m)
    ensures Same(lines, o, w, n, m)
  {
    hide Peek, ClosesAt, NonBlank;
    var lines' := lines[o + at := line];
    if n == |w| {
      PeekUnchanged(lines, lines', m);
      PeekUnchanged(lines, lines', o + |w|);
    }
  }

  lemma {:induction false} BareWithin(lines: seq<string>, o: nat, w: seq<string>, n: nat, m: nat, indent: nat)
    requires Window(lines, o, w) && Same(lines, o, w, n, m)
    ensures m <= |lines| && Alike(lines, o, w, ParseBareItem(w, n, indent), ParseBareItem(lines, m, indent))
    decreases |w| - n, 4
  {
    hide Peek, IndentOf, ParseNested, ClosesAt, TopLine, Significant, Window, Same;
    SameBounds(lines, o, w, n, m);
    PeekWithin(lines, o, w, n, m);
    match Peek(w, n)
    case Bad =>
    case End =>
      PeekBehind(lines, o, w);
      if Peek(lines, m).Line? {
        TopLineIs(lines[Peek(lines, m).at]);
      }
    case Line(at) =>
      LineIsSame(lines, o, w, at);
      AtLine(lines, o, w, at);
      if IndentOf(w[at]).Some? && IndentOf(w[at]).value > indent {
        PeekStops(w, n);
        NestedWithin(lines, o, w, at, IndentOf(w[at]).value, indent);
      }
  }

  lemma AtLine(lines: seq<string>, o: nat, w: seq<string>, at: nat)
    requires Window(lines, o, w) && at < |w|
    ensures Same(lines, o, w, at, o + at)
  {
    hide ClosesAt;
  }

  lemma {:induction false} NestedWithin(lines: seq<string>, o: nat, w: seq<string>, n: nat, child: nat, parent: nat)
    requires Window(lines, o, w) && n < |w| && Peek(w, n) == Line(n) && child > parent
    ensures o + n <= |lines|
    ensures Alike(lines, o, w, ParseNested(w, n, child, parent), ParseNested(lines, o + n, child, parent))
    decreases |w| - n, 3
  {
    hide Peek, SeqItem, ParseSequence, ParseMapping, ClosesAt, TopLine, Significant, Window, Same;
    AtLine(lines, o, w, n);
    SameBounds(lines, o, w, n, o + n);
    PeekWithin(lines, o, w, n, o + n);
    SequenceWithin(lines, o, w, n, o + n, child, []);
    MappingWithin(lines, o, w, n, o + n, child, []);
  }

  lemma {:induction false} ValueWithin(lines: seq<string>, o: nat, w: seq<string>, n: nat, m: nat, rest: string,
                                       keyIndent: nat)
    requires Window(lines, o, w) && n <= |w| && m == o + n
    ensures m <= |lines|
    ensures Alike(lines, o, w, ParseValueAfterKey(w, n, rest, keyIndent), ParseValueAfterKey(lines, m, rest, keyIndent))
    decreases |w| - n, 3
  {
    hide Peek, IndentOf, SeqItem, ParseSequence, ParseMapping, ReadBlock, FinishScalar, Gather, ParseFlow, BlockHeader;
    hide ClosesAt, TopLine, Significant, Window, Same, JoinWith, Trim;
    ExactPlace(lines, o, w, n);
    if rest != "" {
      if BlockHeader(rest) {
        ReadBlockWithin(lines, o, w, n, keyIndent, None, []);
      } else if rest[0] in {'[', '{'} {
        GatherWithin(lines, o, w, n, m, rest, keyIndent, "");
      } else {
        FinishWithin(lines, o, w, n, m, rest, keyIndent);
      }
    } else {
      PeekWithin(lines, o, w, n, m);
      match Peek(w, n)
      case Bad =>
      case End => NoValueBehind(lines, o, w, m, keyIndent);
      case Line(at) =>
        LineIsSame(lines, o, w, at);
        AtLine(lines, o, w, at);
        if IndentOf(w[at]).Some? {
          var ind := IndentOf(w[at]).value;
          if ind >= keyIndent && SeqItem(w[at][ind..]).Some? {
            SequenceWithin(lines, o, w, at, o + at, ind, []);
          } else if ind > keyIndent {
            MappingWithin(lines, o, w, at, o + at, ind, []);
          }
        }
    }
  }

  lemma ExactPlace(lines: seq<string>, o: nat, w: seq<string>, n: nat)
    requires Window(lines, o, w) && n <= |w|
    ensures o + n <= |lines| && Same(lines, o, w, n, o + n)
  {
    hide ClosesAt;
  }

  lemma NoValueBehind(lines: seq<string>, o: nat, w: seq<string>, m: nat, keyIndent: nat)
    requires Window(lines, o, w) && m <= |lines| && Peek(lines, m) == Peek(lines, o + |w|)
    ensures ParseValueAfterKey(lines, m, "", keyIndent).Got?
    ensures ParseValueAfterKey(lines, m, "", keyIndent).value == Null
    ensures Same(lines, o, w, |w|, ParseValueAfterKey(lines, m, "", keyIndent).next)
  {
    hide Peek, IndentOf, SeqItem, ParseSequence, ParseMapping, ClosesAt, Significant, Same, Window, TopLine;
    PeekBehind(lines, o, w);
    if Peek(lines, m).Line? {
      TopLineIs(lines[Peek(lines, m).at]);
    }
  }
}

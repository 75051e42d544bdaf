/**
 * The one recognizer of a note's leading frontmatter, as the regular expression reads it: an opening `---`
 * line, the shortest text up to a line break followed by `---`, and everything after those dashes as body.
 */
module Fence {
  import opened JsString

  predicate IsBreak(c: char) {
    c == '\n' || c == '\r'
  }

  predicate Dashes(s: string, i: nat) {
    i + 3 <= |s| && s[i] == '-' && s[i + 1] == '-' && s[i + 2] == '-'
  }

  /** A line break at `i` is followed by dashes. */
  predicate Closes(s: string, i: nat) {
    i < |s| && IsBreak(s[i]) && Dashes(s, i + 1)
  }

  /** A carriage return and a line feed at `i` are followed by dashes. */
  predicate ClosesCrLf(s: string, i: nat) {
    i + 1 < |s| && s[i] == '\r' && s[i + 1] == '\n' && Dashes(s, i + 2)
  }

  /** `(?:\r\n|\n|\r)---` at position `j`: where it ends. */
  function CloserEnd(s: string, j: nat): (r: Option<nat>)
    ensures r.Some? ==> r.value <= |s|
  {
    if ClosesCrLf(s, j) then Some(j + 5) else if Closes(s, j) then Some(j + 4) else None
  }

  datatype Span = Span(start: nat, end: nat)

  /** The first closer at or after `from`. */
  function FirstCloser(s: string, from: nat): (r: Option<Span>)
    requires from <= |s|
    ensures r.Some? ==> from <= r.value.start < r.value.end <= |s|
    decreases |s| - from
  {
    match CloserEnd(s, from)
    case Some(end) => Some(Span(from, end))
    case None => if from == |s| then None else FirstCloser(s, from + 1)
  }

  function SkipTabsAndSpaces(s: string, i: nat): (k: nat)
    requires i <= |s|
    ensures i <= k <= |s|
    decreases |s| - i
  {
    if i < |s| && (s[i] == ' ' || s[i] == '\t') then SkipTabsAndSpaces(s, i + 1) else i
  }

  /** The frontmatter text begins at `begin`, and the match covers `closer.end` characters. */
  datatype Match = Match(begin: nat, closer: Span)

  /** `LEADING_FRONTMATTER_RE`; a `\r\n` after the opener is given up for its `\r` when nothing else matches. */
  function LeadingFrontmatter(s: string): (r: Option<Match>)
    ensures r.Some? ==> r.value.begin <= r.value.closer.start < r.value.closer.end <= |s|
  {
    if !Dashes(s, 0) then None
    else
      var open := SkipTabsAndSpaces(s, 3);
      if open + 1 < |s| && s[open] == '\r' && s[open + 1] == '\n' then
        match FirstCloser(s, open + 2)
        case Some(closer) => Some(Match(open + 2, closer))
        case None => CloseAfter(s, open + 1)
      else if open < |s| && IsBreak(s[open]) then CloseAfter(s, open + 1)
      else None
  }

  function CloseAfter(s: string, begin: nat): (r: Option<Match>)
    requires begin <= |s|
    ensures r.Some? ==> r.value.begin == begin <= r.value.closer.start < r.value.closer.end <= |s|
  {
    match FirstCloser(s, begin)
    case Some(closer) => Some(Match(begin, closer))
    case None => None
  }

  const BOM: char := '\U{FEFF}'

  function StripBom(text: string): string {
    if text != "" && text[0] == BOM then text[1..] else text
  }

  function StripOneBreak(s: string): (r: string)
    ensures |r| + 2 >= |s|
  {
    if |s| > 1 && s[0] == '\r' && s[1] == '\n' then s[2..] else if s != "" && IsBreak(s[0]) then s[1..] else s
  }

  /** `stripLeadingFrontmatter`: the note as a reader sees it. */
  function BodyOf(text: string): string {
    var s := StripBom(text);
    match LeadingFrontmatter(s)
    case None => s
    case Some(m) => StripOneBreak(s[m.closer.end..])
  }

  /** What `locateFrontmatter` finds: a byte-order mark, the frontmatter text, and all after the closing dashes. */
  datatype Region = Region(before: string, block: string, after: string)

  function Locate(text: string): Option<Region> {
    var s := StripBom(text);
    match LeadingFrontmatter(s)
    case None => None
    case Some(m) =>
      Some(Region(if |s| < |text| then [BOM] else "", s[m.begin..m.closer.start], s[m.closer.end..]))
  }

  function Reassemble(region: Region, block: string): string {
    region.before + "---\n" + block + "\n---\n" + StripOneBreak(region.after)
  }

  /** The first place from `i` on where the text closes, or its end. */
  function FirstClosing(s: string, i: nat): (k: nat)
    requires i <= |s|
    ensures i <= k <= |s| && (k < |s| ==> Closes(s, k))
    ensures forall j :: i <= j < k ==> !Closes(s, j)
    decreases |s| - i
  {
    if i == |s| || Closes(s, i) then i else FirstClosing(s, i + 1)
  }

  // ── Where a closer can stand ──────────────────────────────────────────────

  ghost predicate NoCloser(s: string) {
    forall i: nat :: !Closes(s, i)
  }

  lemma {:induction false} FirstCloserIsFirst(s: string, from: nat)
    requires from <= |s|
    ensures var r := FirstCloser(s, from);
      && (r.Some? ==> CloserEnd(s, r.value.start) == Some(r.value.end))
      && forall k: nat :: from <= k && k <= |s| && (r.None? || k < r.value.start) ==> CloserEnd(s, k).None?
    decreases |s| - from
  {
    hide CloserEnd;
    if CloserEnd(s, from).None? && from < |s| {
      FirstCloserIsFirst(s, from + 1);
    }
  }

  /** The recognizer stops at the first closer, so none stands inside the text it returns. */
  lemma LocatedBlockIsClean(text: string)
    requires Locate(text).Some?
    ensures NoCloser(Locate(text).value.block)
  {
    var s := StripBom(text);
    var m := LeadingFrontmatter(s).value;
    var block := s[m.begin..m.closer.start];
    MatchIsFirst(s);
    forall i: nat
      ensures !Closes(block, i)
    {
      if m.begin + i < m.closer.start {
        NotClosed(s, m.begin, m.closer.start, i);
      }
    }
  }

  lemma NotClosed(s: string, from: nat, to: nat, i: nat)
    requires from <= to <= |s| && CloserEnd(s, from + i).None?
    ensures !Closes(s[from..to], i)
  {
  }

  lemma MatchIsFirst(s: string)
    requires LeadingFrontmatter(s).Some?
    ensures var m := LeadingFrontmatter(s).value; FirstCloser(s, m.begin) == Some(m.closer)
    ensures var m := LeadingFrontmatter(s).value;
      forall k: nat :: m.begin <= k < m.closer.start ==> CloserEnd(s, k).None?
  {
    hide CloserEnd;
    FirstCloserIsFirst(s, LeadingFrontmatter(s).value.begin);
  }

  // ── Rewriting the block ───────────────────────────────────────────────────

  /** A note fenced with plain line feeds. */
  function Fenced(block: string, rest: string): string {
    "---\n" + block + "\n---\n" + rest
  }

  lemma FencedParts(block: string, rest: string)
    ensures var s, c := Fenced(block, rest), 4 + |block|;
      && |s| == c + 5 + |rest| && Dashes(s, 0) && s[3] == '\n'
      && s[c] == '\n' && Dashes(s, c + 1) && s[c + 4] == '\n' && s[c + 5..] == rest
      && forall i :: 0 <= i < |block| ==> s[4 + i] == block[i]
  {
  }

  /** Its opener is the first line, and the search for a closer begins right after. */
  lemma FencedOpens(block: string, rest: string)
    ensures LeadingFrontmatter(Fenced(block, rest)) == CloseAfter(Fenced(block, rest), 4)
  {
    FencedParts(block, rest);
    hide Fenced;
  }

  /** Before its own closer, the fenced note closes just where the block does, save for a final carriage return. */
  lemma ClosersOfFenced(block: string, rest: string, k: nat)
    requires 4 <= k < 4 + |block|
    ensures var s := Fenced(block, rest);
      && (Closes(block, k - 4) ==> CloserEnd(s, k).Some?)
      && (CloserEnd(s, k).Some? ==>
            || (Closes(block, k - 4) && CloserEnd(s, k).value <= 4 + |block|)
            || (k + 1 < 4 + |block| && Closes(block, k - 3) && CloserEnd(s, k).value <= 4 + |block|)
            || (k == 3 + |block| && CloserEnd(s, k).value == 8 + |block|))
  {
    FencedParts(block, rest);
    hide Fenced;
  }

  lemma CloserOfFenced(block: string, rest: string)
    ensures CloserEnd(Fenced(block, rest), 4 + |block|) == Some(8 + |block|)
  {
    FencedParts(block, rest);
    hide Fenced;
  }

  /** The match ends with the note's own closer exactly when the block has none, and earlier otherwise. */
  lemma FencedMatch(block: string, rest: string)
    ensures var m := LeadingFrontmatter(Fenced(block, rest));
      && m.Some? && m.value.begin == 4
      && if NoCloser(block) then m.value.closer.end == 8 + |block| else m.value.closer.end <= 4 + |block|
  {
    hide CloserEnd, Closes, LeadingFrontmatter, Fenced;
    var s, c := Fenced(block, rest), 4 + |block|;
    FencedParts(block, rest);
    FencedOpens(block, rest);
    CloserOfFenced(block, rest);
    FirstCloserIsFirst(s, 4);
    var r := FirstCloser(s, 4);
    assert r.Some? && r.value.start <= c;
    if r.value.start < c {
      ClosersOfFenced(block, rest, r.value.start);
    }
    if !NoCloser(block) {
      var i: nat :| Closes(block, i);
      ClosesInside(block, i);
      ClosersOfFenced(block, rest, 4 + i);
    }
  }

  lemma ClosesInside(s: string, i: nat)
    requires Closes(s, i)
    ensures i + 4 <= |s|
  {
  }

  /** The frontmatter found in a fenced note is its block, less a carriage return that the closing fence takes. */
  lemma FencedBlock(block: string, rest: string)
    requires NoCloser(block)
    ensures var s := Fenced(block, rest);
      LeadingFrontmatter(s).Some?
      && s[LeadingFrontmatter(s).value.begin..LeadingFrontmatter(s).value.closer.start] == StripCr(block)
  {
    hide LeadingFrontmatter, Fenced, NoCloser, Closes;
    FencedMatch(block, rest);
    FencedParts(block, rest);
    var s, m := Fenced(block, rest), LeadingFrontmatter(Fenced(block, rest)).value;
    MatchIsFirst(s);
    FirstCloserIsFirst(s, m.begin);
    CloserStart(block, rest, m.closer.start);
    assert s[4..4 + |StripCr(block)|] == StripCr(block);
  }

  lemma CloserStart(block: string, rest: string, start: nat)
    requires 4 <= start && CloserEnd(Fenced(block, rest), start) == Some(8 + |block|)
    requires forall k: nat :: 4 <= k < start ==> CloserEnd(Fenced(block, rest), k).None?
    ensures start == 4 + |StripCr(block)|
  {
    hide Fenced;
    FencedParts(block, rest);
    var s, c := Fenced(block, rest), 4 + |block|;
    if block != "" && block[|block| - 1] == '\r' {
      assert s[c - 1] == '\r' && CloserEnd(s, c - 1) == Some(c + 4);
    }
  }

  /** A note whose block is closed by the break `c` and dashes, whatever follows them. */
  function FencedUpTo(block: string, c: char, tail: string): string {
    "---\n" + block + [c] + "---" + tail
  }

  lemma ClosedParts(block: string, c: char, tail: string)
    ensures var s, e := FencedUpTo(block, c, tail), 4 + |block|;
      && |s| >= e + 4 && Dashes(s, 0) && s[3] == '\n' && s[e] == c && Dashes(s, e + 1)
      && forall i :: 0 <= i < |block| ==> s[4 + i] == block[i]
  {
  }

  /** Before that break it closes nowhere, save for a carriage return in front of a line feed. */
  lemma ClosedBefore(block: string, c: char, tail: string, k: nat)
    requires NoCloser(block) && IsBreak(c) && 4 <= k < 4 + |block|
    ensures var s := FencedUpTo(block, c, tail);
      CloserEnd(s, k).Some? <==> k == 3 + |block| && c == '\n' && block[|block| - 1] == '\r'
  {
    var s, e := FencedUpTo(block, c, tail), 4 + |block|;
    ClosedParts(block, c, tail);
    hide FencedUpTo;
    assert !Closes(block, k - 4) && !Closes(block, k - 3);
  }

  /** The frontmatter found is the block, less a carriage return in front of a line feed that closes it. */
  lemma ClosedBlock(block: string, c: char, tail: string)
    requires NoCloser(block) && IsBreak(c)
    ensures var s, m := FencedUpTo(block, c, tail), LeadingFrontmatter(FencedUpTo(block, c, tail));
      m.Some? && s[m.value.begin..m.value.closer.start] == if c == '\n' then StripCr(block) else block
  {
    var s, e := FencedUpTo(block, c, tail), 4 + |block|;
    ClosedParts(block, c, tail);
    var start := if c == '\n' && block != "" && block[|block| - 1] == '\r' then e - 1 else e;
    assert CloserEnd(s, start).Some? by { CloserThere(s, e, start); }
    FirstCloserIsFirst(s, 4);
    forall k | 4 <= k < start
      ensures CloserEnd(s, k).None?
    {
      ClosedBefore(block, c, tail, k);
    }
    hide CloserEnd, FencedUpTo, NoCloser;
    assert FirstCloser(s, 4).Some? && FirstCloser(s, 4).value.start == start;
    assert LeadingFrontmatter(s) == CloseAfter(s, 4) by { OpensAtOnce(s); }
    assert s[4..start] == block[..start - 4];
    assert block[..start - 4] == if c == '\n' then StripCr(block) else block;
  }

  lemma CloserThere(s: string, e: nat, start: nat)
    requires e < |s| && IsBreak(s[e]) && Dashes(s, e + 1)
    requires start == e || (start + 1 == e && s[start] == '\r' && s[e] == '\n')
    ensures CloserEnd(s, start).Some?
  {
  }

  lemma OpensAtOnce(s: string)
    requires Dashes(s, 0) && |s| > 3 && s[3] == '\n'
    ensures LeadingFrontmatter(s) == CloseAfter(s, 4)
  {
    hide FirstCloser;
    assert SkipTabsAndSpaces(s, 3) == 3;
  }

  /** Behind the match the note reads as `rest` exactly when its block closes nowhere inside. */
  lemma FencedBody(block: string, rest: string)
    ensures var s := Fenced(block, rest);
      && LeadingFrontmatter(s).Some? && LeadingFrontmatter(s).value.closer.end <= |s|
      && (StripOneBreak(s[LeadingFrontmatter(s).value.closer.end..]) == rest <==> NoCloser(block))
  {
    hide LeadingFrontmatter, Fenced, NoCloser;
    FencedMatch(block, rest);
    FencedParts(block, rest);
    var s := Fenced(block, rest);
    var end := LeadingFrontmatter(s).value.closer.end;
    if NoCloser(block) {
      assert s[end..][0] == '\n' && s[end..][1..] == rest;
    } else {
      assert |StripOneBreak(s[end..])| > |rest|;
    }
  }

  lemma ReassembledIsFenced(region: Region, block: string)
    requires region.before == "" || region.before == [BOM]
    ensures StripBom(Reassemble(region, block)) == Fenced(block, StripOneBreak(region.after))
  {
  }

  lemma LocatedBody(text: string)
    requires Locate(text).Some?
    ensures BodyOf(text) == StripOneBreak(Locate(text).value.after)
    ensures Locate(text).value.before == "" || Locate(text).value.before == [BOM]
  {
    hide LeadingFrontmatter;
  }

  /** Rewriting the block of a note leaves its body as read exactly when the new block closes nowhere inside. */
  lemma ReassembledBody(text: string, block: string)
    requires Locate(text).Some?
    ensures BodyOf(Reassemble(Locate(text).value, block)) == BodyOf(text) <==> NoCloser(block)
  {
    hide LeadingFrontmatter, Fenced, NoCloser, Locate, Reassemble, StripBom, StripOneBreak;
    LocatedBody(text);
    ReassembledIsFenced(Locate(text).value, block);
    FencedBody(block, StripOneBreak(Locate(text).value.after));
  }

  /** A note without frontmatter keeps its text, behind the blank line that `setFrontmatterField` adds. */
  lemma NewFrontmatterBody(block: string, text: string)
    ensures BodyOf("---\n" + block + "\n---\n\n" + text) == "\n" + text <==> NoCloser(block)
  {
    var rest := "\n" + text;
    assert "---\n" + block + "\n---\n\n" + text == Fenced(block, rest);
    assert StripBom(Fenced(block, rest)) == Fenced(block, rest);
    hide LeadingFrontmatter, Fenced, NoCloser, StripOneBreak;
    FencedBody(block, rest);
  }
}

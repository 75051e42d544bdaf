/**
 * The line editor's edits seen by the guard's reader. The editor finds a key's lines its own way and leaves what it
 * does not take for them; the guard was asked about the object with the key set or removed. Here is when the edited
 * lines read as that object.
 */
module GuardedEdits {
  import opened JsString
  import opened Splitting
  import opened AcceptGuard
  import opened FlowModel
  import opened BlockModel
  import opened BlockLines
  import opened BlockWindow
  import opened TopFields
  import opened Assignments
  import opened FieldEdits
  import Edit = FrontmatterEdit
  import Lines = FrontmatterFields
  import Back = FrontmatterReadBack

  /** The lines as the guard's reader has them, which cuts at `\r\n` where the editor cuts at `\n`. */
  function Stripped(lines: seq<string>): (r: seq<string>)
    ensures |r| == |lines| && forall i :: 0 <= i < |r| ==> r[i] == StripCr(lines[i])
  {
    seq(|lines|, i requires 0 <= i < |lines| => StripCr(lines[i]))
  }

  // ── The editor's key lines are the guard's ────────────────────────────────

  lemma KeyPrefix(line: string, key: string)
    requires Edit.IsKey(line, key)
    ensures Lines.PlainKey(key) && key + ":" <= StripCr(line)
  {
    Back.KeyIsPlain(line, key);
    hide Edit.IsKey;
    assert line[|key|] == ':' by { assert (key + ":")[|key|] == ':'; }
    assert forall i :: 0 <= i <= |key| ==> line[i] == (key + ":")[i];
  }

  /**
   * A line beginning with a plain key and a colon is a key line at column 0, unless it holds a raw control character.
   */
  lemma PlainIsTop(line: string, key: string)
    requires Lines.PlainKey(key) && key + ":" <= line && !HasControl(line)
    ensures TopLine(line)
  {
    assert line[0] == key[0];
    StartsPlain(line);
    hide HasControl;
  }

  lemma StartsPlain(line: string)
    requires line != "" && Edit.IsWordStart(line[0])
    ensures IndentOf(line) == Some(0) && SeqItem(line).None? && !IsIgnorable(line) && Trim(line) != "..."
    ensures !RootOpens(line)
  {
    assert !IsSpace(line[0]);
    TrimKeepsFirst(line);
  }

  lemma {:induction false} TrimKeepsFirst(s: string)
    requires s != "" && !IsSpace(s[0])
    ensures Trim(s) != "" && Trim(s)[0] == s[0]
  {
    assert TrimStart(s) == s;
    TrimEndKeepsFirst(s);
  }

  lemma {:induction false} TrimEndKeepsFirst(s: string)
    requires s != "" && !IsSpace(s[0])
    ensures TrimEnd(s) != "" && TrimEnd(s)[0] == s[0]
  {
    if IsSpace(s[|s| - 1]) {
      TrimEndKeepsFirst(s[..|s| - 1]);
    }
  }

  /** Whatever key the guard reads from such a line is this one. */
  lemma PlainKeyOf(line: string, key: string)
    requires Lines.PlainKey(key) && key + ":" <= line
    ensures KeyOf(line).Some? ==> KeyOf(line) == Some(key)
  {
    hide Captured, Trim;
    assert forall i :: 0 <= i < |key| ==> line[i] == key[i] && Edit.IsWord(key[i]);
    assert line[|key|] == ':';
    assert IndexOf(line, ':', 1) == |key|;
    assert line[..|key|] == key;
    PlainTrims(key);
  }

  lemma PlainTrims(key: string)
    requires Lines.PlainKey(key)
    ensures Trim(key) == key
  {
    assert Edit.IsWord(key[|key| - 1]);
  }

  lemma ItemNamesNoKey(line: string)
    requires Edit.IsListItem(line)
    ensures KeyOf(StripCr(line)).None?
  {
    hide HasControl, Trim, ParseQuoted, Captured;
    assert IsSpace(line[0]) && |line| > 2;
    assert StripCr(line)[0] == line[0];
  }

  /** In a block the guard reads, the lines the editor finds for a key lie in one field of that name. */
  lemma FoundInField(lines: seq<string>, key: string)
    requires Edit.FindKeyRange(lines, key, 0).Found? && FieldsOf(Stripped(lines)).Some?
    ensures var r := Edit.FindKeyRange(lines, key, 0);
      InField(Stripped(lines), r.start, r.end) && KeyOf(Stripped(lines)[r.start]) == Some(key)
  {
    hide TopLine, KeyOf, HasControl, FieldsOf, Edit.IsKey, Edit.IsListItem, Edit.FindKeyRange;
    var r, G := Edit.FindKeyRange(lines, key, 0), Stripped(lines);
    Lines.FoundIsRange(lines, key, 0);
    BlockIsClean(G);
    KeyPrefix(lines[r.start], key);
    PlainIsTop(G[r.start], key);
    PlainKeyOf(G[r.start], key);
    forall j | r.start < j < r.end
      ensures !TopLine(G[j])
    {
      Lines.ItemsAreItems(lines, r.start + 1, j);
      ItemNamesNoKey(lines[j]);
    }
  }

  lemma AcceptedFields(lines: seq<string>, before: Fields)
    requires ParseFrontmatter(lines) == Some(Map(before)) && BlockRoot(lines)
    ensures FieldsOf(lines).Some? && PutAll([], FieldsOf(lines).value) == before
  {
    hide ParseFrontmatter, FieldsOf, BlockRoot;
    DocumentIsItsFields(lines);
  }

  // ── A block that is one flow collection ───────────────────────────────────

  /** The guard reads this object of the lines, its keys in any order. */
  ghost predicate ReadsAs(lines: seq<string>, judged: Fields) {
    match ParseFrontmatter(lines)
    case Some(Map(fields)) => SameObject(fields, judged)
    case _ => false
  }

  /** What begins with an opening bracket is parsed as one flow collection, and is this object. */
  ghost predicate RootReadsAs(lines: seq<string>, judged: Fields) {
    match Peek(lines, 0)
    case Line(first) =>
      (match ParseRoot(lines[first..]) case Some(Map(fields)) => SameObject(fields, judged) case _ => false)
    case _ => false
  }

  lemma RootIsParsed(lines: seq<string>)
    requires !BlockRoot(lines)
    ensures Peek(lines, 0).Line? && ParseFrontmatter(lines) == ParseRoot(lines[Peek(lines, 0).at..])
  {
    hide Peek, IndentOf, ParseRoot, ParseMapping;
  }

  lemma RootReads(lines: seq<string>, judged: Fields)
    requires !BlockRoot(lines)
    ensures ReadsAs(lines, judged) <==> RootReadsAs(lines, judged)
  {
    hide Peek, BlockRoot, ParseFrontmatter, ParseRoot, SameObject;
    RootIsParsed(lines);
  }

  lemma {:induction false} StillBlockRoot(above: seq<string>, W: seq<string>, rest: seq<string>, below: seq<string>,
                                          key: string)
    requires BlockRoot(above + below) && Lines.PlainKey(key) && W != [] && key + ":" <= W[0]
    ensures BlockRoot(above + W + rest)
  {
    hide IndentOf, HasControl, IsIgnorable, Trim, RootOpens;
    PeekFirst(above, below, 0);
    PeekFirst(above, W + rest, 0);
    assert above + W + rest == above + (W + rest);
    assert W[0][0] == key[0];
    StartsPlain(W[0]);
    assert (above + (W + rest))[|above|] == W[0];
    if IndentOf(W[0]) == Some(0) {
      assert W[0][0..] == W[0];
    }
  }

  /** The first significant line lies in the first part, or is that of the second. */
  lemma {:induction false} PeekFirst(a: seq<string>, b: seq<string>, i: nat)
    requires i <= |a|
    ensures match Peek(a, i)
      case End => Peek(a + b, i) == Peek(a + b, |a|)
      case Line(at) => Peek(a + b, i) == Line(at) && (a + b)[at] == a[at]
      case Bad => Peek(a + b, i) == Bad
    decreases |a| - i
  {
    hide HasControl, IsIgnorable, Trim;
    if i < |a| {
      PeekFirst(a, b, i + 1);
    }
  }

  /** The first significant line stays the first while a key line below it, and what follows, gives way. */
  lemma FlowRootStays(G: seq<string>, start: nat, rest: seq<string>, key: string)
    requires !BlockRoot(G) && start < |G| && Lines.PlainKey(key) && key + ":" <= G[start]
    ensures !BlockRoot(G[..start] + rest)
  {
    hide IndentOf, IsIgnorable, Trim, HasControl, RootOpens;
    assert G == G[..start] + G[start..];
    PeekFirst(G[..start], G[start..], 0);
    PeekFirst(G[..start], rest, 0);
    if Peek(G[..start], 0) == End {
      KeyLineIsNoRoot(G, start, key);
    }
  }

  lemma KeyLineIsNoRoot(G: seq<string>, start: nat, key: string)
    requires start < |G| && Lines.PlainKey(key) && key + ":" <= G[start] && Peek(G, 0) == Peek(G, start)
    ensures BlockRoot(G)
  {
    assert G[start][0] == key[0];
    StartsPlain(G[start]);
    assert G[start][0..] == G[start];
    hide IndentOf, IsIgnorable, Trim, HasControl, RootOpens;
  }

  lemma FlowRootKept(kept: seq<string>, cut: seq<string>, rest: seq<string>)
    requires !BlockRoot(kept + cut) && forall i :: 0 <= i < |cut| ==> Trim(cut[i]) == ""
    ensures !BlockRoot(kept + rest)
  {
    hide IndentOf, Trim, HasControl, RootOpens, IsIgnorable;
    PeekFirst(kept, cut, 0);
    PeekFirst(kept, rest, 0);
    BlankIsNoRoot(kept, cut, 0);
  }

  lemma {:induction false} BlankIsNoRoot(kept: seq<string>, cut: seq<string>, i: nat)
    requires i <= |cut| && forall i :: 0 <= i < |cut| ==> Trim(cut[i]) == ""
    ensures !Peek(kept + cut, |kept| + i).Line?
    decreases |cut| - i
  {
    hide HasControl, Trim;
    if i < |cut| {
      BlankIsNoRoot(kept, cut, i + 1);
      assert (kept + cut)[|kept| + i] == cut[i];
    }
  }

  // ── Deleting ──────────────────────────────────────────────────────────────

  /**
   * No other field names the key, and what is left of the deleted one changes nothing above. Where what is left opens
   * with a bracket it is one flow collection, which then has to be the object itself.
   */
  ghost predicate DeletesCleanly(lines: seq<string>, key: string, before: Fields) {
    var G := Stripped(lines);
    match Edit.FindKeyRange(lines, key, 0)
    case Found(start, end) =>
      if BlockRoot(G[..start] + G[end..])
      then NamedOnce(G, start, end, key) && ReadsAbove(G[..start], Leftover(G, end), Below(G, end))
      else RootReadsAs(G[..start] + G[end..], RemoveField(before, key))
    case _ => false
  }

  /** The lines left read as the object the guard was asked about, exactly when the deletion is clean. */
  lemma DeleteReadsAsJudgedIff(lines: seq<string>, key: string, before: Fields)
    requires ParseFrontmatter(Stripped(lines)) == Some(Map(before)) && Edit.DeleteLines(lines, key).Some?
    ensures var after := Stripped(Edit.DeleteLines(lines, key).value);
      && (ReadsAs(after, RemoveField(before, key)) <==> DeletesCleanly(lines, key, before))
      && (BlockRoot(after) && DeletesCleanly(lines, key, before) ==>
           ParseFrontmatter(after) == Some(Map(RemoveField(before, key))))
  {
    hide ParseFrontmatter, FieldsOf, BlockRoot, Edit.FindKeyRange, TopLine, KeyOf, NamedOnce, ReadsAbove, InField;
    hide RootReadsAs;
    hide SameObject, Lines.PlainKey, Edit.IsKey, PutAll, RemoveField;
    var G, r := Stripped(lines), Edit.FindKeyRange(lines, key, 0);
    var after := Stripped(Edit.DeleteLines(lines, key).value);
    assert after == G[..r.start] + G[r.end..];
    KeyPrefix(lines[r.start], key);
    if BlockRoot(after) {
      if !BlockRoot(G) {
        FlowRootStays(G, r.start, G[r.end..], key);
      }
      AcceptedFields(G, before);
      FoundInField(lines, key);
      DocumentIsItsFields(after);
      DeletedOutcomeIff(G, r.start, r.end, key);
      DeletedObjectIff(G, r.start, r.end, key);
    } else {
      RootReads(after, RemoveField(before, key));
    }
  }

  // ── Setting ───────────────────────────────────────────────────────────────

  /** The lines written for the key, as the guard's reader has them. */
  function WrittenLines(key: string, value: Edit.EditValue): (r: seq<string>)
    ensures r != []
  {
    Stripped(Back.Written(key, value))
  }

  /**
   * The lines written are fields, the first of that name, that make of the object before what the guard was asked
   * about; what is left below them belongs to the last. A block that is one flow collection has to read as that object
   * itself.
   */
  ghost predicate SetsCleanly(lines: seq<string>, key: string, value: Edit.EditValue, v: Value, before: Fields)
    requires lines != []
  {
    var G, W := Stripped(lines), WrittenLines(key, value);
    if !BlockRoot(G) then
      var after := Edit.SetLines(lines, key, value);
      after.Some? && RootReadsAs(Stripped(after.value), PutField(before, key, v))
    else
      && BeginsField(W, key)
      && match Edit.FindKeyRange(lines, key, 0)
         case Found(start, end) => ReadsAsSet(FieldsFrom(W + Leftover(G, end)), key, v, before, Below(G, end))
         case Missing => ReadsAsSet(FieldsFrom(W), key, v, before, [])
         case Refused => false
  }

  lemma WrittenBegins(key: string, value: Edit.EditValue)
    requires Lines.PlainKey(key)
    ensures key + ":" <= WrittenLines(key, value)[0]
  {
    hide Edit.SerializeScalar, Lines.PlainKey, Split;
    var first := Back.Written(key, value)[0];
    Back.PlainKeyIsFree(key);
    assert key + ":" <= first by {
      match value
      case One(v) => Back.ScalarWritten(key, v);
      case Many(items) => if items == [] { Back.EmptyListWritten(key); } else { Back.ListWritten(key, items); }
    }
    assert first[|key|] == ':' by { assert (key + ":")[|key|] == ':'; }
  }

  lemma StrippedParts(a: seq<string>, b: seq<string>)
    ensures Stripped(a + b) == Stripped(a) + Stripped(b)
  {
  }

  lemma StrippedSet(lines: seq<string>, key: string, value: Edit.EditValue)
    requires lines != [] && Edit.SetLines(lines, key, value).Some?
    ensures var G, r, W := Stripped(lines), Edit.FindKeyRange(lines, key, 0), WrittenLines(key, value);
      Stripped(Edit.SetLines(lines, key, value).value)
      == if r.Found? then G[..r.start] + W + G[r.end..]
         else (if Trim(Last(lines)) == "" then G[..|G| - 1] else G) + W
  {
    hide Edit.FindKeyRange, Edit.SerializeKey, Split, Trim, StripCr, Stripped;
    var r, written := Edit.FindKeyRange(lines, key, 0), Back.Written(key, value);
    if r.Found? {
      StrippedSlices(lines, r.start, r.end);
      StrippedParts(lines[..r.start], written);
      StrippedParts(lines[..r.start] + written, lines[r.end..]);
    } else {
      StrippedSlices(lines, |lines| - 1, |lines|);
      StrippedParts(if Trim(Last(lines)) == "" then lines[..|lines| - 1] else lines, written);
    }
  }

  lemma StrippedSlices(lines: seq<string>, i: nat, j: nat)
    requires i <= j <= |lines|
    ensures Stripped(lines[..i]) == Stripped(lines)[..i] && Stripped(lines[j..]) == Stripped(lines)[j..]
  {
  }

  lemma {:induction false} StripKeepsBlank(line: string)
    ensures Trim(StripCr(line)) == Trim(line)
  {
    if line != "" && line[|line| - 1] == '\r' {
      TrimCr(line[..|line| - 1]);
      assert line == line[..|line| - 1] + ['\r'];
    }
  }

  lemma {:induction false} TrimCr(s: string)
    ensures Trim(s + ['\r']) == Trim(s)
  {
    if s == "" {
      assert (s + ['\r'])[1..] == "";
    } else if IsSpace(s[0]) {
      assert (s + ['\r'])[1..] == s[1..] + ['\r'];
      TrimCr(s[1..]);
    } else {
      assert (s + ['\r'])[..|s|] == s;
    }
  }

  /** Lines that are read begin, where a plain key was written, with a field of that key. */
  lemma BeginsWhereRead(above: seq<string>, W: seq<string>, rest: seq<string>, key: string)
    requires Lines.PlainKey(key) && W != [] && key + ":" <= W[0] && FieldsOf(above + W + rest).Some?
    ensures BeginsField(W, key)
  {
    hide TopLine, HasControl, KeyOf, FieldsOf, Lines.PlainKey;
    var all := above + W + rest;
    BlockIsClean(all);
    assert all[|above|] == W[0];
    PlainIsTop(W[0], key);
    PlainKeyOf(W[0], key);
  }

  lemma SetAround(G: seq<string>, above: seq<string>, W: seq<string>, rest: seq<string>, below: seq<string>,
                  key: string,
                  after: seq<string>)
    requires G == above + below && BlockRoot(G) && after == above + W + rest
    requires Lines.PlainKey(key) && W != [] && key + ":" <= W[0]
    ensures ParseFrontmatter(after)
         == match FieldsOf(after) { case None => None case Some(fields) => Some(Map(PutAll([], fields))) }
    ensures FieldsOf(after).Some? ==> BeginsField(W, key)
  {
    hide ParseFrontmatter, FieldsOf, BlockRoot, BeginsField, Lines.PlainKey, TopLine;
    StillBlockRoot(above, W, rest, below, key);
    DocumentIsItsFields(after);
    if FieldsOf(after).Some? {
      BeginsWhereRead(above, W, rest, key);
    }
  }

  /** Lines written in the place of those found. */
  lemma ReplacedIff(G: seq<string>, start: nat, end: nat, W: seq<string>, key: string, v: Value, before: Fields)
    requires BlockRoot(G) && FieldsOf(G).Some? && PutAll([], FieldsOf(G).value) == before
    requires InField(G, start, end) && KeyOf(G[start]) == Some(key)
    requires Lines.PlainKey(key) && W != [] && key + ":" <= W[0]
    ensures var after := G[..start] + W + G[end..];
      var clean := BeginsField(W, key) && ReadsAsSet(FieldsFrom(W + Leftover(G, end)), key, v, before, Below(G, end));
      && (ReadsAs(after, PutField(before, key, v)) <==> clean)
      && (NoTop(W[1..]) && clean ==> ParseFrontmatter(after) == Some(Map(PutField(before, key, v))))
  {
    hide ParseFrontmatter, FieldsOf, FieldsFrom, BlockRoot, TopLine, KeyOf, ReadsAsSet, ReadsWritten, PutField;
    hide SameObject, PutAll;
    hide Lines.PlainKey, Leftover, Below;
    var after := G[..start] + W + G[end..];
    assert G == G[..start] + G[start..];
    SetAround(G, G[..start], W, G[end..], G[start..], key, after);
    if BeginsField(W, key) {
      SetObjectIff(G, start, end, W, key, v);
      if NoTop(W[1..]) {
        OneFieldReadsAsSet(G, end, W, key, v, before);
        SetOutcomeIff(G, start, end, W, key, v);
      }
    }
  }

  /** Lines written behind a block. */
  lemma AppendedIff(G: seq<string>, kept: seq<string>, W: seq<string>, key: string, v: Value, before: Fields)
    requires BlockRoot(G) && kept <= G && FieldsOf(kept).Some? && PutAll([], FieldsOf(kept).value) == before
    requires Lines.PlainKey(key) && W != [] && key + ":" <= W[0]
    ensures var clean := BeginsField(W, key) && ReadsAsSet(FieldsFrom(W), key, v, before, []);
      && (ReadsAs(kept + W, PutField(before, key, v)) <==> clean)
      && (NoTop(W[1..]) && clean ==> ParseFrontmatter(kept + W) == Some(Map(PutField(before, key, v))))
  {
    hide ParseFrontmatter, FieldsOf, FieldsFrom, BlockRoot, TopLine, KeyOf, ReadsAsSet, ReadField, PutField, SameObject;
    hide PutAll;
    hide Lines.PlainKey;
    assert G == kept + G[|kept|..] && kept + W + [] == kept + W;
    SetAround(G, kept, W, [], G[|kept|..], key, kept + W);
    if BeginsField(W, key) {
      AppendedObjectIff(kept, W, key, v);
      if NoTop(W[1..]) {
        OneFieldAppended(W, key, v, before);
        AppendedOutcomeIff(kept, W, key, v);
      }
    }
  }

  /** The lines kept when others are put behind them: a blank last one is left out. */
  function KeptLines(lines: seq<string>): seq<string>
    requires lines != []
  {
    if Trim(Last(lines)) == "" then Stripped(lines)[..|lines| - 1] else Stripped(lines)
  }

  lemma KeptReads(lines: seq<string>, before: Fields)
    requires lines != [] && ParseFrontmatter(Stripped(lines)) == Some(Map(before)) && BlockRoot(Stripped(lines))
    ensures KeptLines(lines) <= Stripped(lines)
    ensures FieldsOf(KeptLines(lines)).Some? && PutAll([], FieldsOf(KeptLines(lines)).value) == before
  {
    hide ParseFrontmatter, FieldsOf, BlockRoot, Trim, PutAll, StripCr;
    AcceptedFields(Stripped(lines), before);
    StripKeepsBlank(Last(lines));
    if Trim(Last(lines)) == "" {
      BlankLastLine(Stripped(lines));
    }
  }

  lemma KeptRoot(lines: seq<string>, rest: seq<string>)
    requires lines != [] && !BlockRoot(Stripped(lines))
    ensures !BlockRoot(KeptLines(lines) + rest)
  {
    hide BlockRoot, Trim, StripCr;
    var G, kept := Stripped(lines), KeptLines(lines);
    StripKeepsBlank(Last(lines));
    assert G == kept + G[|kept|..];
    FlowRootKept(kept, G[|kept|..], rest);
  }

  /** The lines written read as the object the guard was asked about, exactly when the setting is clean. */
  lemma SetReadsAsJudgedIff(lines: seq<string>, key: string, value: Edit.EditValue, v: Value, before: Fields)
    requires lines != [] && ParseFrontmatter(Stripped(lines)) == Some(Map(before))
    requires Lines.PlainKey(key) && Edit.SetLines(lines, key, value).Some?
    ensures var after, judged := Stripped(Edit.SetLines(lines, key, value).value), PutField(before, key, v);
      && (ReadsAs(after, judged) <==> SetsCleanly(lines, key, value, v, before))
      && (BlockRoot(Stripped(lines)) && NoTop(WrittenLines(key, value)[1..])
          && SetsCleanly(lines, key, value, v, before) ==>
           ParseFrontmatter(after) == Some(Map(judged)))
  {
    hide ParseFrontmatter, FieldsOf, FieldsFrom, BlockRoot, Edit.FindKeyRange, Edit.SetLines, Stripped, KeptLines;
    hide InField, TopLine, KeyOf;
    hide Lines.PlainKey, WrittenLines, PutField, RootReadsAs, ReadsAs, ReadsAsSet, BeginsField, Leftover, Below, PutAll;
    hide NoTop;
    var G, W, r := Stripped(lines), WrittenLines(key, value), Edit.FindKeyRange(lines, key, 0);
    var after := Stripped(Edit.SetLines(lines, key, value).value);
    SetIsNotRefused(lines, key, value);
    WrittenBegins(key, value);
    SetGives(lines, key, value);
    if !BlockRoot(G) {
      RootIsKept(lines, key, value);
      RootReads(after, PutField(before, key, v));
    } else if r.Found? {
      AcceptedFields(G, before);
      FoundInField(lines, key);
      ReplacedIff(G, r.start, r.end, W, key, v, before);
    } else {
      KeptReads(lines, before);
      AppendedIff(G, KeptLines(lines), W, key, v, before);
    }
  }

  lemma SetGives(lines: seq<string>, key: string, value: Edit.EditValue)
    requires lines != [] && Edit.SetLines(lines, key, value).Some?
    ensures var G, r, W := Stripped(lines), Edit.FindKeyRange(lines, key, 0), WrittenLines(key, value);
      Stripped(Edit.SetLines(lines, key, value).value)
      == if r.Found? then G[..r.start] + W + G[r.end..] else KeptLines(lines) + W
  {
    hide Edit.FindKeyRange, Edit.SetLines, Stripped, WrittenLines, Trim;
    StrippedSet(lines, key, value);
  }

  lemma RootIsKept(lines: seq<string>, key: string, value: Edit.EditValue)
    requires lines != [] && Edit.SetLines(lines, key, value).Some? && !BlockRoot(Stripped(lines))
    ensures !BlockRoot(Stripped(Edit.SetLines(lines, key, value).value))
  {
    hide Edit.FindKeyRange, Edit.SetLines, Stripped, KeptLines, WrittenLines, BlockRoot, Edit.IsKey, Lines.PlainKey;
    var G, W, r := Stripped(lines), WrittenLines(key, value), Edit.FindKeyRange(lines, key, 0);
    SetGives(lines, key, value);
    if r.Found? {
      KeyPrefix(lines[r.start], key);
      FlowRootStays(G, r.start, W + G[r.end..], key);
      assert G[..r.start] + W + G[r.end..] == G[..r.start] + (W + G[r.end..]);
    } else {
      KeptRoot(lines, W);
    }
  }

  lemma SetIsNotRefused(lines: seq<string>, key: string, value: Edit.EditValue)
    requires lines != [] && Edit.SetLines(lines, key, value).Some?
    ensures !Edit.FindKeyRange(lines, key, 0).Refused?
  {
    hide Edit.FindKeyRange;
  }
}

/**
 * Writes of one note as they reach the disk: whole texts, and fields set or deleted by the line editor, each behind the
 * accept guard. What the guard was shown is what the text written reads as, for whole texts always and for field edits
 * exactly when they are clean; and over any run of such writes no acceptance is introduced and no protected property
 * moves.
 */
module GuardedWrites {
  import opened JsString
  import opened Splitting
  import opened AcceptGuard
  import opened AcceptTransition
  import opened FlowModel
  import opened BlockModel
  import opened BlockSound
  import opened BlockWindow
  import opened TopFields
  import opened Assignments
  import opened KeyOrder
  import opened FieldEdits
  import opened GuardedEdits
  import opened WrittenValues
  import opened BrokenValues
  import opened GuardedTexts
  import opened ClosedNotes
  import opened Fence
  import Edit = FrontmatterEdit
  import Lines = FrontmatterFields
  import Back = FrontmatterReadBack

  // ── Writes ────────────────────────────────────────────────────────────────

  datatype Write =
    | WholeText(text: string)
    | SetField(key: string, value: Edit.EditValue)
    | DeleteField(key: string)

  /**
   * `policy` is the guard's; `number` is the number a text shows; `mentions` says that a frontmatter which cannot be
   * read names a declared property.
   */
  datatype Guard = Guard(policy: Policy, number: string -> real, mentions: string -> bool)

  /** The object the guard is shown as the outcome. */
  function Judged(g: Guard, before: Fields, w: Write): Option<Fields> {
    match w
    case WholeText(text) => GuardRead(text)
    case SetField(key, value) => Some(PutField(before, key, JudgedValue(g.number, value)))
    case DeleteField(key) => Some(RemoveField(before, key))
  }

  predicate Passes(g: Guard, before: Fields, after: Fields) {
    TransitionReason(g.policy, before, after).None?
  }

  /** `guardWrittenContent`: the old text is read only if the new one calls for it. */
  predicate WholeTextPasses(g: Guard, text: string, after: Fields) {
    !NeedsBefore(g.policy, after) ||
    match GuardRead(text)
    case Some(before) => Passes(g, before, after)
    case None => !g.mentions(text) && Passes(g, [], after)
  }

  /** The text on disk after the write; None when it is refused or writes nothing. */
  function Attempt(g: Guard, text: string, w: Write): Option<string> {
    match w
    case WholeText(next) =>
      if GuardRead(next).Some? && WholeTextPasses(g, text, GuardRead(next).value) then Some(next) else None
    case SetField(key, value) =>
      if GuardRead(text).Some? && Passes(g, GuardRead(text).value, Judged(g, GuardRead(text).value, w).value)
      then Edit.SetField(text, key, value) else None
    case DeleteField(key) =>
      if Edit.DeleteField(text, key).Some? && GuardRead(text).Some?
        && Passes(g, GuardRead(text).value, Judged(g, GuardRead(text).value, w).value)
      then Edit.DeleteField(text, key) else None
  }

  method SetFrontmatterField(g: Guard, text: string, key: string, value: Edit.EditValue) returns (out: Option<string>)
    ensures out == Attempt(g, text, SetField(key, value))
  {
    hide GuardRead, TransitionReason, PutField, JudgedValue, Locate, Split, Edit.SerializeKey, Edit.FindKeyRange;
    hide Reassemble, Trim, Edit.JoinLines;
    var beforeFm := GuardRead(text);
    if beforeFm.None? {
      return None;
    }
    var afterFm := PutField(beforeFm.value, key, JudgedValue(g.number, value));
    var reason := AcceptTransition.AcceptTransitionReason(g.policy, beforeFm.value, afterFm);
    if reason.Some? {
      return None;
    }
    var region := Locate(text);
    var serialized := Edit.SerializeKey(key, value);
    if region.None? {
      return Some("---\n" + serialized + "\n---\n\n" + text);
    }
    var lines := Split(region.value.block, '\n');
    var range := Edit.FindRange(lines, key);
    match range {
      case Refused => return None;
      case Found(start, end) =>
        lines := lines[..start] + Split(serialized, '\n') + lines[end..];
      case Missing =>
        if |lines| > 0 && Trim(lines[|lines| - 1]) == "" {
          lines := lines[..|lines| - 1];
        }
        lines := lines + Split(serialized, '\n');
    }
    return Some(Reassemble(region.value, Edit.JoinLines(lines)));
  }

  method DeleteFrontmatterField(g: Guard, text: string, key: string) returns (out: Option<string>)
    ensures out == Attempt(g, text, DeleteField(key))
  {
    hide GuardRead, TransitionReason, RemoveField, Locate, Split, Edit.FindKeyRange, Reassemble, Edit.JoinLines;
    var region := Locate(text);
    if region.None? {
      return None;
    }
    var lines := Split(region.value.block, '\n');
    var range := Edit.FindRange(lines, key);
    if !range.Found? {
      return None;
    }
    var beforeFm := GuardRead(text);
    if beforeFm.None? {
      return None;
    }
    var reason := AcceptTransition.AcceptTransitionReason(g.policy, beforeFm.value, RemoveField(beforeFm.value, key));
    if reason.Some? {
      return None;
    }
    lines := lines[..range.start] + lines[range.end..];
    return Some(Reassemble(region.value, Edit.JoinLines(lines)));
  }

  // ── Clean writes ──────────────────────────────────────────────────────────

  /** The lines of the note's first field are fields that make of no object the one judged. */
  ghost predicate BeginsCleanly(key: string, value: Edit.EditValue, v: Value) {
    BeginsField(WrittenLines(key, value), key) && ReadsAsSet(FieldsFrom(WrittenLines(key, value)), key, v, [], [])
  }

  /** A value that closes the fence leaves what was judged only where the lines above it are one flow collection. */
  ghost predicate ClosesCleanly(text: string, key: string, value: Edit.EditValue, judged: Fields) {
    && Locate(text).Some? && !BlockRoot(Stripped(BlockLinesOf(text)))
    && RootReadsAs(Stripped(LinesAbove(text, key)) + CutLines(key, value), judged)
  }

  ghost predicate SetIsClean(text: string, key: string, value: Edit.EditValue, v: Value, before: Fields) {
    if !NoCloser(Edit.SerializeKey(key, value)) then ClosesCleanly(text, key, value, PutField(before, key, v))
    else if Locate(text).None? then BeginsCleanly(key, value, v)
    else SetsCleanly(BlockLinesOf(text), key, value, v, before)
  }

  /** A write that leaves on disk what the guard was shown. */
  ghost predicate Clean(g: Guard, text: string, w: Write) {
    match w
    case WholeText(_) => true
    case SetField(key, value) =>
      GuardRead(text).Some? && SetIsClean(text, key, value, JudgedValue(g.number, value), GuardRead(text).value)
    case DeleteField(key) =>
      Locate(text).Some? && GuardRead(text).Some? && DeletesCleanly(BlockLinesOf(text), key, GuardRead(text).value)
  }

  /** The guard reads this object of the text, its keys in any order. */
  ghost predicate TextReadsAs(text: string, judged: Fields) {
    GuardRead(text).Some? && SameObject(GuardRead(text).value, judged)
  }

  lemma TextReads(text: string, lines: seq<string>, judged: Fields)
    requires GuardRead(text) == ReadLines(lines)
    ensures TextReadsAs(text, judged) <==> ReadsAs(lines, judged)
  {
    hide ParseFrontmatter, GuardRead, SameObject;
  }

  /** The tools' keys are plain, and a number is written as `String` shows it. */
  predicate TakenByTools(w: Write) {
    w.SetField? ==> Lines.PlainKey(w.key) && AllProper(w.value)
  }

  lemma DeletedIff(text: string, key: string, before: Fields)
    requires GuardRead(text) == Some(before) && Edit.DeleteField(text, key).Some?
    ensures TextReadsAs(Edit.DeleteField(text, key).value, RemoveField(before, key))
       <==> DeletesCleanly(BlockLinesOf(text), key, before)
    ensures var after := Edit.DeleteLines(BlockLinesOf(text), key);
      after.Some? && BlockRoot(Stripped(after.value)) && DeletesCleanly(BlockLinesOf(text), key, before) ==>
        GuardRead(Edit.DeleteField(text, key).value) == Some(RemoveField(before, key))
  {
    hide Locate, ParseFrontmatter, BlockRoot, DeletesCleanly, Edit.DeleteLines, Edit.CleanLines, GuardRead, RemoveField;
    hide Reassemble;
    hide Split, TextReadsAs, ReadsAs, Edit.JoinLines, Stripped;
    var after := Edit.DeleteLines(BlockLinesOf(text), key).value;
    BlockReads(text);
    DeletedLinesAreClean(text, key);
    DeleteReadsAsJudgedIff(BlockLinesOf(text), key, before);
    RewrittenReads(text, after);
    TextReads(Edit.DeleteField(text, key).value, Stripped(after), RemoveField(before, key));
  }

  lemma SetLinesIff(text: string, key: string, value: Edit.EditValue, v: Value, before: Fields)
    requires Locate(text).Some? && GuardRead(text) == Some(before) && Edit.SetField(text, key, value).Some?
    requires Lines.PlainKey(key) && NoCloser(Edit.SerializeKey(key, value))
    ensures TextReadsAs(Edit.SetField(text, key, value).value, PutField(before, key, v))
       <==> SetsCleanly(BlockLinesOf(text), key, value, v, before)
    ensures var ordered := BlockRoot(Stripped(BlockLinesOf(text))) && NoTop(WrittenLines(key, value)[1..]);
      ordered && SetsCleanly(BlockLinesOf(text), key, value, v, before) ==>
        GuardRead(Edit.SetField(text, key, value).value) == Some(PutField(before, key, v))
  {
    hide Locate, ParseFrontmatter, BlockRoot, SetsCleanly, Edit.SetLines, Edit.CleanLines, GuardRead, PutField;
    hide Reassemble;
    hide NoCloser, Lines.PlainKey, NoTop, WrittenLines, Edit.SerializeKey, Split, TextReadsAs, ReadsAs, Edit.JoinLines;
    hide Stripped;
    var after := Edit.SetLines(BlockLinesOf(text), key, value).value;
    BlockReads(text);
    SetLinesAreClean(text, key, value);
    SetReadsAsJudgedIff(BlockLinesOf(text), key, value, v, before);
    RewrittenReads(text, after);
    TextReads(Edit.SetField(text, key, value).value, Stripped(after), PutField(before, key, v));
  }

  /** The first field of a note. */
  lemma FirstFieldIff(text: string, key: string, value: Edit.EditValue, v: Value)
    requires Locate(text).None? && Lines.PlainKey(key) && NoCloser(Edit.SerializeKey(key, value))
    ensures Edit.SetField(text, key, value).Some? && GuardRead(text) == Some([])
    ensures TextReadsAs(Edit.SetField(text, key, value).value, PutField([], key, v)) <==> BeginsCleanly(key, value, v)
    ensures NoTop(WrittenLines(key, value)[1..]) && BeginsCleanly(key, value, v) ==>
      GuardRead(Edit.SetField(text, key, value).value) == Some(PutField([], key, v))
  {
    hide ParseFrontmatter, Edit.SerializeKey, NoCloser, Lines.PlainKey, WrittenLines, TextReadsAs, ReadsAs, PutField;
    hide FieldsFrom;
    hide NoTop, ReadsAsSet, BeginsField, GuardLines, BlockRoot;
    var W := WrittenLines(key, value);
    var none: seq<string> := [];
    FirstFieldReads(text, key, value);
    NothingIsBlock();
    WrittenBegins(key, value);
    AppendedIff(none, none, W, key, v, []);
    assert none + W == W;
    TextReads(Edit.SetField(text, key, value).value, W, PutField([], key, v));
  }

  /** A value that closes the fence. */
  lemma ClosedIff(number: string -> real, text: string, key: string, value: Edit.EditValue, before: Fields)
    requires GuardRead(text) == Some(before) && Edit.SetField(text, key, value).Some? && Lines.PlainKey(key)
    requires !NoCloser(Edit.SerializeKey(key, value))
    ensures var judged := PutField(before, key, JudgedValue(number, value));
      && (ClosesCleanly(text, key, value, judged) ==> TextReadsAs(Edit.SetField(text, key, value).value, judged))
      && (AllProper(value) && TextReadsAs(Edit.SetField(text, key, value).value, judged) ==>
           ClosesCleanly(text, key, value, judged))
  {
    hide ParseFrontmatter, BlockRoot, Lines.PlainKey, NoCloser, Edit.SerializeKey, Edit.SetField, Locate, GuardRead;
    hide LinesAbove;
    hide CutLines, AllProper, JudgedValue, PutField, RootReadsAs, ReadsAs, SameObject, ValueOf, Stripped;
    var v := JudgedValue(number, value);
    var judged, L := PutField(before, key, v), Stripped(LinesAbove(text, key)) + CutLines(key, value);
    var out := Edit.SetField(text, key, value).value;
    if Locate(text).Some? && !BlockRoot(Stripped(BlockLinesOf(text))) {
      ClosedReads(text, key, value);
      RootOfCut(text, key, value);
      RootReads(L, judged);
      TextReads(out, L, judged);
    } else if AllProper(value) {
      PutValue(before, key, v, key);
      ClosedNeverReads(number, text, key, value, judged);
    }
  }

  /** The guard reads of the text written the object it was shown, exactly when the write is clean. */
  lemma CleanIff(g: Guard, text: string, w: Write)
    requires GuardRead(text).Some? && Attempt(g, text, w).Some? && TakenByTools(w)
    ensures Judged(g, GuardRead(text).value, w).Some?
    ensures TextReadsAs(Attempt(g, text, w).value, Judged(g, GuardRead(text).value, w).value) <==> Clean(g, text, w)
  {
    hide GuardRead, PutField, RemoveField, JudgedValue, Locate, Edit.SetField, Edit.DeleteField, Passes, NoCloser;
    hide AllProper;
    hide SetsCleanly, DeletesCleanly, BeginsCleanly, ClosesCleanly, Edit.SerializeKey, Lines.PlainKey, SameObject;
    match w
    case WholeText(next) => ItselfIsSame(GuardRead(next).value);
    case SetField(key, value) =>
      if !NoCloser(Edit.SerializeKey(key, value)) {
        ClosedIff(g.number, text, key, value, GuardRead(text).value);
      } else if Locate(text).Some? {
        SetLinesIff(text, key, value, JudgedValue(g.number, value), GuardRead(text).value);
      } else {
        FirstFieldIff(text, key, value, JudgedValue(g.number, value));
      }
    case DeleteField(key) =>
      DeletedIsLocated(text, key);
      DeletedIff(text, key, GuardRead(text).value);
  }

  lemma ItselfIsSame(f: Fields)
    ensures SameObject(f, f)
  {
  }

  lemma DeletedIsLocated(text: string, key: string)
    requires Edit.DeleteField(text, key).Some?
    ensures Locate(text).Some?
  {
  }

  /** The write leaves the keys in the order judged: one field written, or the lines left read line by line. */
  predicate KeepsOrder(text: string, w: Write) {
    match w
    case WholeText(_) => true
    case SetField(key, value) =>
      && Lines.PlainKey(key) && NoTop(WrittenLines(key, value)[1..])
      && (Locate(text).Some? ==> BlockRoot(Stripped(BlockLinesOf(text))))
    case DeleteField(key) =>
      && Locate(text).Some? && Edit.DeleteLines(BlockLinesOf(text), key).Some?
      && BlockRoot(Stripped(Edit.DeleteLines(BlockLinesOf(text), key).value))
  }

  /** Then it is that object to the order of its keys. */
  lemma CleanKeepsOrder(g: Guard, text: string, w: Write)
    requires GuardRead(text).Some? && Attempt(g, text, w).Some? && Clean(g, text, w) && KeepsOrder(text, w)
    ensures GuardRead(Attempt(g, text, w).value) == Judged(g, GuardRead(text).value, w)
  {
    hide GuardRead, PutField, RemoveField, JudgedValue, Locate, Edit.SetField, Edit.DeleteField, Passes, NoCloser;
    hide SetsCleanly, DeletesCleanly, BeginsCleanly, Edit.SerializeKey, Lines.PlainKey, Edit.DeleteLines, BlockRoot;
    hide NoTop;
    match w
    case WholeText(next) =>
    case SetField(key, value) =>
      if Locate(text).Some? {
        SetLinesIff(text, key, value, JudgedValue(g.number, value), GuardRead(text).value);
      } else {
        FirstFieldIff(text, key, value, JudgedValue(g.number, value));
      }
    case DeleteField(key) => DeletedIff(text, key, GuardRead(text).value);
  }

  lemma JudgedIsTree(g: Guard, before: Fields, w: Write)
    requires Tree(before) && Judged(g, before, w).Some?
    ensures Tree(Judged(g, before, w).value)
  {
    hide GuardRead, Tree, WellFormed;
    match w
    case WholeText(text) => ReadIsTree(text);
    case SetField(key, value) =>
      JudgedIsFormed(g.number, value);
      PutTree(before, key, JudgedValue(g.number, value));
    case DeleteField(key) => RemoveTree(before, key);
  }

  lemma JudgedIsFormed(number: string -> real, value: Edit.EditValue)
    ensures WellFormed(JudgedValue(number, value))
  {
  }

  /** What the guard was shown is what the note then reads as, and the verdict on it is the same: to pass. */
  lemma CleanWriteReadsAsJudged(g: Guard, text: string, w: Write)
    requires GuardRead(text).Some? && Attempt(g, text, w).Some? && Clean(g, text, w) && TakenByTools(w)
    ensures Judged(g, GuardRead(text).value, w).Some?
    ensures TextReadsAs(Attempt(g, text, w).value, Judged(g, GuardRead(text).value, w).value)
    ensures TransitionReason(g.policy, GuardRead(text).value, GuardRead(Attempt(g, text, w).value).value).None?
  {
    hide GuardRead, Clean, TransitionReason, Judged, Edit.SetField, Edit.DeleteField, Tree, SameObject, TakenByTools;
    CleanIff(g, text, w);
    var before, out := GuardRead(text).value, Attempt(g, text, w).value;
    var judged := Judged(g, before, w).value;
    ReadIsTree(text);
    ReadIsTree(out);
    JudgedIsTree(g, before, w);
    JudgedPasses(g, text, w);
    SameVerdict(g.policy, before, GuardRead(out).value, judged);
  }

  lemma JudgedPasses(g: Guard, text: string, w: Write)
    requires GuardRead(text).Some? && Attempt(g, text, w).Some? && Judged(g, GuardRead(text).value, w).Some?
    ensures Passes(g, GuardRead(text).value, Judged(g, GuardRead(text).value, w).value)
  {
    hide GuardRead, TransitionReason, PutField, RemoveField, JudgedValue, Edit.SetField, Edit.DeleteField, NeedsBefore;
    match w
    case WholeText(next) =>
      if !NeedsBefore(g.policy, GuardRead(next).value) {
        ShortcutIsSound(g.policy, GuardRead(text).value, GuardRead(next).value);
      }
    case SetField(key, value) =>
    case DeleteField(key) =>
  }

  // ── Which edits are clean ─────────────────────────────────────────────────

  /**
   * The note has no frontmatter, or one that is read line by line and in which setting the key leaves nothing behind.
   */
  ghost predicate Settable(text: string, key: string) {
    && Lines.PlainKey(key) && GuardRead(text).Some?
    && (Locate(text).Some? ==> NothingLeft(BlockLinesOf(text), key))
  }

  /** There a value is set cleanly exactly when it comes back. */
  lemma ValueIsCleanIff(g: Guard, text: string, key: string, value: Edit.EditValue)
    requires Settable(text, key) && AllProper(value)
    ensures Clean(g, text, SetField(key, value)) <==> ValueComesBack(g.number, value)
  {
    hide Lines.PlainKey, GuardRead, Locate, WrittenLines, FieldsFrom, ReadsAsSet, BeginsField, AllProper;
    hide ValueComesBack;
    hide Edit.SerializeKey, SetsCleanly, NoCloser, Split, NothingLeft, JudgedValue, PutField;
    if !NoCloser(Edit.SerializeKey(key, value)) {
      CutIsIllegible(g.number, key, value);
      if Locate(text).Some? {
        NothingLeftIsBlock(BlockLinesOf(text), key);
      }
    } else if Locate(text).Some? {
      BlockReads(text);
      SetsCleanlyIff(g.number, BlockLinesOf(text), key, value, GuardRead(text).value);
    } else {
      UnfencedHasNoFields(text);
      assert !NamesKey([], key) by { NothingNamed(key); }
      WrittenReadsIff(g.number, key, value, [], []);
    }
  }

  lemma UnfencedHasNoFields(text: string)
    requires Locate(text).None?
    ensures GuardRead(text) == Some([])
  {
  }

  lemma NothingLeftIsBlock(lines: seq<string>, key: string)
    requires NothingLeft(lines, key)
    ensures BlockRoot(Stripped(lines))
  {
  }

  lemma SetsCleanlyIff(number: string -> real, lines: seq<string>, key: string, value: Edit.EditValue, before: Fields)
    requires lines != [] && ParseFrontmatter(Stripped(lines)) == Some(Map(before))
    requires Lines.PlainKey(key) && AllProper(value) && NothingLeft(lines, key)
    ensures SetsCleanly(lines, key, value, JudgedValue(number, value), before) <==> ValueComesBack(number, value)
  {
    hide ParseFrontmatter, Lines.PlainKey, AllProper, NothingLeft, SetsCleanly, ValueComesBack, JudgedValue, ReadsAs;
    hide PutField;
    hide Edit.SetLines, Stripped;
    SetValueReadsAsJudgedIff(number, lines, key, value, before);
    SetReadsAsJudgedIff(lines, key, value, JudgedValue(number, value), before);
  }

  /** Deleting the only field of that name, with nothing of it left but blank lines and comments, is clean. */
  lemma WholeFieldDeletedIsClean(g: Guard, text: string, key: string)
    requires Locate(text).Some? && GuardRead(text).Some? && BlockRoot(Stripped(BlockLinesOf(text)))
    requires var lines, r := BlockLinesOf(text), Edit.FindKeyRange(BlockLinesOf(text), key, 0);
      && r.Found? && NamedOnce(Stripped(lines), r.start, r.end, key) && Quiet(Leftover(Stripped(lines), r.end))
      && BlockRoot(Stripped(Edit.DeleteLines(lines, key).value))
    ensures Clean(g, text, DeleteField(key))
  {
    hide GuardRead, Locate, BlockRoot, Split, Edit.FindKeyRange, InField, NamedOnce, Quiet, ReadsAbove, TopLine, KeyOf;
    hide ParseFrontmatter, ReadField, FieldsOf, FieldsFrom;
    var lines, r := BlockLinesOf(text), Edit.FindKeyRange(BlockLinesOf(text), key, 0);
    var G := Stripped(lines);
    BlockReads(text);
    AcceptedFields(G, GuardRead(text).value);
    FoundInField(lines, key);
    Around(G, r.start, r.end);
    QuietReadsAbove(G[..r.start], Leftover(G, r.end), Below(G, r.end));
    StrippedSlices(lines, r.start, r.end);
    StrippedParts(lines[..r.start], lines[r.end..]);
  }

  // ── Runs ──────────────────────────────────────────────────────────────────

  /** Successive texts of one note, each written by an attempt that the guard let through and that was clean. */
  ghost predicate CleanRun(g: Guard, texts: seq<string>, writes: seq<Write>) {
    && |texts| == |writes| + 1 && GuardRead(texts[0]).Some?
    && forall i :: 0 <= i < |writes| ==> (
         && TakenByTools(writes[i]) && Clean(g, texts[i], writes[i])
         && Attempt(g, texts[i], writes[i]) == Some(texts[i + 1]))
  }

  lemma ReadIsTree(text: string)
    ensures GuardRead(text).Some? ==> Tree(GuardRead(text).value)
  {
    hide ParseFrontmatter, Locate, GuardLines, Tree;
    NoFieldsTree();
    if Locate(text).Some? {
      FrontmatterIsTree(GuardLines(Locate(text).value.block));
    }
  }

  /** Every text of a clean run can be read, and is carried forward from the one before as the guard demands. */
  lemma {:induction false} RunReads(g: Guard, texts: seq<string>, writes: seq<Write>) returns (run: seq<Fields>)
    requires CleanRun(g, texts, writes)
    ensures |run| == |texts| && GuardedRun(g.policy, run)
    ensures forall i :: 0 <= i < |texts| ==> GuardRead(texts[i]) == Some(run[i])
    decreases |writes|
  {
    hide Attempt, Clean, GuardRead, Tree, TransitionReason, Judged, SameObject, TakenByTools;
    if writes == [] {
      run := [GuardRead(texts[0]).value];
      ReadIsTree(texts[0]);
    } else {
      var n := |writes| - 1;
      var front := RunReads(g, texts[..n + 1], writes[..n]);
      assert Attempt(g, texts[n], writes[n]) == Some(texts[n + 1]);
      CleanWriteReadsAsJudged(g, texts[n], writes[n]);
      ReadIsTree(texts[n + 1]);
      run := front + [GuardRead(texts[n + 1]).value];
    }
  }

  /** Over any number of clean writes: what the last text asserts, the first asserted with an equal value. */
  lemma AcceptanceNeverIntroduced(g: Guard, texts: seq<string>, writes: seq<Write>, field: (string, Value))
    requires CleanRun(g, texts, writes)
    requires GuardRead(texts[|writes|]).Some? && field in GuardRead(texts[|writes|]).value
    requires Asserts(g.policy.norm, field)
    ensures AlreadyAsserted(g.policy.norm, GuardRead(texts[0]).value, field)
  {
    hide Attempt, Clean, GuardRead, GuardedRun, Asserts, TakenByTools;
    var run := RunReads(g, texts, writes);
    AssertionsCarried(g.policy, run, field);
  }

  /** Over any number of clean writes: a declared property ends with the multiset of values it started with. */
  lemma ProtectedNeverMoves(g: Guard, texts: seq<string>, writes: seq<Write>, prop: string)
    requires CleanRun(g, texts, writes) && prop in g.policy.declared
    ensures GuardRead(texts[|writes|]).Some?
    ensures PropertyHeld(g.policy.norm, GuardRead(texts[0]).value, GuardRead(texts[|writes|]).value, prop)
  {
    hide Attempt, Clean, GuardRead, GuardedRun, PropertyHeld, TakenByTools;
    var run := RunReads(g, texts, writes);
    PropertyCarried(g.policy, run, prop);
  }
}

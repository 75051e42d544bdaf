/** Setting or deleting one field: which lines the editor then finds for every other field, and for the one deleted. */
module FrontmatterFields {
  import opened JsString
  import opened Splitting
  import opened Fence
  import opened FrontmatterEdit

  /** The lines the editor takes for a key: none, or a shape it refuses to touch. */
  datatype Field = Lines(lines: seq<string>) | NoField | Unsupported

  function FieldOf(lines: seq<string>, key: string): Field {
    match FindKeyRange(lines, key, 0)
    case Missing => NoField
    case Refused => Unsupported
    case Found(start, end) => Lines(lines[start..end])
  }

  /** The same, reading the lines one by one from the front. */
  function Scan(lines: seq<string>, key: string): Field {
    if lines == [] then NoField
    else if IsKey(lines[0], key) then ScanAt(lines, ParseKey(lines[0]).value.raw)
    else Scan(lines[1..], key)
  }

  function ScanAt(lines: seq<string>, raw: string): Field
    requires lines != []
  {
    match RangeAt(lines, 0, raw)
    case Refused => Unsupported
    case Found(_, end) => Lines(lines[..end])
    case Missing => NoField
  }

  lemma {:induction false} ItemsEndShift(lines: seq<string>, i: nat, j: nat)
    requires i <= j <= |lines|
    ensures ItemsEnd(lines, j) == i + ItemsEnd(lines[i..], j - i)
    decreases |lines| - j
  {
    hide IsListItem;
    if j < |lines| {
      ItemsEndShift(lines, i, j + 1);
    }
  }

  lemma {:induction false} ScanIsFind(lines: seq<string>, key: string, i: nat)
    requires i <= |lines|
    ensures Scan(lines[i..], key) == match FindKeyRange(lines, key, i)
      case Missing => NoField
      case Refused => Unsupported
      case Found(start, end) => Lines(lines[start..end])
    decreases |lines| - i
  {
    hide ParseKey, IsListItem, IsIndented;
    if i < |lines| {
      assert lines[i..][1..] == lines[i + 1..];
      if IsKey(lines[i], key) {
        ItemsEndShift(lines, i, i + 1);
        assert forall e :: 0 < e <= |lines| - i ==> lines[i..][..e] == lines[i..i + e];
      } else {
        ScanIsFind(lines, key, i + 1);
      }
    }
  }

  /** What follows cannot be taken for a continuation of the field before it. */
  predicate Calm(rest: seq<string>) {
    rest == [] || (!IsListItem(rest[0]) && !IsIndented(rest[0]))
  }

  lemma {:induction false} ItemsStop(pre: seq<string>, rest: seq<string>, j: nat)
    requires j <= |pre| && Calm(rest)
    ensures ItemsEnd(pre + rest, j) == ItemsEnd(pre, j)
    decreases |pre| - j
  {
    hide IsListItem, IsIndented;
    if j < |pre| {
      ItemsStop(pre, rest, j + 1);
    }
  }

  lemma ScanAtCalm(pre: seq<string>, rest: seq<string>, raw: string)
    requires pre != [] && Calm(rest)
    ensures ScanAt(pre + rest, raw) == ScanAt(pre, raw)
  {
    hide IsListItem, IsIndented;
    ItemsStop(pre, rest, 1);
    assert forall e :: 0 <= e <= |pre| ==> (pre + rest)[..e] == pre[..e];
  }

  /** Two calm continuations that agree on a key agree behind any lines. */
  lemma {:induction false} ScanBehind(pre: seq<string>, r1: seq<string>, r2: seq<string>, key: string)
    requires Calm(r1) && Calm(r2) && Scan(r1, key) == Scan(r2, key)
    ensures Scan(pre + r1, key) == Scan(pre + r2, key)
  {
    hide IsKey, ScanAt, Calm;
    if pre == [] {
      assert pre + r1 == r1 && pre + r2 == r2;
    } else {
      ScanBehind(pre[1..], r1, r2, key);
      assert (pre + r1)[1..] == pre[1..] + r1 && (pre + r2)[1..] == pre[1..] + r2;
      if IsKey(pre[0], key) {
        KeyParses(pre[0], key);
        var raw := ParseKey(pre[0]).value.raw;
        ScanAtCalm(pre, r1, raw);
        ScanAtCalm(pre, r2, raw);
      }
    }
  }

  lemma KeyParses(line: string, key: string)
    requires IsKey(line, key)
    ensures ParseKey(line).Some?
  {
  }

  /** Lines that are not the key's are passed over. */
  lemma {:induction false} ScanPast(mid: seq<string>, rest: seq<string>, key: string)
    requires forall i :: 0 <= i < |mid| ==> !IsKey(mid[i], key)
    ensures Scan(mid + rest, key) == Scan(rest, key)
  {
    hide IsKey, ScanAt;
    if mid == [] {
      assert mid + rest == rest;
    } else {
      assert (mid + rest)[1..] == mid[1..] + rest;
      ScanPast(mid[1..], rest, key);
    }
  }

  // ── The lines of one field ────────────────────────────────────────────────

  predicate PlainKey(key: string) {
    key != "" && IsWordStart(key[0]) && forall i :: 0 <= i < |key| ==> IsWord(key[i])
  }

  lemma {:induction false} WordEndAt(s: string, i: nat, k: nat)
    requires i <= k < |s| && !IsWord(s[k]) && forall j :: i <= j < k ==> IsWord(s[j])
    ensures WordEnd(s, i) == k
    decreases k - i
  {
    if i < k {
      WordEndAt(s, i + 1, k);
    }
  }

  /** A line that begins with a plain key and a colon is no other key's. */
  lemma OnlyItsOwnKey(line: string, key: string, other: string)
    requires PlainKey(key) && key != other && key + ":" <= line
    ensures !IsKey(line, other) && !IsListItem(line) && !IsIndented(line)
  {
    assert forall i :: 0 <= i < |key| ==> line[i] == key[i];
    assert line[|key|] == ':';
    WordEndAt(line, 0, |key|);
    assert line[..|key|] == key;
  }

  lemma KeyLineIsCalm(line: string, key: string, other: string)
    requires IsKey(line, key) && key != other
    ensures !IsKey(line, other) && !IsListItem(line) && !IsIndented(line)
  {
  }

  lemma ItemIsNoKey(line: string, key: string)
    requires line != "" && IsSpace(line[0])
    ensures !IsKey(line, key)
  {
  }

  lemma {:induction false} ItemsAreItems(lines: seq<string>, j: nat, i: nat)
    requires j <= |lines| && j <= i < ItemsEnd(lines, j)
    ensures IsListItem(lines[i]) && lines[i] != "" && IsSpace(lines[i][0])
    decreases |lines| - j
  {
    if j < i {
      ItemsAreItems(lines, j + 1, i);
    }
  }

  /** None of the lines of one field is another field's key. */
  lemma FieldLinesAreItsOwn(lines: seq<string>, key: string, other: string, i: nat)
    requires key != other && FindKeyRange(lines, key, 0).Found?
    requires FindKeyRange(lines, key, 0).start <= i < FindKeyRange(lines, key, 0).end
    ensures !IsKey(lines[i], other)
  {
    var r := FindKeyRange(lines, key, 0);
    FoundIsRange(lines, key, 0);
    if i == r.start {
      KeyLineIsCalm(lines[i], key, other);
    } else {
      ItemsAreItems(lines, r.start + 1, i);
      ItemIsNoKey(lines[i], other);
    }
  }

  lemma {:induction false} FoundIsRange(lines: seq<string>, key: string, i: nat)
    requires i <= |lines| && FindKeyRange(lines, key, i).Found?
    ensures var r := FindKeyRange(lines, key, i); r.end == r.start + 1 || r.end == ItemsEnd(lines, r.start + 1)
    decreases |lines| - i
  {
    hide ParseKey, IsListItem, IsIndented;
    if !IsKey(lines[i], key) {
      FoundIsRange(lines, key, i + 1);
    }
  }

  lemma {:induction false} ItemLinesShape(items: seq<Scalar>)
    requires forall i :: 0 <= i < |items| ==> OneLine(Shown(items[i]))
    ensures |ItemLines(items)| == |items|
    ensures forall i :: 0 <= i < |items| ==>
      "  - " <= ItemLines(items)[i] && Free(ItemLines(items)[i], '\n')
  {
    hide SerializeScalar;
    if items != [] {
      ItemLinesShape(items[1..]);
      ScalarOneLine(items[0]);
    }
  }

  /** The lines written for a plain key: its own line first, and list items after it. */
  lemma WrittenLines(key: string, value: EditValue)
    requires PlainKey(key) && OneLineValue(value)
    ensures var written := Split(SerializeKey(key, value), '\n');
      && key + ":" <= written[0]
      && forall i :: 0 < i < |written| ==> written[i] != "" && IsSpace(written[i][0])
  {
    hide SerializeScalar;
    match value
    case One(v) =>
      ScalarOneLine(v);
      SplitWhole(SerializeKey(key, value), '\n');
    case Many(items) =>
      if items == [] {
        SplitWhole(SerializeKey(key, value), '\n');
      } else {
        ItemLinesShape(items);
        assert SerializeKey(key, value) == (key + ":") + ['\n'] + Join(ItemLines(items), '\n');
        SplitFirst(key + ":", '\n', Join(ItemLines(items), '\n'));
        SplitJoin(ItemLines(items), '\n');
      }
  }

  lemma WrittenIsCalm(key: string, value: EditValue, other: string)
    requires PlainKey(key) && OneLineValue(value) && key != other
    ensures var written := Split(SerializeKey(key, value), '\n');
      Calm(written) && forall i :: 0 <= i < |written| ==> !IsKey(written[i], other)
  {
    hide SerializeKey, Split;
    var written := Split(SerializeKey(key, value), '\n');
    WrittenLines(key, value);
    OnlyItsOwnKey(written[0], key, other);
    forall i | 0 < i < |written|
      ensures !IsKey(written[i], other)
    {
      ItemIsNoKey(written[i], other);
    }
  }

  lemma BlankIsCalm(line: string, key: string)
    requires Trim(line) == ""
    ensures !IsListItem(line) && !IsIndented(line) && !IsKey(line, key)
  {
    AllBlank(line);
    BlanksToEnd(line, 0);
  }

  lemma {:induction false} AllBlank(line: string)
    requires Trim(line) == ""
    ensures forall i :: 0 <= i < |line| ==> IsSpace(line[i])
  {
    if line != "" && IsSpace(line[0]) {
      assert TrimStart(line) == TrimStart(line[1..]);
      AllBlank(line[1..]);
      assert forall i :: 0 < i < |line| ==> line[i] == line[1..][i - 1];
    } else if line != "" {
      EndsAtFirst(line);
    }
  }

  lemma {:induction false} EndsAtFirst(s: string)
    requires s != "" && !IsSpace(s[0])
    ensures TrimEnd(s) != ""
  {
    if IsSpace(s[|s| - 1]) {
      EndsAtFirst(s[..|s| - 1]);
    }
  }

  lemma {:induction false} BlanksToEnd(s: string, i: nat)
    requires i <= |s| && forall j :: i <= j < |s| ==> IsSpace(s[j])
    ensures Blanks(s, i) == |s|
    decreases |s| - i
  {
    if i < |s| {
      BlanksToEnd(s, i + 1);
    }
  }

  /** Setting a plain key to a one-line value leaves every other key's lines exactly as they were. */
  lemma SetLeavesOtherFields(lines: seq<string>, key: string, value: EditValue, other: string)
    requires lines != [] && PlainKey(key) && OneLineValue(value) && key != other
    requires SetLines(lines, key, value).Some?
    ensures FieldOf(SetLines(lines, key, value).value, other) == FieldOf(lines, other)
  {
    hide SerializeKey, IsKey, Split, Scan, Calm, PlainKey;
    var written := Split(SerializeKey(key, value), '\n');
    var after := SetLines(lines, key, value).value;
    WrittenIsCalm(key, value, other);
    ScanIsFind(lines, other, 0);
    ScanIsFind(after, other, 0);
    assert lines[0..] == lines && after[0..] == after;
    match FindKeyRange(lines, key, 0)
    case Missing => SetMissing(lines, written, other);
    case Found(start, end) => SetFound(lines, key, written, other);
  }

  lemma SetMissing(lines: seq<string>, written: seq<string>, other: string)
    requires lines != [] && Calm(written) && forall i :: 0 <= i < |written| ==> !IsKey(written[i], other)
    ensures Scan(Without(lines) + written, other) == Scan(lines, other)
  {
    hide IsKey, IsListItem, IsIndented, Trim;
    var kept := Without(lines);
    var tail := lines[|kept|..];
    assert lines == kept + tail;
    if tail != [] {
      assert tail == [Last(lines)];
      BlankIsCalm(Last(lines), other);
    }
    ScanPast(tail, [], other);
    ScanPast(written, [], other);
    assert tail + [] == tail && written + [] == written;
    ScanBehind(kept, tail, written, other);
  }

  lemma SetFound(lines: seq<string>, key: string, written: seq<string>, other: string)
    requires FindKeyRange(lines, key, 0).Found? && key != other
    requires written != [] && Calm(written) && forall i :: 0 <= i < |written| ==> !IsKey(written[i], other)
    ensures var r := FindKeyRange(lines, key, 0);
      Scan(lines[..r.start] + written + lines[r.end..], other) == Scan(lines, other)
  {
    hide IsKey, IsListItem, IsIndented, FindKeyRange;
    var r := FindKeyRange(lines, key, 0);
    var mid, post := lines[r.start..r.end], lines[r.end..];
    forall i | 0 <= i < |mid|
      ensures !IsKey(mid[i], other)
    {
      FieldLinesAreItsOwn(lines, key, other, r.start + i);
    }
    KeyLineIsCalm(lines[r.start], key, other);
    ScanPast(mid, post, other);
    ScanPast(written, post, other);
    ScanBehind(lines[..r.start], mid + post, written + post, other);
    assert lines == lines[..r.start] + (mid + post);
    assert lines[..r.start] + written + post == lines[..r.start] + (written + post);
  }

  // ── Deleting ──────────────────────────────────────────────────────────────

  lemma {:induction false} ItemsGoOn(pre: seq<string>, rest: seq<string>, j: nat)
    requires j <= |pre|
    ensures ItemsEnd(pre + rest, j) == if ItemsEnd(pre, j) < |pre| then ItemsEnd(pre, j) else |pre| + ItemsEnd(rest, 0)
    decreases |pre| - j
  {
    hide IsListItem;
    if j < |pre| {
      ItemsGoOn(pre, rest, j + 1);
    } else {
      ItemsEndShift(pre + rest, |pre|, |pre|);
      assert (pre + rest)[|pre|..] == rest;
    }
  }

  /** The field whose key line is the first of `pre` reaches to the end of `pre`, and goes on into `rest`. */
  predicate Takes(pre: seq<string>, raw: string, rest: seq<string>)
    requires pre != []
  {
    && raw == "" && ItemsEnd(pre, 1) == |pre| && rest != []
    && (IsListItem(rest[0]) || (|pre| == 1 && IsIndented(rest[0])))
  }

  lemma ScanAtTakes(pre: seq<string>, rest: seq<string>, raw: string)
    requires pre != []
    ensures ScanAt(pre + rest, raw) == ScanAt(pre, raw) <==> !Takes(pre, raw, rest)
  {
    hide IsListItem, IsIndented;
    ItemsGoOn(pre, rest, 1);
    assert forall e :: 0 <= e <= |pre| ==> (pre + rest)[..e] == pre[..e];
  }

  /** The field of `key` in `pre` would go on into `rest`. */
  predicate TakenUp(pre: seq<string>, rest: seq<string>, key: string) {
    pre != [] &&
    if IsKey(pre[0], key) then Takes(pre, ParseKey(pre[0]).value.raw, rest) else TakenUp(pre[1..], rest, key)
  }

  lemma {:induction false} ScanTaken(pre: seq<string>, mid: seq<string>, post: seq<string>, key: string)
    requires Calm(mid + post) && Scan(mid + post, key) == Scan(post, key)
    ensures Scan(pre + (mid + post), key) == Scan(pre + post, key) <==> !TakenUp(pre, post, key)
  {
    hide IsKey, ScanAt, Calm, Takes;
    var rest := mid + post;
    if pre == [] {
      assert pre + rest == rest && pre + post == post;
    } else {
      ScanTaken(pre[1..], mid, post, key);
      assert (pre + rest)[1..] == pre[1..] + rest && (pre + post)[1..] == pre[1..] + post;
      if IsKey(pre[0], key) {
        KeyParses(pre[0], key);
        var raw := ParseKey(pre[0]).value.raw;
        ScanAtCalm(pre, rest, raw);
        ScanAtTakes(pre, post, raw);
      }
    }
  }

  /**
   * A field found at `o` stands right above the lines from `start` to `end`, and the line at `end` would continue it.
   */
  predicate Continues(lines: seq<string>, o: KeyRange, start: nat, end: nat)
    requires o.Found? ==> o.start < |lines| && ParseKey(lines[o.start]).Some?
  {
    && o.Found? && o.end == start && ParseKey(lines[o.start]).value.raw == "" && end < |lines|
    && (IsListItem(lines[end]) || (o.end == o.start + 1 && IsIndented(lines[end])))
  }

  lemma FoundParses(lines: seq<string>, key: string, i: nat)
    requires i <= |lines| && FindKeyRange(lines, key, i).Found?
    ensures var o := FindKeyRange(lines, key, i); o.start < |lines| && ParseKey(lines[o.start]).Some?
  {
  }

  lemma {:induction false} TakenUpIsContinues(lines: seq<string>, start: nat, end: nat, key: string, i: nat)
    requires i <= start < end <= |lines| && Calm(lines[start..])
    ensures FindKeyRange(lines, key, i).Found? ==>
      var o := FindKeyRange(lines, key, i); o.start < |lines| && ParseKey(lines[o.start]).Some?
    ensures TakenUp(lines[i..start], lines[end..], key) <==> Continues(lines, FindKeyRange(lines, key, i), start, end)
    decreases start - i
  {
    hide ParseKey, IsListItem, IsIndented;
    if FindKeyRange(lines, key, i).Found? {
      FoundParses(lines, key, i);
    }
    if i < start {
      var pre := lines[i..start];
      assert pre[1..] == lines[i + 1..start];
      if IsKey(lines[i], key) {
        ItemsEndShift(lines, i, i + 1);
        ItemsStop(pre, lines[start..], 1);
        assert lines[i..] == pre + lines[start..];
      } else {
        TakenUpIsContinues(lines, start, end, key, i + 1);
      }
    }
  }

  /** The lines of `other` end where those of `key` begin, and what follows the latter would continue the former. */
  predicate HandsOver(lines: seq<string>, key: string, other: string) {
    var r, o := FindKeyRange(lines, key, 0), FindKeyRange(lines, other, 0);
    r.Found? && Continues(lines, o, r.start, r.end)
  }

  /** Deleting a key leaves the lines of another exactly as they were unless it hands that one the lines below it. */
  lemma DeleteLeavesOtherFieldsIff(lines: seq<string>, key: string, other: string)
    requires key != other && DeleteLines(lines, key).Some?
    ensures FieldOf(DeleteLines(lines, key).value, other) == FieldOf(lines, other) <==> !HandsOver(lines, key, other)
  {
    hide IsKey, IsListItem, IsIndented, FindKeyRange, Scan, TakenUp, Continues, ParseKey;
    var r := FindKeyRange(lines, key, 0);
    var pre, mid, post := lines[..r.start], lines[r.start..r.end], lines[r.end..];
    ScanIsFind(lines, other, 0);
    ScanIsFind(pre + post, other, 0);
    assert lines[0..] == lines == pre + (mid + post) && (pre + post)[0..] == pre + post && lines[0..r.start] == pre;
    forall i | 0 <= i < |mid|
      ensures !IsKey(mid[i], other)
    {
      FieldLinesAreItsOwn(lines, key, other, r.start + i);
    }
    KeyLineIsCalm(lines[r.start], key, other);
    assert lines[r.start..] == mid + post;
    ScanPast(mid, post, other);
    ScanTaken(pre, mid, post, other);
    TakenUpIsContinues(lines, r.start, r.end, other, 0);
  }

  lemma {:induction false} ScanFinds(lines: seq<string>, key: string)
    ensures Scan(lines, key).NoField? <==> forall i :: 0 <= i < |lines| ==> !IsKey(lines[i], key)
  {
    hide IsKey, RangeAt;
    if lines != [] {
      ScanFinds(lines[1..], key);
      assert forall i :: 0 < i < |lines| ==> lines[i] == lines[1..][i - 1];
      if IsKey(lines[0], key) {
        KeyParses(lines[0], key);
        RangeIsFound(lines, ParseKey(lines[0]).value.raw);
      }
    }
  }

  lemma RangeIsFound(lines: seq<string>, raw: string)
    requires lines != []
    ensures !RangeAt(lines, 0, raw).Missing?
  {
  }

  /** After a deletion the key is gone just when no line below the deleted ones names it again. */
  lemma DeletedFieldIsGoneIff(lines: seq<string>, key: string)
    requires DeleteLines(lines, key).Some?
    ensures FieldOf(DeleteLines(lines, key).value, key).NoField?
       <==> forall i :: FindKeyRange(lines, key, 0).end <= i < |lines| ==> !IsKey(lines[i], key)
  {
    hide IsKey, IsListItem, IsIndented, Scan;
    var r := FindKeyRange(lines, key, 0);
    var pre, post := lines[..r.start], lines[r.end..];
    FirstKey(lines, key, 0);
    ScanIsFind(pre + post, key, 0);
    assert (pre + post)[0..] == pre + post;
    ScanPast(pre, post, key);
    ScanFinds(post, key);
    assert forall i :: r.end <= i < |lines| ==> lines[i] == post[i - r.end];
  }

  lemma {:induction false} FirstKey(lines: seq<string>, key: string, i: nat)
    requires i <= |lines|
    ensures match FindKeyRange(lines, key, i)
      case Found(start, _) => forall j :: i <= j < start ==> !IsKey(lines[j], key)
      case Missing => forall j :: i <= j < |lines| ==> !IsKey(lines[j], key)
      case Refused => true
    decreases |lines| - i
  {
    hide ParseKey, IsListItem, IsIndented;
    if i < |lines| && !IsKey(lines[i], key) {
      FirstKey(lines, key, i + 1);
    }
  }
}

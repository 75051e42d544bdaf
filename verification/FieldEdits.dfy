/**
 * A field cut out of a block, or put in the place of another: when the guard's reader makes of the edited lines
 * just the object the guard was asked about.
 */
module FieldEdits {
  import opened JsString
  import opened AcceptGuard
  import opened FlowModel
  import opened BlockModel
  import opened BlockLines
  import opened BlockWindow
  import opened BlockSound
  import opened TopFields
  import opened Assignments

  /** Lines `start` up to `end` begin with the key line of a field and reach no other. */
  predicate InField(lines: seq<string>, start: nat, end: nat) {
    start < end <= |lines| && TopLine(lines[start]) && forall j :: start < j < end ==> !TopLine(lines[j])
  }

  /** The lines of the field behind those edited: they stay, below whatever stands above. */
  function Leftover(lines: seq<string>, end: nat): seq<string>
    requires end <= |lines|
  {
    lines[end..NextTop(lines, end)]
  }

  function Below(lines: seq<string>, end: nat): seq<string>
    requires end <= |lines|
  {
    lines[NextTop(lines, end)..]
  }

  /**
   * The leftover changes nothing of what stands above: the field above, with it, is read as without it, or is
   * assigned again further down; with no field above, it is blank lines and comments.
   * What is left over can repeat a key of a nested mapping with the value it has, so its lines alone do not tell.
   */
  predicate ReadsAbove(above: seq<string>, leftover: seq<string>, below: seq<string>) {
    match LastTop(above)
    case None => Peek(leftover, 0) == End
    case Some(s) =>
      var chunk := above[s..];
      && ReadField(chunk + leftover).Some?
      && (ReadField(chunk + leftover) == ReadField(chunk)
          || (KeyOf(chunk[0]).Some? && NamesKey(below, KeyOf(chunk[0]).value)))
  }

  /** Only the lines of the field edited name its key. */
  predicate NamedOnce(lines: seq<string>, start: nat, end: nat, key: string)
    requires start < end <= |lines|
  {
    !NamesKey(lines[..start], key) && !NamesKey(Below(lines, end), key)
  }

  lemma {:induction false} PeekAppend(a: seq<string>, b: seq<string>, i: nat)
    requires i <= |a|
    ensures match Peek(a, i)
      case End => (Peek(a + b, i) == End <==> Peek(b, 0) == End)
      case _ => Peek(a + b, i) != End
    decreases |a| - i
  {
    hide HasControl, IsIgnorable, Trim;
    if i < |a| {
      PeekAppend(a, b, i + 1);
    } else {
      PeekShift(a, b, 0);
    }
  }

  lemma {:induction false} PeekShift(a: seq<string>, b: seq<string>, i: nat)
    requires i <= |b|
    ensures Peek(a + b, |a| + i) == End <==> Peek(b, i) == End
    decreases |b| - i
  {
    hide HasControl, IsIgnorable, Trim;
    if i < |b| {
      PeekShift(a, b, i + 1);
    }
  }

  // ── The block around an edit ──────────────────────────────────────────────

  /** A block whose lines from `start` to `end` belong to one field: what is above, the field, and what is below. */
  lemma Around(lines: seq<string>, start: nat, end: nat)
    requires InField(lines, start, end) && FieldsOf(lines).Some?
    ensures var above, below := lines[..start], Below(lines, end);
      var chunk := lines[start..end] + Leftover(lines, end);
      && FieldsOf(above).Some? && ReadField(chunk).Some? && FieldsFrom(below).Some?
      && FieldsOf(lines).value == FieldsOf(above).value + [ReadField(chunk).value] + FieldsFrom(below).value
  {
    hide TopLine, ReadField, FieldsFrom, FieldsOf;
    var t := NextTop(lines, end);
    var chunk := lines[start..end] + Leftover(lines, end);
    assert lines == lines[..start] + lines[start..] && lines[start..] == chunk + lines[t..];
    BlockAppend(lines[..start], lines[start..]);
    FieldsAppend(chunk, lines[t..]);
    assert forall j :: 0 <= j < |chunk| - 1 ==> chunk[1..][j] == lines[start + 1 + j];
    OneField(chunk);
    assert FieldsOf(lines).value
        == FieldsOf(lines[..start]).value + ([ReadField(chunk).value] + FieldsFrom(lines[t..]).value);
  }

  /** What stands above, with lines below it that begin no field. */
  lemma AboveWith(above: seq<string>, leftover: seq<string>)
    requires FieldsOf(above).Some? && NoTop(leftover)
    ensures match LastTop(above)
      case None =>
        FieldsOf(above).value == [] && FieldsOf(above + leftover) == if Peek(leftover, 0) == End then Some([]) else None
      case Some(s) =>
        && FieldsOf(above[..s]).Some? && ReadField(above[s..]).Some?
        && FieldsOf(above).value == FieldsOf(above[..s]).value + [ReadField(above[s..]).value]
        && FieldsOf(above + leftover) == Both(FieldsOf(above[..s]), One(ReadField(above[s..] + leftover)))
  {
    hide TopLine, ReadField, FieldsOf, Peek;
    LeftBelow(above, leftover);
    LeftBelow(above, []);
    assert above + [] == above;
    match LastTop(above)
    case None => PeekAppend(above, leftover, 0);
    case Some(s) => assert above[s..] + [] == above[s..];
  }

  // ── Deleting ──────────────────────────────────────────────────────────────

  /**
   * The outcome of the fields left is the object without the key, exactly when no field left names it and the one above
   * reads on.
   */
  lemma DeletedOutcomeIff(lines: seq<string>, start: nat, end: nat, key: string)
    requires InField(lines, start, end) && FieldsOf(lines).Some? && KeyOf(lines[start]) == Some(key)
    ensures var after := FieldsOf(lines[..start] + lines[end..]);
      (after.Some? && PutAll([], after.value) == RemoveField(PutAll([], FieldsOf(lines).value), key))
      <==> NamedOnce(lines, start, end, key) && ReadsAbove(lines[..start], Leftover(lines, end), Below(lines, end))
  {
    hide TopLine, ReadField, FieldsFrom, FieldsOf, KeyOf, NamesKey, Peek;
    var above, leftover, below := lines[..start], Leftover(lines, end), Below(lines, end);
    var chunk := lines[start..end] + leftover;
    Around(lines, start, end);
    FieldKey(chunk);
    assert chunk[0] == lines[start];
    assert lines[..start] + lines[end..] == (above + leftover) + below;
    BlockAppend(above + leftover, below);
    AboveWith(above, leftover);
    BlockNamesKeys(above, key);
    BelowNames(lines, end, key);
    RemovedOutcome(FieldsOf(above).value, ReadField(chunk).value, FieldsFrom(below).value, key);
    match LastTop(above)
    case None =>
      if Peek(leftover, 0) == End {
        assert [] + FieldsFrom(below).value == FieldsFrom(below).value;
        AfterNames([], FieldsFrom(below).value, key);
      }
    case Some(s) =>
      FieldKey(above[s..]);
      if ReadField(above[s..] + leftover).Some? {
        FieldKey(above[s..] + leftover);
        BelowNames(lines, end, ReadField(above[s..]).value.0);
        ChangedAbove(FieldsOf(above[..s]).value, ReadField(above[s..]).value, ReadField(above[s..] + leftover).value,
                     FieldsFrom(below).value, key);
      }
  }

  /** The same exactly when it is that object with its keys in any order. */
  lemma DeletedObjectIff(lines: seq<string>, start: nat, end: nat, key: string)
    requires InField(lines, start, end) && FieldsOf(lines).Some? && KeyOf(lines[start]) == Some(key)
    ensures var after := FieldsOf(lines[..start] + lines[end..]);
      (after.Some? && SameObject(PutAll([], after.value), RemoveField(PutAll([], FieldsOf(lines).value), key)))
      <==> NamedOnce(lines, start, end, key) && ReadsAbove(lines[..start], Leftover(lines, end), Below(lines, end))
  {
    hide TopLine, ReadField, FieldsFrom, FieldsOf, KeyOf, NamesKey, Peek, PutAll, RemoveField, ValueOf, NamedOnce;
    var above, leftover, below := lines[..start], Leftover(lines, end), Below(lines, end);
    var chunk := lines[start..end] + leftover;
    var after := FieldsOf(lines[..start] + lines[end..]);
    DeletedOutcomeIff(lines, start, end, key);
    Around(lines, start, end);
    FieldKey(chunk);
    assert chunk[0] == lines[start];
    assert lines[..start] + lines[end..] == (above + leftover) + below;
    BlockAppend(above + leftover, below);
    AboveWith(above, leftover);
    if after.Some? && SameObject(PutAll([], after.value), RemoveField(PutAll([], FieldsOf(lines).value), key)) {
      var A, B, field := FieldsOf(above).value, FieldsFrom(below).value, ReadField(chunk).value;
      BlockNamesKeys(above, key);
      BelowNames(lines, end, key);
      match LastTop(above)
      case None =>
        assert A + B == B;
        ObjectWithout([], A, field, B, key);
        assert NamedOnce(lines, start, end, key) by { OnceIs(lines, start, end, key); }
      case Some(s) =>
        var front, was := FieldsOf(above[..s]).value, ReadField(above[s..]).value;
        var now := ReadField(above[s..] + leftover).value;
        FieldKey(above[s..]);
        FieldKey(above[s..] + leftover);
        BelowNames(lines, end, was.0);
        SameNames(front, was, now);
        ObjectWithout(front + [now], A, field, B, key);
        LastOne(front, was);
        LastOne(front, now);
        assert NamedOnce(lines, start, end, key) by { OnceIs(lines, start, end, key); }
        assert was.0 != key by { LastOfNamed(A, key); }
    }
  }

  lemma OnceIs(lines: seq<string>, start: nat, end: nat, key: string)
    requires start < end <= |lines| && !NamesKey(lines[..start], key) && !NamesKey(Below(lines, end), key)
    ensures NamedOnce(lines, start, end, key)
  {
  }

  lemma SameNames(front: Fields, f: (string, Value), g: (string, Value))
    requires f.0 == g.0
    ensures forall k :: Named(front + [f], k) <==> Named(front + [g], k)
  {
    forall k
      ensures Named(front + [f], k) <==> Named(front + [g], k)
    {
      NamedConcat(front, [f], k);
      NamedConcat(front, [g], k);
      assert [f][0].0 == [g][0].0;
    }
  }

  lemma LastOne(front: Fields, f: (string, Value))
    ensures LastOf(front + [f], f.0) == Some(f.1)
  {
    LastOfConcat(front, [f], f.0);
    assert [f][1..] == [];
  }

  /**
   * An object that lost one key and nothing else: no other field names the key, and no last value above has changed.
   */
  lemma ObjectWithout(after: Fields, above: Fields, field: (string, Value), below: Fields, key: string)
    requires field.0 == key && (forall k :: Named(after, k) <==> Named(above, k))
    requires SameObject(PutAll([], after + below), RemoveField(PutAll([], above + [field] + below), key))
    ensures !Named(above, key) && !Named(below, key)
    ensures forall k :: k != key && !Named(below, k) ==> LastOf(after, k) == LastOf(above, k)
  {
    hide PutAll, RemoveField, ValueOf, Named, LastOf;
    var all := above + [field] + below;
    forall k
      ensures LastOf(after + below, k) == if k == key then None else LastOf(all, k)
    {
      RemoveValue(PutAll([], all), key, k);
      PutAllValue([], all, k);
      PutAllValue([], after + below, k);
      assert ValueOf([], k) == None by { NoValue(k); }
    }
    LastOfConcat(after, below, key);
    LastOfNamed(below, key);
    LastOfNamed(after, key);
    forall k | k != key && !Named(below, k)
      ensures LastOf(after, k) == LastOf(above, k)
    {
      LastOfNamed(below, k);
      LastOfConcat(after, below, k);
      LastOfConcat(above + [field], below, k);
      LastOfConcat(above, [field], k);
      OneOther(field, k);
    }
  }

  lemma NoValue(k: string)
    ensures ValueOf([], k) == None && LastOf([], k) == None
  {
  }

  lemma OneOther(field: (string, Value), k: string)
    requires field.0 != k
    ensures LastOf([field], k) == None
  {
  }

  lemma BelowNames(lines: seq<string>, end: nat, key: string)
    requires end <= |lines| && FieldsFrom(Below(lines, end)).Some?
    ensures Named(FieldsFrom(Below(lines, end)).value, key) <==> NamesKey(Below(lines, end), key)
  {
    hide TopLine, FieldsFrom, NamesKey;
    FieldsNameKeys(Below(lines, end), key);
  }

  lemma AfterNames(above: Fields, below: Fields, key: string)
    ensures Named(PutAll([], above + below), key) <==> Named(above, key) || Named(below, key)
  {
    PutAllNames([], above + below, key);
    NamedConcat(above, below, key);
  }

  /** The object without the key: no assignment of it, when no other field names it. */
  lemma RemovedOutcome(above: Fields, field: (string, Value), below: Fields, key: string)
    requires field.0 == key
    ensures !Named(RemoveField(PutAll([], above + [field] + below), key), key)
    ensures !Named(above, key) && !Named(below, key) ==>
      RemoveField(PutAll([], above + [field] + below), key) == PutAll([], above + below)
  {
    hide PutField, PutAll, RemoveField, Named;
    RemovedIsGone(PutAll([], above + [field] + below), key);
    RemovePutAll([], above + [field] + below, key);
    RemoveConcat(above + [field], below, key);
    RemoveConcat(above, [field], key);
    RemoveOne(field);
    if !Named(above, key) && !Named(below, key) {
      RemoveAbsent(above, key);
      RemoveAbsent(below, key);
      assert above + [] + below == above + below;
    }
  }

  lemma RemoveOne(field: (string, Value))
    ensures RemoveField([field], field.0) == [] && RemoveField([], field.0) == []
  {
    assert [field][1..] == [];
  }

  /** The last field above changes its value: the outcome shows it unless the key is assigned again below. */
  lemma ChangedAbove(above: Fields, field: (string, Value), field': (string, Value), below: Fields, key: string)
    requires field'.0 == field.0
    ensures PutAll([], above + [field'] + below) == PutAll([], above + [field] + below)
       <==> field' == field || Named(below, field.0)
    ensures Named(PutAll([], above + [field'] + below), key) <==> Named(above + [field], key) || Named(below, key)
  {
    hide PutField;
    PutAllConcat([], above + [field'], below);
    PutAllConcat([], above + [field], below);
    PutAllConcat([], above, [field']);
    PutAllConcat([], above, [field]);
    OneAssignment(PutAll([], above), field);
    OneAssignment(PutAll([], above), field');
    OutcomeTellsIff(PutAll([], above), field.0, field'.1, field.1, below);
    AfterNames(above + [field'], below, key);
    NamedConcat(above, [field], key);
    NamedConcat(above, [field'], key);
    assert Named([field], key) == Named([field'], key) by {
      assert [field][0].0 == [field'][0].0;
    }
  }

  lemma OneAssignment(out: Fields, field: (string, Value))
    ensures PutAll(out, [field]) == PutField(out, field.0, field.1)
  {
    hide PutField;
    assert [field][1..] == [];
  }

  // ── Setting ───────────────────────────────────────────────────────────────

  /** Lines that begin with a key line of `key` and reach no other. */
  predicate WritesField(written: seq<string>, key: string) {
    written != [] && TopLine(written[0]) && KeyOf(written[0]) == Some(key) && NoTop(written[1..])
  }

  /**
   * The field written, with the lines left below it, reads as the value, or is assigned again below as it was before.
   */
  predicate ReadsWritten(lines: seq<string>, end: nat, written: seq<string>, key: string, v: Value, before: Fields)
    requires end <= |lines| && written != []
  {
    var field := ReadField(written + Leftover(lines, end));
    if NamesKey(Below(lines, end), key) then field.Some? && ValueOf(before, key) == Some(v) else field == Some((key, v))
  }

  /**
   * Whatever is written from a key line on: the fields above, those of the written lines with the leftover, and those
   * below.
   */
  lemma WrittenAround(lines: seq<string>, start: nat, end: nat, written: seq<string>)
    requires start <= end <= |lines| && written != [] && TopLine(written[0])
    ensures FieldsOf(lines[..start] + written + lines[end..])
         == Both(FieldsOf(lines[..start]),
                 Both(FieldsFrom(written + Leftover(lines, end)), FieldsFrom(Below(lines, end))))
  {
    hide TopLine, FieldsFrom, FieldsOf;
    var above, leftover, below := lines[..start], Leftover(lines, end), Below(lines, end);
    assert lines[..start] + written + lines[end..] == above + ((written + leftover) + below);
    BlockAppend(above, (written + leftover) + below);
    FieldsAppend(written + leftover, below);
  }

  /**
   * The outcome is the object with the key set, exactly when the field written reads so with the lines left below it.
   */
  lemma SetOutcomeIff(lines: seq<string>, start: nat, end: nat, written: seq<string>, key: string, v: Value)
    requires InField(lines, start, end) && FieldsOf(lines).Some? && KeyOf(lines[start]) == Some(key)
    requires WritesField(written, key)
    ensures var before, after := PutAll([], FieldsOf(lines).value), FieldsOf(lines[..start] + written + lines[end..]);
      (after.Some? && PutAll([], after.value) == PutField(before, key, v))
      <==> ReadsWritten(lines, end, written, key, v, before)
  {
    hide TopLine, ReadField, FieldsFrom, FieldsOf, KeyOf, NamesKey, PutField, ValueOf;
    var leftover, below := Leftover(lines, end), Below(lines, end);
    var chunk, chunk' := lines[start..end] + leftover, written + leftover;
    Around(lines, start, end);
    WrittenAround(lines, start, end, written);
    assert chunk'[1..] == written[1..] + leftover;
    OneField(chunk');
    FieldKey(chunk);
    assert chunk[0] == lines[start] && chunk'[0] == written[0];
    BelowNames(lines, end, key);
    if ReadField(chunk').Some? {
      FieldKey(chunk');
      var above, later := FieldsOf(lines[..start]).value, FieldsFrom(below).value;
      assert above + ([ReadField(chunk').value] + later) == above + [ReadField(chunk').value] + later;
      SetOutcome(above, key, ReadField(chunk).value.1, ReadField(chunk').value.1, later, v);
    }
  }

  lemma SetOutcome(above: Fields, key: string, was: Value, now: Value, below: Fields, v: Value)
    ensures var before := PutAll([], above + [(key, was)] + below);
      PutAll([], above + [(key, now)] + below) == PutField(before, key, v)
      <==> if Named(below, key) then ValueOf(before, key) == Some(v) else now == v
  {
    hide PutField, ValueOf;
    var out := PutAll([], above);
    var before := PutAll([], above + [(key, was)] + below);
    Assigned(above, (key, was), below);
    Assigned(above, (key, now), below);
    PutSameIff(before, key, v);
    if Named(below, key) {
      PutOverridden(out, below, key, was, now);
    } else {
      PutNames(out, key, was, key);
      PutLate(PutField(out, key, was), below, key, v);
      PutTwice(out, key, was, v);
      OutcomeTellsIff(out, key, now, v, below);
    }
  }

  lemma Assigned(above: Fields, field: (string, Value), below: Fields)
    ensures PutAll([], above + [field] + below) == PutAll(PutField(PutAll([], above), field.0, field.1), below)
  {
    hide PutField;
    PutAllConcat([], above + [field], below);
    PutAllConcat([], above, [field]);
    OneAssignment(PutAll([], above), field);
  }

  /** A field put behind all others is read as set exactly when it reads so on its own. */
  lemma AppendedOutcomeIff(lines: seq<string>, written: seq<string>, key: string, v: Value)
    requires FieldsOf(lines).Some? && WritesField(written, key)
    ensures var before, after := PutAll([], FieldsOf(lines).value), FieldsOf(lines + written);
      (after.Some? && PutAll([], after.value) == PutField(before, key, v)) <==> ReadField(written) == Some((key, v))
  {
    hide TopLine, ReadField, FieldsFrom, FieldsOf, KeyOf, PutField;
    var fields := FieldsOf(lines).value;
    BlockAppend(lines, written);
    OneField(written);
    if ReadField(written).Some? {
      FieldKey(written);
      var now := ReadField(written).value.1;
      PutAllConcat([], fields, [(key, now)]);
      OneAssignment(PutAll([], fields), (key, now));
      if PutField(PutAll([], fields), key, now) == PutField(PutAll([], fields), key, v) {
        PutTells(PutAll([], fields), key, now, v);
      }
    }
  }

  // ── Setting, whatever the lines written ───────────────────────────────────

  /** Every key these fields assign and none below assigns again gets the value it has in the object judged. */
  ghost predicate Takes(fields: Fields, judged: Fields, below: seq<string>) {
    forall i :: 0 <= i < |fields| && !NamesKey(below, fields[i].0) ==>
      LastOf(fields, fields[i].0) == ValueOf(judged, fields[i].0)
  }

  /**
   * The lines written are fields, `key` among them, that make `before` the object with `key` set: what they assign is
   * judged so or assigned again below, and where `key` itself is assigned again below it had the value before.
   */
  ghost predicate ReadsAsSet(fields: Option<Fields>, key: string, v: Value, before: Fields, below: seq<string>) {
    && fields.Some? && Takes(fields.value, PutField(before, key, v), below)
    && (NamesKey(below, key) ==> ValueOf(before, key) == Some(v))
  }

  /** The outcome for one key. */
  lemma SetAt(above: Fields, gone: Fields, written: Fields, later: Fields, key: string, v: Value, below: seq<string>,
              k: string)
    requires Named(written, key) && (forall i :: 0 <= i < |gone| ==> gone[i].0 == key)
    requires Named(later, k) <==> NamesKey(below, k)
    ensures var before := PutAll([], above + gone + later);
      ValueOf(PutAll([], above + written + later), k) == ValueOf(PutField(before, key, v), k)
      <==> if NamesKey(below, k) then k == key ==> ValueOf(before, key) == Some(v)
           else Named(written, k) ==> LastOf(written, k) == ValueOf(PutField(before, key, v), k)
  {
    hide PutAll, PutField, ValueOf, LastOf, Named, NamesKey;
    Shares(above, gone, later, k);
    Shares(above, written, later, k);
    PutValue(PutAll([], above + gone + later), key, v, k);
    LastOfNamed(written, k);
    LastOfNamed(gone, k);
    LastOfNamed(later, k);
    OnlyNames(gone, key, k);
  }

  /** What stood between the fields above and below, if anything, gives way to the fields written. */
  lemma SetObject(above: Fields, gone: Fields, written: Fields, later: Fields, key: string, v: Value,
                  below: seq<string>)
    requires Named(written, key) && (forall i :: 0 <= i < |gone| ==> gone[i].0 == key)
    requires forall k :: Named(later, k) <==> NamesKey(below, k)
    ensures var before := PutAll([], above + gone + later);
      SameObject(PutAll([], above + written + later), PutField(before, key, v))
      <==> ReadsAsSet(Some(written), key, v, before, below)
  {
    hide PutAll, PutField, ValueOf, LastOf, Named, NamesKey;
    var before, after := PutAll([], above + gone + later), PutAll([], above + written + later);
    var judged := PutField(before, key, v);
    if SameObject(after, judged) {
      forall i | 0 <= i < |written| && !NamesKey(below, written[i].0)
        ensures LastOf(written, written[i].0) == ValueOf(judged, written[i].0)
      {
        NamedAt(written, i);
        SetAt(above, gone, written, later, key, v, below, written[i].0);
        assert ValueOf(after, written[i].0) == ValueOf(judged, written[i].0);
      }
      SetAt(above, gone, written, later, key, v, below, key);
      assert ValueOf(after, key) == ValueOf(judged, key);
    }
    if ReadsAsSet(Some(written), key, v, before, below) {
      forall k
        ensures ValueOf(after, k) == ValueOf(judged, k)
      {
        SetAt(above, gone, written, later, key, v, below, k);
        if Named(written, k) && !NamesKey(below, k) {
          var i := PlaceOf(written, k);
          assert LastOf(written, written[i].0) == ValueOf(judged, written[i].0);
        }
      }
    }
  }

  lemma Shares(above: Fields, mid: Fields, later: Fields, k: string)
    ensures ValueOf(PutAll([], above + mid + later), k)
         == if LastOf(later, k).Some? then LastOf(later, k)
            else if LastOf(mid, k).Some? then LastOf(mid, k) else LastOf(above, k)
  {
    hide PutAll, ValueOf, LastOf;
    PutAllValue([], above + mid + later, k);
    LastOfConcat(above + mid, later, k);
    LastOfConcat(above, mid, k);
    NoValue(k);
  }

  lemma OnlyNames(fields: Fields, key: string, k: string)
    requires forall i :: 0 <= i < |fields| ==> fields[i].0 == key
    ensures Named(fields, k) ==> k == key
  {
  }

  lemma NamedAt(fields: Fields, i: nat)
    requires i < |fields|
    ensures Named(fields, fields[i].0)
  {
  }

  lemma PlaceOf(fields: Fields, k: string) returns (i: nat)
    requires Named(fields, k)
    ensures i < |fields| && fields[i].0 == k
  {
    i :| 0 <= i < |fields| && fields[i].0 == k;
  }

  /** The written lines begin with a key line of `key`. */
  predicate BeginsField(written: seq<string>, key: string) {
    written != [] && TopLine(written[0]) && KeyOf(written[0]) == Some(key)
  }

  lemma FirstIsNamed(written: seq<string>, key: string)
    requires BeginsField(written, key) && FieldsFrom(written).Some?
    ensures Named(FieldsFrom(written).value, key)
  {
    hide TopLine, ReadField, KeyOf;
    var e := NextTop(written, 1);
    FieldKey(written[..e]);
    assert FieldsFrom(written).value[0] == ReadField(written[..e]).value;
  }

  /** Lines written in the place of a field's: the outcome is the object with the key set, exactly when they read so. */
  lemma SetObjectIff(lines: seq<string>, start: nat, end: nat, written: seq<string>, key: string, v: Value)
    requires InField(lines, start, end) && FieldsOf(lines).Some? && KeyOf(lines[start]) == Some(key)
    requires BeginsField(written, key)
    ensures var before, after := PutAll([], FieldsOf(lines).value), FieldsOf(lines[..start] + written + lines[end..]);
      (after.Some? && SameObject(PutAll([], after.value), PutField(before, key, v)))
      <==> ReadsAsSet(FieldsFrom(written + Leftover(lines, end)), key, v, before, Below(lines, end))
  {
    hide TopLine, ReadField, FieldsFrom, FieldsOf, KeyOf, NamesKey, PutField, ValueOf, PutAll, Takes, SameObject, Named;
    var all, below := written + Leftover(lines, end), Below(lines, end);
    var chunk := lines[start..end] + Leftover(lines, end);
    Around(lines, start, end);
    WrittenAround(lines, start, end, written);
    FieldKey(chunk);
    assert chunk[0] == lines[start] && all[0] == written[0];
    if FieldsFrom(all).Some? {
      FirstIsNamed(all, key);
      forall k
        ensures Named(FieldsFrom(below).value, k) <==> NamesKey(below, k)
      {
        BelowNames(lines, end, k);
      }
      var above, fields, later := FieldsOf(lines[..start]).value, FieldsFrom(all).value, FieldsFrom(below).value;
      assert above + (fields + later) == above + fields + later;
      SetObject(above, [ReadField(chunk).value], fields, later, key, v, below);
    }
  }

  /** Lines written behind all others. */
  lemma AppendedObjectIff(lines: seq<string>, written: seq<string>, key: string, v: Value)
    requires FieldsOf(lines).Some? && BeginsField(written, key)
    ensures var before, after := PutAll([], FieldsOf(lines).value), FieldsOf(lines + written);
      (after.Some? && SameObject(PutAll([], after.value), PutField(before, key, v)))
      <==> ReadsAsSet(FieldsFrom(written), key, v, before, [])
  {
    hide TopLine, ReadField, FieldsFrom, FieldsOf, KeyOf, NamesKey, PutField, ValueOf, PutAll, Takes, SameObject, Named;
    BlockAppend(lines, written);
    if FieldsFrom(written).Some? {
      FirstIsNamed(written, key);
      forall k
        ensures Named([], k) <==> NamesKey([], k)
      {
        NothingNamed(k);
      }
      var above, fields := FieldsOf(lines).value, FieldsFrom(written).value;
      assert above + [] + [] == above && above + fields + [] == above + fields;
      SetObject(above, [], fields, [], key, v, []);
    }
  }

  lemma NothingNamed(k: string)
    ensures !Named([], k) && !NamesKey([], k)
  {
  }

  /** Written as one field, the lines read so exactly when that field does. */
  lemma OneFieldReadsAsSet(lines: seq<string>, end: nat, written: seq<string>, key: string, v: Value, before: Fields)
    requires end <= |lines| && WritesField(written, key)
    ensures ReadsAsSet(FieldsFrom(written + Leftover(lines, end)), key, v, before, Below(lines, end))
       <==> ReadsWritten(lines, end, written, key, v, before)
  {
    hide TopLine, ReadField, FieldsFrom, KeyOf, NamesKey, PutField, ValueOf;
    var all := written + Leftover(lines, end);
    assert all[1..] == written[1..] + Leftover(lines, end);
    OneField(all);
    if ReadField(all).Some? {
      FieldKey(all);
      PutValue(before, key, v, key);
      LastOne([], ReadField(all).value);
      assert [] + [ReadField(all).value] == [ReadField(all).value];
    }
  }

  /** The same behind all others. */
  lemma OneFieldAppended(written: seq<string>, key: string, v: Value, before: Fields)
    requires WritesField(written, key)
    ensures ReadsAsSet(FieldsFrom(written), key, v, before, []) <==> ReadField(written) == Some((key, v))
  {
    hide TopLine, ReadField, FieldsFrom, KeyOf, NamesKey, PutField, ValueOf;
    OneField(written);
    NothingNamed(key);
    if ReadField(written).Some? {
      FieldKey(written);
      PutValue(before, key, v, key);
      LastOne([], ReadField(written).value);
      assert [] + [ReadField(written).value] == [ReadField(written).value];
    }
  }

  /** A blank last line is not missed. */
  lemma BlankLastLine(lines: seq<string>)
    requires lines != [] && Trim(lines[|lines| - 1]) == "" && FieldsOf(lines).Some?
    ensures FieldsOf(lines[..|lines| - 1]) == FieldsOf(lines)
  {
    hide TopLine, ReadField, FieldsFrom, FieldsOf, Peek, HasControl;
    var front, last := lines[..|lines| - 1], lines[|lines| - 1];
    assert lines == front + [last];
    BlockIsClean(lines);
    BlankIsNoTop(last);
    LeftBelow(front, [last]);
    LeftBelow(front, []);
    assert front + [] == front;
    match LastTop(front)
    case None =>
      PeekAppend(front, [last], 0);
      BlankEnds(last);
    case Some(s) =>
      assert front[s..] + [] == front[s..];
      BlankCloses(front[s..], last);
      QuietBelow(front[s..], [last]);
  }

  lemma BlankIsNoTop(line: string)
    requires Trim(line) == ""
    ensures NoTop([line])
  {
  }

  lemma BlankEnds(line: string)
    requires Trim(line) == "" && !HasControl(line)
    ensures Peek([line], 0) == End
  {
  }

  lemma BlankCloses(chunk: seq<string>, line: string)
    requires Trim(line) == "" && !HasControl(line)
    ensures ClosesAt(chunk + [line], |chunk|) && Peek(chunk + [line], |chunk|) == End
  {
    hide Peek, NonBlank, HasControl, Trim, ClosesAt;
    BlankEnds(line);
    AllBlank(line);
    QuietCloses(chunk, [line]);
  }

  lemma AllBlank(line: string)
    requires Trim(line) == ""
    ensures NonBlank([line], 0) == 1
  {
    assert NonBlank([line], 1) == 1;
  }

  /** Blank lines and comments, of which the first comment, if any, stands at column 0. */
  predicate Quiet(lines: seq<string>) {
    Peek(lines, 0) == End && (NonBlank(lines, 0) < |lines| ==> IndentOf(lines[NonBlank(lines, 0)]) == Some(0))
  }

  lemma {:induction false} NonBlankShift(a: seq<string>, b: seq<string>, i: nat)
    requires i <= |b|
    ensures NonBlank(a + b, |a| + i) == |a| + NonBlank(b, i)
    decreases |b| - i
  {
    hide Trim;
    if i < |b| {
      NonBlankShift(a, b, i + 1);
    }
  }

  lemma QuietCloses(chunk: seq<string>, rest: seq<string>)
    requires Quiet(rest)
    ensures ClosesAt(chunk + rest, |chunk|) && Peek(chunk + rest, |chunk|) == End
  {
    hide Peek, NonBlank, IndentOf, TopLine;
    PeekShift(chunk, rest, 0);
    NonBlankShift(chunk, rest, 0);
  }

  lemma {:induction false} PeekFindsNoTop(lines: seq<string>, i: nat)
    requires i <= |lines| && Peek(lines, i) == End
    ensures forall j :: i <= j < |lines| ==> !TopLine(lines[j])
    decreases |lines| - i
  {
    hide HasControl, IsIgnorable, IndentOf, SeqItem, Trim;
    if i < |lines| {
      PeekFindsNoTop(lines, i + 1);
    }
  }

  /** A quiet leftover reads on under anything. */
  lemma QuietReadsAbove(above: seq<string>, leftover: seq<string>, below: seq<string>)
    requires FieldsOf(above).Some? && Quiet(leftover)
    ensures ReadsAbove(above, leftover, below)
  {
    hide Peek, Quiet, ReadField, TopLine, KeyOf, NamesKey, FieldsOf, ClosesAt;
    assert Peek(leftover, 0) == End by { QuietEnds(leftover); }
    NothingLeftOver();
    AboveWith(above, []);
    match LastTop(above)
    case None =>
    case Some(s) =>
      QuietCloses(above[s..], leftover);
      QuietBelow(above[s..], leftover);
  }

  lemma QuietEnds(lines: seq<string>)
    requires Quiet(lines)
    ensures Peek(lines, 0) == End
  {
  }

  lemma NothingLeftOver()
    ensures NoTop([])
  {
  }
}

/**
 * A frontmatter block as the sequence of its fields: each key line at column 0 with the lines up to the next one,
 * read on its own. What the guard reads of the whole block is what it reads of its fields, in order.
 */
module TopFields {
  import opened JsString
  import opened AcceptGuard
  import opened FlowModel
  import opened BlockModel
  import opened BlockLines
  import opened BlockWindow
  import opened BlockSound

  /** The first key line at column 0 from line `i` on. */
  function NextTop(lines: seq<string>, i: nat): (k: nat)
    requires i <= |lines|
    ensures i <= k <= |lines| && (k < |lines| ==> TopLine(lines[k])) && forall j :: i <= j < k ==> !TopLine(lines[j])
    decreases |lines| - i
  {
    if i == |lines| || TopLine(lines[i]) then i else NextTop(lines, i + 1)
  }

  /** A key line and the lines of its value, read alone. */
  function ReadField(chunk: seq<string>): Option<(string, Value)>
    requires chunk != []
  {
    match ParseKeyLine(chunk[0])
    case BadKey => None
    case NotKey => None
    case Key(key, rest) =>
      match ParseValueAfterKey(chunk, 1, rest, 0)
      case Fail => None
      case Got(v, next) => if Peek(chunk, next) == End then Some((key, v)) else None
  }

  /** Both parts were read. */
  function Both(a: Option<Fields>, b: Option<Fields>): Option<Fields> {
    if a.Some? && b.Some? then Some(a.value + b.value) else None
  }

  function One(field: Option<(string, Value)>): Option<Fields> {
    if field.Some? then Some([field.value]) else None
  }

  /** The fields from a key line on, in order of their lines. */
  function FieldsFrom(lines: seq<string>): Option<Fields> {
    if lines == [] then Some([])
    else
      var e := NextTop(lines, 1);
      Both(One(ReadField(lines[..e])), FieldsFrom(lines[e..]))
  }

  /** The fields of a block; only blank lines and comments may stand before the first. */
  function FieldsOf(lines: seq<string>): Option<Fields> {
    var head := NextTop(lines, 0);
    if Peek(lines[..head], 0) == End then FieldsFrom(lines[head..]) else None
  }

  /** Each field assigned in turn. */
  function PutAll(out: Fields, fields: Fields): Fields
    decreases |fields|
  {
    if fields == [] then out else PutAll(PutField(out, fields[0].0, fields[0].1), fields[1..])
  }

  /** The block is read line by line, not as one flow collection. */
  predicate BlockRoot(lines: seq<string>) {
    match Peek(lines, 0)
    case Line(at) => IndentOf(lines[at]).Some? ==> !RootOpens(lines[at][IndentOf(lines[at]).value..])
    case _ => true
  }

  predicate RootOpens(body: string) {
    body != "" && body[0] in {'{', '['}
  }

  // ── The whole from its fields ─────────────────────────────────────────────

  lemma TopCloses(lines: seq<string>, e: nat)
    requires e <= |lines| && (e < |lines| ==> TopLine(lines[e]))
    ensures ClosesAt(lines, e) && Peek(lines, e) == if e < |lines| then Line(e) else End
  {
    hide IndentOf, SeqItem, HasControl;
  }

  /** Where the reader looks does not matter, only what it finds. */
  lemma MappingFrom(lines: seq<string>, i: nat, j: nat, indent: nat, out: Fields)
    requires i <= |lines| && j <= |lines| && Peek(lines, i) == Peek(lines, j)
    ensures ParseMapping(lines, i, indent, out) == ParseMapping(lines, j, indent, out)
  {
    hide Peek, IndentOf, SeqItem, ParseKeyLine, ParseValueAfterKey;
  }

  /** A line that is no key line at column 0 ends the reading of the document. */
  lemma StrayFails(lines: seq<string>, i: nat, out: Fields)
    requires i <= |lines| && (Peek(lines, i) == Bad || (Peek(lines, i).Line? && !TopLine(lines[Peek(lines, i).at])))
    ensures ParseMapping(lines, i, 0, out) == Fail
  {
    PeekStops(lines, i);
    hide Peek, ParseKeyLine, ParseValueAfterKey, Significant;
    if Peek(lines, i).Line? {
      var at := Peek(lines, i).at;
      assert lines[at][0..] == lines[at];
    }
  }

  lemma {:induction false} FieldStep(lines: seq<string>, i: nat, out: Fields)
    requires i < |lines| && TopLine(lines[i])
    ensures var e := NextTop(lines, i + 1);
      ParseMapping(lines, i, 0, out)
      == match ReadField(lines[i..e])
         case None => Fail
         case Some(field) => ParseMapping(lines, e, 0, PutField(out, field.0, field.1))
  {
    hide Peek, IndentOf, SeqItem, ParseKeyLine, ParseValueAfterKey, PutField, TopLine, NextTop, ParseMapping;
    var e := NextTop(lines, i + 1);
    var chunk := lines[i..e];
    TopCloses(lines, i);
    TopCloses(lines, e);
    TopLineIs(lines[i]);
    assert lines[i][0..] == lines[i] == chunk[0];
    if ParseKeyLine(lines[i]).Key? {
      ChunkStep(lines, i, e, ParseKeyLine(lines[i]).key, ParseKeyLine(lines[i]).rest, out);
    } else {
      NoKeyFails(lines, i, out);
    }
  }

  lemma NoKeyFails(lines: seq<string>, i: nat, out: Fields)
    requires i < |lines| && Peek(lines, i) == Line(i) && IndentOf(lines[i]) == Some(0)
    requires SeqItem(lines[i][0..]).None? && !ParseKeyLine(lines[i][0..]).Key?
    ensures ParseMapping(lines, i, 0, out) == Fail
  {
    hide Peek, IndentOf, SeqItem, ParseKeyLine, ParseValueAfterKey;
  }

  lemma KeyValueFails(lines: seq<string>, i: nat, out: Fields)
    requires i < |lines| && Peek(lines, i) == Line(i) && IndentOf(lines[i]) == Some(0)
    requires SeqItem(lines[i][0..]).None? && ParseKeyLine(lines[i][0..]).Key?
    requires ParseValueAfterKey(lines, i + 1, ParseKeyLine(lines[i][0..]).rest, 0).Fail?
    ensures ParseMapping(lines, i, 0, out) == Fail
  {
    hide Peek, IndentOf, SeqItem, ParseKeyLine, ParseValueAfterKey;
  }

  lemma {:induction false} ChunkStep(lines: seq<string>, i: nat, e: nat, key: string, rest: string, out: Fields)
    requires i < e <= |lines| && Peek(lines, i) == Line(i) && IndentOf(lines[i]) == Some(0)
    requires SeqItem(lines[i][0..]).None?
    requires ParseKeyLine(lines[i][0..]) == Key(key, rest) && lines[i][0..] == lines[i]
    requires ClosesAt(lines, e) && Peek(lines, e) == (if e < |lines| then Line(e) else End)
    requires forall j :: i < j < e ==> !TopLine(lines[j])
    ensures ParseMapping(lines, i, 0, out)
         == match ReadField(lines[i..e])
            case None => Fail
            case Some(field) => ParseMapping(lines, e, 0, PutField(out, field.0, field.1))
  {
    hide Peek, IndentOf, SeqItem, ParseKeyLine, ParseValueAfterKey, PutField, TopLine, ParseMapping, ClosesAt;
    var chunk := lines[i..e];
    ValueWithin(lines, i, chunk, 1, i + 1, rest, 0);
    if ParseValueAfterKey(lines, i + 1, rest, 0).Fail? {
      KeyValueFails(lines, i, out);
    } else {
      var v, m := ParseValueAfterKey(lines, i + 1, rest, 0).value, ParseValueAfterKey(lines, i + 1, rest, 0).next;
      var n := ParseValueAfterKey(chunk, 1, rest, 0).next;
      KeyStep(lines, i, 0, key, rest, v, m, out);
      PeekWithin(lines, i, chunk, n, m);
      if Peek(chunk, n) == End {
        MappingFrom(lines, m, e, 0, PutField(out, key, v));
      } else {
        if Peek(chunk, n).Line? {
          PeekNoEarlier(chunk, n);
        }
        StrayFails(lines, m, PutField(out, key, v));
      }
    }
  }

  lemma {:induction false} MappingIsFields(lines: seq<string>, i: nat, out: Fields)
    requires i <= |lines| && (i < |lines| ==> TopLine(lines[i]))
    ensures match FieldsFrom(lines[i..])
      case None => ParseMapping(lines, i, 0, out) == Fail
      case Some(fields) =>
        var r := ParseMapping(lines, i, 0, out);
        r.Got? && r.value == Map(PutAll(out, fields)) && Peek(lines, r.next) == End
    decreases |lines| - i
  {
    hide Peek, TopLine, ReadField, ParseMapping, PutField;
    if i == |lines| {
      EndsAll(lines, out);
    } else {
      var e, rest := NextTop(lines, i + 1), lines[i..];
      FieldStep(lines, i, out);
      NextTopIn(lines, i, i + 1);
      assert rest[..e - i] == lines[i..e] && rest[e - i..] == lines[e..];
      if ReadField(lines[i..e]).Some? {
        var field := ReadField(lines[i..e]).value;
        MappingIsFields(lines, e, PutField(out, field.0, field.1));
        if FieldsFrom(lines[e..]).Some? {
          PutFirst(out, field, FieldsFrom(lines[e..]).value);
        }
      }
    }
  }

  lemma PutFirst(out: Fields, field: (string, Value), rest: Fields)
    ensures PutAll(out, [field] + rest) == PutAll(PutField(out, field.0, field.1), rest)
  {
    assert ([field] + rest)[1..] == rest;
  }

  lemma EndsAll(lines: seq<string>, out: Fields)
    ensures ParseMapping(lines, |lines|, 0, out) == Got(Map(out), |lines|) && Peek(lines, |lines|) == End
  {
  }

  lemma {:induction false} NextTopIn(lines: seq<string>, i: nat, j: nat)
    requires i <= j <= |lines|
    ensures NextTop(lines, j) == i + NextTop(lines[i..], j - i)
    decreases |lines| - j
  {
    hide TopLine;
    if j < |lines| && !TopLine(lines[j]) {
      NextTopIn(lines, i, j + 1);
    }
  }

  /** A head of blank lines and comments is passed over, and anything else in it is found. */
  lemma {:induction false} PeekHead(lines: seq<string>, i: nat, head: nat)
    requires i <= head <= |lines|
    ensures match Peek(lines[..head], i)
      case End => Peek(lines, i) == Peek(lines, head)
      case r => Peek(lines, i) == r
    decreases head - i
  {
    hide HasControl, IsIgnorable, Trim;
    if i < head {
      PeekHead(lines, i + 1, head);
    }
  }

  /** The frontmatter read is that of the fields read one by one, assigned in order. */
  lemma DocumentIsItsFields(lines: seq<string>)
    requires BlockRoot(lines)
    ensures ParseFrontmatter(lines)
         == match FieldsOf(lines) { case None => None case Some(fields) => Some(Map(PutAll([], fields))) }
  {
    hide Peek, TopLine, ParseMapping, ParseRoot, FieldsFrom, PutAll, IndentOf;
    var head := NextTop(lines, 0);
    PeekHead(lines, 0, head);
    TopCloses(lines, head);
    MappingIsFields(lines, head, []);
    if Peek(lines[..head], 0) == End {
      if head < |lines| {
        TopLineIs(lines[head]);
      } else {
        EndsAll(lines, []);
      }
    } else if Peek(lines, 0).Line? {
      PeekStops(lines, 0);
      StrayFails(lines, Peek(lines, 0).at, []);
    }
  }

  // ── Parts of a block ──────────────────────────────────────────────────────

  lemma {:induction false} NextTopAppend(x: seq<string>, y: seq<string>, i: nat)
    requires i <= |x| && (y == [] || TopLine(y[0]))
    ensures NextTop(x + y, i) == NextTop(x, i)
    decreases |x| - i
  {
    hide TopLine;
    if i < |x| && !TopLine(x[i]) {
      NextTopAppend(x, y, i + 1);
    }
  }

  lemma BothAssociates(a: Option<Fields>, b: Option<Fields>, c: Option<Fields>)
    ensures Both(Both(a, b), c) == Both(a, Both(b, c))
  {
    if a.Some? && b.Some? && c.Some? {
      assert a.value + b.value + c.value == a.value + (b.value + c.value);
    }
  }

  /** Fields in front of fields are read as both. */
  lemma {:induction false} FieldsAppend(x: seq<string>, y: seq<string>)
    requires (x == [] || TopLine(x[0])) && (y == [] || TopLine(y[0]))
    ensures FieldsFrom(x + y) == Both(FieldsFrom(x), FieldsFrom(y))
  {
    hide TopLine, ReadField;
    if x == [] {
      assert x + y == y;
      if FieldsFrom(y).Some? {
        assert [] + FieldsFrom(y).value == FieldsFrom(y).value;
      }
    } else {
      var e := NextTop(x, 1);
      NextTopAppend(x, y, 1);
      assert (x + y)[..e] == x[..e] && (x + y)[e..] == x[e..] + y;
      FieldsAppend(x[e..], y);
      BothAssociates(One(ReadField(x[..e])), FieldsFrom(x[e..]), FieldsFrom(y));
    }
  }

  /** A block cut in front of a key line. */
  lemma BlockAppend(pre: seq<string>, mid: seq<string>)
    requires mid == [] || TopLine(mid[0])
    ensures FieldsOf(pre + mid) == Both(FieldsOf(pre), FieldsFrom(mid))
  {
    hide TopLine, FieldsFrom, Peek, NextTop;
    var head := NextTop(pre, 0);
    NextTopAppend(pre, mid, 0);
    assert (pre + mid)[..head] == pre[..head] && (pre + mid)[head..] == pre[head..] + mid;
    FieldsAppend(pre[head..], mid);
  }

  predicate NoTop(lines: seq<string>) {
    forall j :: 0 <= j < |lines| ==> !TopLine(lines[j])
  }

  /** One field and nothing else. */
  lemma OneField(chunk: seq<string>)
    requires chunk != [] && NoTop(chunk[1..])
    ensures FieldsFrom(chunk) == One(ReadField(chunk))
  {
    hide TopLine, ReadField;
    assert forall j :: 1 <= j < |chunk| ==> chunk[j] == chunk[1..][j - 1];
    assert NextTop(chunk, 1) == |chunk|;
    assert chunk[..|chunk|] == chunk && chunk[|chunk|..] == [];
    if ReadField(chunk).Some? {
      assert [ReadField(chunk).value] + [] == [ReadField(chunk).value];
    }
  }

  /** The last key line at column 0 among the first `n`. */
  function LastTopAbove(lines: seq<string>, n: nat): (r: Option<nat>)
    requires n <= |lines|
    ensures r.Some? ==> r.value < n && TopLine(lines[r.value])
    ensures forall j :: (if r.Some? then r.value else -1) < j < n ==> !TopLine(lines[j])
  {
    if n == 0 then None else if TopLine(lines[n - 1]) then Some(n - 1) else LastTopAbove(lines, n - 1)
  }

  function LastTop(lines: seq<string>): (r: Option<nat>)
    ensures r.Some? ==> r.value < |lines| && TopLine(lines[r.value])
    ensures forall j :: (if r.Some? then r.value else -1) < j < |lines| ==> !TopLine(lines[j])
  {
    LastTopAbove(lines, |lines|)
  }

  /** Lines without a key line belong to the field above them. */
  lemma LeftBelow(pre: seq<string>, rest: seq<string>)
    requires NoTop(rest)
    ensures match LastTop(pre)
      case Some(s) => FieldsOf(pre + rest) == Both(FieldsOf(pre[..s]), One(ReadField(pre[s..] + rest)))
      case None => FieldsOf(pre + rest) == if Peek(pre + rest, 0) == End then Some([]) else None
  {
    hide TopLine, ReadField, FieldsFrom, Peek;
    match LastTop(pre)
    case Some(s) =>
      var chunk := pre[s..] + rest;
      assert pre + rest == pre[..s] + chunk;
      BlockAppend(pre[..s], chunk);
      assert chunk[1..] == pre[s + 1..] + rest;
      OneField(chunk);
    case None =>
      var all := pre + rest;
      assert NextTop(all, 0) == |all| && all[..|all|] == all && all[|all|..] == [];
      NothingFrom();
  }

  lemma NothingFrom()
    ensures FieldsFrom([]) == Some([])
  {
  }

  // ── Keys, and raw control characters ──────────────────────────────────────

  function KeyOf(line: string): Option<string> {
    match ParseKeyLine(line) case Key(key, _) => Some(key) case _ => None
  }

  predicate NamesKey(lines: seq<string>, key: string) {
    exists j :: 0 <= j < |lines| && TopLine(lines[j]) && KeyOf(lines[j]) == Some(key)
  }

  predicate Named(fields: Fields, key: string) {
    exists i :: 0 <= i < |fields| && fields[i].0 == key
  }

  lemma FieldKey(chunk: seq<string>)
    requires chunk != [] && ReadField(chunk).Some?
    ensures KeyOf(chunk[0]) == Some(ReadField(chunk).value.0)
  {
    hide ParseKeyLine, ParseValueAfterKey, Peek;
  }

  /** A field that is read holds no raw control character. */
  lemma FieldIsClean(chunk: seq<string>)
    requires chunk != [] && TopLine(chunk[0]) && ReadField(chunk).Some?
    ensures forall k :: 0 <= k < |chunk| ==> !HasControl(chunk[k])
  {
    hide ParseKeyLine, ParseValueAfterKey, Peek, HasControl;
    TopLineIs(chunk[0]);
    ValueSound(chunk, 1, ParseKeyLine(chunk[0]).rest, 0);
    PeekClean(chunk, ParseValueAfterKey(chunk, 1, ParseKeyLine(chunk[0]).rest, 0).next);
  }

  /** In fields that are read every line is free of control characters, and every key line names a key. */
  lemma {:induction false} FieldsAreClean(lines: seq<string>)
    requires (lines == [] || TopLine(lines[0])) && FieldsFrom(lines).Some?
    ensures forall k :: 0 <= k < |lines| ==> !HasControl(lines[k]) && (TopLine(lines[k]) ==> KeyOf(lines[k]).Some?)
  {
    hide TopLine, ReadField, HasControl, KeyOf;
    if lines != [] {
      var e := NextTop(lines, 1);
      FieldIsClean(lines[..e]);
      FieldKey(lines[..e]);
      FieldsAreClean(lines[e..]);
      forall k | 0 <= k < |lines|
        ensures !HasControl(lines[k]) && (TopLine(lines[k]) ==> KeyOf(lines[k]).Some?)
      {
        if k < e {
          assert lines[..e][k] == lines[k];
        } else {
          assert lines[e..][k - e] == lines[k];
        }
      }
    }
  }

  lemma BlockIsClean(lines: seq<string>)
    requires FieldsOf(lines).Some?
    ensures forall k :: 0 <= k < |lines| ==> !HasControl(lines[k]) && (TopLine(lines[k]) ==> KeyOf(lines[k]).Some?)
  {
    hide TopLine, FieldsFrom, HasControl, KeyOf, Peek;
    var head := NextTop(lines, 0);
    PeekClean(lines[..head], 0);
    FieldsAreClean(lines[head..]);
    forall k | 0 <= k < |lines|
      ensures !HasControl(lines[k]) && (TopLine(lines[k]) ==> KeyOf(lines[k]).Some?)
    {
      if k < head {
        assert lines[..head][k] == lines[k];
      } else {
        assert lines[head..][k - head] == lines[k];
      }
    }
  }

  /** The fields read name the keys of the key lines. */
  lemma {:induction false} FieldsNameKeys(lines: seq<string>, key: string)
    requires (lines == [] || TopLine(lines[0])) && FieldsFrom(lines).Some?
    ensures Named(FieldsFrom(lines).value, key) <==> NamesKey(lines, key)
  {
    hide TopLine, ReadField, KeyOf;
    if lines != [] {
      var e := NextTop(lines, 1);
      var field, rest := ReadField(lines[..e]).value, FieldsFrom(lines[e..]).value;
      FieldKey(lines[..e]);
      FieldsNameKeys(lines[e..], key);
      assert FieldsFrom(lines).value == [field] + rest;
      assert Named([field] + rest, key) <==> field.0 == key || Named(rest, key) by { NamedFirst(field, rest, key); }
      NamesFirst(lines, e, key);
    }
  }

  lemma NamedFirst(field: (string, Value), rest: Fields, key: string)
    ensures Named([field] + rest, key) <==> field.0 == key || Named(rest, key)
  {
    var all := [field] + rest;
    assert all[0] == field && forall i :: 0 <= i < |rest| ==> all[i + 1] == rest[i];
  }

  lemma NamesFirst(lines: seq<string>, e: nat, key: string)
    requires 0 < e <= |lines| && TopLine(lines[0]) && forall j :: 0 < j < e ==> !TopLine(lines[j])
    ensures NamesKey(lines, key) <==> KeyOf(lines[0]) == Some(key) || NamesKey(lines[e..], key)
  {
    hide TopLine, KeyOf;
    assert forall j :: e <= j < |lines| ==> lines[e..][j - e] == lines[j];
  }

  lemma NamesAppend(x: seq<string>, y: seq<string>, key: string)
    ensures NamesKey(x + y, key) <==> NamesKey(x, key) || NamesKey(y, key)
  {
    hide TopLine, KeyOf;
    assert forall j :: 0 <= j < |x| ==> (x + y)[j] == x[j];
    assert forall j :: 0 <= j < |y| ==> (x + y)[|x| + j] == y[j];
  }

  lemma BlockNamesKeys(lines: seq<string>, key: string)
    requires FieldsOf(lines).Some?
    ensures Named(FieldsOf(lines).value, key) <==> NamesKey(lines, key)
  {
    hide TopLine, FieldsFrom, KeyOf, Peek;
    var head := NextTop(lines, 0);
    FieldsNameKeys(lines[head..], key);
    NamesAppend(lines[..head], lines[head..], key);
    assert lines[..head] + lines[head..] == lines;
  }

  /** Lines that cannot continue anything leave the field above them as it was read. */
  lemma QuietBelow(chunk: seq<string>, rest: seq<string>)
    requires chunk != [] && ClosesAt(chunk + rest, |chunk|) && Peek(chunk + rest, |chunk|) == End
    ensures ReadField(chunk + rest) == ReadField(chunk)
  {
    hide ParseKeyLine, ParseValueAfterKey, Peek, ClosesAt;
    var lines := chunk + rest;
    assert lines[0] == chunk[0];
    if ParseKeyLine(chunk[0]).Key? {
      var text := ParseKeyLine(chunk[0]).rest;
      ValueWithin(lines, 0, chunk, 1, 1, text, 0);
      if ParseValueAfterKey(chunk, 1, text, 0).Got? {
        PeekWithin(lines, 0, chunk, ParseValueAfterKey(chunk, 1, text, 0).next,
                   ParseValueAfterKey(lines, 1, text, 0).next);
      }
    }
  }
}

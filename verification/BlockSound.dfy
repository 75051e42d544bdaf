/** What every reading guarantees: a tree that names each key once, from lines without a raw control character. */
module BlockSound {
  import opened JsString
  import opened AcceptGuard
  import opened AcceptTransition
  import opened FlowModel
  import opened BlockModel
  import opened BlockLines
  import opened BlockWindow

  // ── Trees ─────────────────────────────────────────────────────────────────

  lemma {:induction false} PutTree(m: Fields, k: string, v: Value)
    requires Tree(m) && WellFormed(v)
    ensures Tree(PutField(m, k, v)) && KeySet(PutField(m, k, v)) == KeySet(m) + {k}
  {
    hide WellFormed;
    if m == [] {
      KeysOfCons((k, v), []);
      assert [(k, v)] + [] == [(k, v)];
    } else if m[0].0 == k {
      KeysOfCons((k, v), m[1..]);
      KeysOfCons(m[0], m[1..]);
      assert m == [m[0]] + m[1..];
    } else {
      assert Tree(m[1..]);
      PutTree(m[1..], k, v);
      var rest := PutField(m[1..], k, v);
      KeysOfCons(m[0], m[1..]);
      KeysOfCons(m[0], rest);
      assert m == [m[0]] + m[1..];
      forall j | 0 <= j < |rest|
        ensures rest[j].0 != m[0].0
      {
        assert rest[j].0 in KeySet(rest);
      }
    }
  }

  lemma KeysOfCons(field: (string, Value), m: Fields)
    ensures KeySet([field] + m) == {field.0} + KeySet(m)
  {
    var all := [field] + m;
    assert forall i :: 0 <= i < |m| ==> all[i + 1] == m[i];
    assert all[0] == field;
  }

  lemma MapIsTree(m: Fields)
    ensures WellFormed(Map(m)) <==> Tree(m)
  {
  }

  lemma {:induction false} FlowValueTree(s: string, start: nat)
    requires start <= |s|
    ensures ParseValue(s, start).Ok? ==> WellFormed(ParseValue(s, start).value)
    decreases |s| - start, 0
  {
    hide ParseQuoted, ParseSeq, ParseMap, InterpretScalar, Trim, ScanTo, IsSpace;
    var i := SkipSpace(s, start);
    if i == |s| {
    } else if s[i] == '[' {
      FlowSeqTree(s, i);
    } else if s[i] == '{' {
      FlowMapTree(s, i);
    } else if s[i] !in {'"', '\''} {
      ScalarTree(Trim(s[i..ScanTo(s, PLAIN_STOPS, i)]));
    }
  }

  lemma ScalarTree(s: string)
    ensures WellFormed(InterpretScalar(s))
  {
    hide SignedInt, DecimalValue, DoubleLimit;
  }

  lemma {:induction false} FlowSeqTree(s: string, start: nat)
    requires start < |s|
    ensures ParseSeq(s, start).Ok? ==> WellFormed(ParseSeq(s, start).value)
    decreases |s| - start - 1, 2
  {
    hide ParseItems;
    var i := SkipSpace(s, start + 1);
    if !(i < |s| && s[i] == ']') {
      FlowItemsTree(s, i, []);
    }
  }

  lemma {:induction false} FlowItemsTree(s: string, start: nat, out: seq<Value>)
    requires start <= |s| && AllWellFormed(out)
    ensures ParseItems(s, start, out).Ok? ==> WellFormed(ParseItems(s, start, out).value)
    decreases |s| - start, 1
  {
    hide ParseValue, AfterItem;
    FlowValueTree(s, start);
    if ParseValue(s, start).Ok? && AfterItem(s, ParseValue(s, start).next, ']').More? {
      FlowItemsTree(s, AfterItem(s, ParseValue(s, start).next, ']').next, out + [ParseValue(s, start).value]);
    }
  }

  lemma {:induction false} FlowMapTree(s: string, start: nat)
    requires start < |s|
    ensures ParseMap(s, start).Ok? ==> WellFormed(ParseMap(s, start).value)
    decreases |s| - start - 1, 2
  {
    hide ParseFields;
    var i := SkipSpace(s, start + 1);
    if !(i < |s| && s[i] == '}') {
      FlowFieldsTree(s, i, []);
    }
  }

  lemma {:induction false} FlowFieldsTree(s: string, start: nat, out: Fields)
    requires start <= |s| && Tree(out)
    ensures ParseFields(s, start, out).Ok? ==> WellFormed(ParseFields(s, start, out).value)
    decreases |s| - start, 1
  {
    hide ParseValue, AfterItem, ParseKey, PutField, Tree, WellFormed;
    match FlowModel.ParseKey(s, SkipSpace(s, start))
    case Refused =>
    case Ok(key, afterKey) =>
      var colon := SkipSpace(s, afterKey);
      if colon < |s| && s[colon] == ':' {
        FlowValueTree(s, colon + 1);
        if ParseValue(s, colon + 1).Ok? {
          var v, next := ParseValue(s, colon + 1).value, ParseValue(s, colon + 1).next;
          PutTree(out, key, v);
          MapIsTree(PutField(out, key, v));
          if AfterItem(s, next, '}').More? {
            FlowFieldsTree(s, AfterItem(s, next, '}').next, PutField(out, key, v));
          }
        }
      }
  }

  lemma TokenTree(raw: string)
    ensures ScalarToken(raw).Some? ==> WellFormed(ScalarToken(raw).value)
  {
    hide InterpretScalar, UnquoteIfQuoted;
    ScalarTree(Trim(raw));
  }

  lemma FlowTree(text: string)
    ensures ParseFlow(text).Some? ==> WellFormed(ParseFlow(text).value)
  {
    hide ParseValue;
    FlowValueTree(text, 0);
  }

  // ── Lines ─────────────────────────────────────────────────────────────────

  /** No raw control character in the lines from `i` up to `j`. */
  predicate Clean(lines: seq<string>, i: nat, j: nat) {
    forall k :: i <= k < j && k < |lines| ==> !HasControl(lines[k])
  }

  lemma {:induction false} PeekClean(lines: seq<string>, i: nat)
    requires i <= |lines|
    ensures match Peek(lines, i)
      case Line(at) => Clean(lines, i, at + 1)
      case End => Clean(lines, i, |lines|)
      case Bad => true
    decreases |lines| - i
  {
    hide HasControl, IsIgnorable;
    if i < |lines| && !HasControl(lines[i]) && IsIgnorable(lines[i]) {
      PeekClean(lines, i + 1);
    }
  }

  lemma {:induction false} GatherClean(lines: seq<string>, i: nat, acc: string, owner: nat, sep: string)
    requires i <= |lines|
    ensures var r := Gather(lines, i, acc, owner, sep); r.Got? ==> Clean(lines, i, r.next)
    decreases |lines| - i
  {
    hide HasControl, Peek, IndentOf, SeqItem, ParseKeyLine, Trim;
    PeekClean(lines, i);
    if Peek(lines, i).Line? {
      var at := Peek(lines, i).at;
      if IndentOf(lines[at]).Some? && IndentOf(lines[at]).value > owner {
        var body := lines[at][IndentOf(lines[at]).value..];
        GatherClean(lines, at + 1, acc + sep + Trim(body), owner, sep);
      }
    }
  }

  lemma FinishSound(lines: seq<string>, i: nat, first: string, owner: nat)
    requires i <= |lines|
    ensures var r := FinishScalar(lines, i, first, owner); r.Got? ==> Clean(lines, i, r.next) && WellFormed(r.value)
  {
    hide Gather, ScalarToken, Clean;
    GatherClean(lines, i, first, owner, " ");
    if Gather(lines, i, first, owner, " ").Got? {
      TokenTree(Gather(lines, i, first, owner, " ").value);
    }
  }

  lemma {:induction false} ReadBlockClean(lines: seq<string>, i: nat, owner: nat, content: Option<nat>,
                                          parts: seq<string>)
    requires i <= |lines|
    ensures var r := ReadBlock(lines, i, owner, content, parts); r.Got? ==> Clean(lines, i, r.next)
    decreases |lines| - i
  {
    hide HasControl, IndentOf, Trim, NonBlank;
    if i < |lines| && !HasControl(lines[i]) {
      if Trim(lines[i]) == "" {
        ReadBlockClean(lines, i + 1, owner, content, parts + [""]);
      } else if IndentOf(lines[i]).Some? {
        var ind := IndentOf(lines[i]).value;
        var column := if content.Some? then content.value else ind;
        ReadBlockClean(lines, i + 1, owner, Some(column), parts + [lines[i][Min(ind, column)..]]);
      }
    }
  }

  /** A value, and the lines it was read from. */
  ghost predicate Sound(lines: seq<string>, i: nat, r: Read<Value>) {
    r.Got? ==> WellFormed(r.value) && Clean(lines, i, r.next)
  }

  lemma CleanOn(lines: seq<string>, i: nat, j: nat, k: nat)
    requires Clean(lines, i, j) && Clean(lines, j, k)
    ensures Clean(lines, i, k)
  {
    hide HasControl;
  }

  lemma {:induction false} MappingSound(lines: seq<string>, i: nat, indent: nat, out: Fields)
    requires i <= |lines| && Tree(out)
    ensures Sound(lines, i, ParseMapping(lines, i, indent, out))
    decreases |lines| - i, 1
  {
    hide Peek, IndentOf, SeqItem, ParseKeyLine, ParseValueAfterKey, PutField, Clean, Tree, WellFormed;
    PeekClean(lines, i);
    MapIsTree(out);
    if Peek(lines, i).Line? {
      var at := Peek(lines, i).at;
      CleanBefore(lines, i, at);
      if IndentOf(lines[at]) == Some(indent) && ParseKeyLine(lines[at][indent..]).Key? {
        var key, rest := ParseKeyLine(lines[at][indent..]).key, ParseKeyLine(lines[at][indent..]).rest;
        ValueSound(lines, at + 1, rest, indent);
        if ParseValueAfterKey(lines, at + 1, rest, indent).Got? {
          var read := ParseValueAfterKey(lines, at + 1, rest, indent);
          var v, next := read.value, read.next;
          PutTree(out, key, v);
          MappingSound(lines, next, indent, PutField(out, key, v));
          CleanOn(lines, i, at + 1, next);
          if ParseMapping(lines, next, indent, PutField(out, key, v)).Got? {
            CleanOn(lines, i, next, ParseMapping(lines, next, indent, PutField(out, key, v)).next);
          }
        }
      }
    }
  }

  lemma CleanBefore(lines: seq<string>, i: nat, at: nat)
    requires Clean(lines, i, at + 1)
    ensures Clean(lines, i, at)
  {
    hide HasControl;
  }

  lemma {:induction false} SequenceSound(lines: seq<string>, i: nat, indent: nat, out: seq<Value>)
    requires i <= |lines| && AllWellFormed(out)
    ensures Sound(lines, i, ParseSequence(lines, i, indent, out))
    decreases |lines| - i, 2
  {
    hide Peek, IndentOf, SeqItem, ParseKeyLine, ParseBareItem, ParseMapping, FinishScalar, Clean, WellFormed, Trim;
    hide ItemColumn, Spaces;
    PeekClean(lines, i);
    ListIsSound(out);
    if Peek(lines, i).Line? {
      var at := Peek(lines, i).at;
      CleanBefore(lines, i, at);
      if IndentOf(lines[at]) == Some(indent) && SeqItem(lines[at][indent..]).Some? {
        var content := Trim(SeqItem(lines[at][indent..]).value);
        if content == "" {
          BareSound(lines, at + 1, indent);
          ItemOn(lines, i, at, indent, out, ParseBareItem(lines, at + 1, indent));
        } else if ParseKeyLine(content).Key? {
          var col := ItemColumn(lines[at], indent);
          var lines' := lines[at := Spaces(col) + content];
          OverwrittenIndent(lines[at], indent, content);
          MappingSound(lines', at, col, []) by { NoFieldsTree(); }
          ItemAdvances(lines', at, col);
          OverwrittenClean(lines, i, at, Spaces(col) + content, ParseMapping(lines', at, col, []));
          ItemOn(lines, i, at, indent, out, ParseMapping(lines', at, col, []));
        } else {
          FinishSound(lines, at + 1, content, indent);
          ItemOn(lines, i, at, indent, out, FinishScalar(lines, at + 1, content, indent));
        }
      }
    }
  }

  lemma NoFieldsTree()
    ensures Tree([])
  {
  }

  lemma ListIsSound(items: seq<Value>)
    requires AllWellFormed(items)
    ensures WellFormed(List(items))
  {
  }

  /** Reading goes on behind an item. */
  lemma {:induction false} ItemOn(lines: seq<string>, i: nat, at: nat, indent: nat, out: seq<Value>, r: Read<Value>)
    requires i <= at < |lines| && Clean(lines, i, at + 1) && Sound(lines, at + 1, r) && AllWellFormed(out)
    requires r.Got? ==> at < r.next <= |lines|
    ensures r.Got? ==> Sound(lines, i, ParseSequence(lines, r.next, indent, out + [r.value]))
    decreases |lines| - at - 1, 3
  {
    hide ParseSequence, WellFormed, Clean;
    if r.Got? {
      SequenceSound(lines, r.next, indent, out + [r.value]);
      CleanOn(lines, i, at + 1, r.next);
      if ParseSequence(lines, r.next, indent, out + [r.value]).Got? {
        CleanOn(lines, i, r.next, ParseSequence(lines, r.next, indent, out + [r.value]).next);
      }
    }
  }

  lemma OverwrittenClean(lines: seq<string>, i: nat, at: nat, line: string, r: Read<Value>)
    requires i <= at < |lines| && Sound(lines[at := line], at, r)
    ensures Sound(lines, at + 1, r)
  {
    hide HasControl, WellFormed;
    var lines' := lines[at := line];
    if r.Got? {
      forall k | at + 1 <= k < r.next && k < |lines|
        ensures !HasControl(lines[k])
      {
        assert lines'[k] == lines[k];
      }
    }
  }

  lemma {:induction false} BareSound(lines: seq<string>, i: nat, indent: nat)
    requires i <= |lines|
    ensures Sound(lines, i, ParseBareItem(lines, i, indent))
    decreases |lines| - i, 4
  {
    hide Peek, IndentOf, ParseNested, Clean;
    PeekClean(lines, i);
    if Peek(lines, i).Line? {
      var at := Peek(lines, i).at;
      CleanBefore(lines, i, at);
      if IndentOf(lines[at]).Some? {
        NestedSound(lines, at, IndentOf(lines[at]).value, indent);
        if ParseNested(lines, at, IndentOf(lines[at]).value, indent).Got? {
          CleanOn(lines, i, at, ParseNested(lines, at, IndentOf(lines[at]).value, indent).next);
        }
      }
    }
  }

  lemma {:induction false} NestedSound(lines: seq<string>, i: nat, child: nat, parent: nat)
    requires i <= |lines|
    ensures Sound(lines, i, ParseNested(lines, i, child, parent))
    decreases |lines| - i, 3
  {
    hide Peek, SeqItem, ParseSequence, ParseMapping, Clean, Tree;
    PeekClean(lines, i);
    if Peek(lines, i).Line? {
      var at := Peek(lines, i).at;
      CleanBefore(lines, i, at);
      NoFieldsTree();
      SequenceSound(lines, at, child, []);
      MappingSound(lines, at, child, []);
      if ParseSequence(lines, at, child, []).Got? {
        CleanOn(lines, i, at, ParseSequence(lines, at, child, []).next);
      }
      if ParseMapping(lines, at, child, []).Got? {
        CleanOn(lines, i, at, ParseMapping(lines, at, child, []).next);
      }
    }
  }

  lemma {:induction false} ValueSound(lines: seq<string>, i: nat, rest: string, keyIndent: nat)
    requires i <= |lines|
    ensures Sound(lines, i, ParseValueAfterKey(lines, i, rest, keyIndent))
    decreases |lines| - i, 3
  {
    hide Peek, IndentOf, SeqItem, ParseSequence, ParseMapping, ReadBlock, FinishScalar, Gather, ParseFlow, BlockHeader;
    hide Clean, JoinWith, Trim;
    hide Tree;
    if rest != "" {
      ReadBlockClean(lines, i, keyIndent, None, []);
      GatherClean(lines, i, rest, keyIndent, "");
      if Gather(lines, i, rest, keyIndent, "").Got? {
        FlowTree(Gather(lines, i, rest, keyIndent, "").value);
      }
      FinishSound(lines, i, rest, keyIndent);
    } else {
      PeekClean(lines, i);
      if Peek(lines, i).Line? {
        var at := Peek(lines, i).at;
        CleanBefore(lines, i, at);
        if IndentOf(lines[at]).Some? {
          var ind := IndentOf(lines[at]).value;
          NoFieldsTree();
          SequenceSound(lines, at, ind, []);
          MappingSound(lines, at, ind, []);
          if ParseSequence(lines, at, ind, []).Got? {
            CleanOn(lines, i, at, ParseSequence(lines, at, ind, []).next);
          }
          if ParseMapping(lines, at, ind, []).Got? {
            CleanOn(lines, i, at, ParseMapping(lines, at, ind, []).next);
          }
        }
      }
    }
  }

  lemma RootTree(rest: seq<string>)
    ensures ParseRoot(rest).Some? ==> ParseRoot(rest).value.Map? && WellFormed(ParseRoot(rest).value)
  {
    hide ParseFlow, JoinWith, HasControl, Trim;
    FlowTree(JoinWith(rest, "\n"));
  }

  /** Whatever is read as frontmatter is an object, and names each key once at every depth. */
  lemma FrontmatterIsTree(lines: seq<string>)
    ensures ParseFrontmatter(lines).Some? ==>
      ParseFrontmatter(lines).value.Map? && Tree(ParseFrontmatter(lines).value.fields)
  {
    hide Peek, IndentOf, ParseMapping, ParseRoot, Tree, Clean;
    NoFieldsTree();
    match Peek(lines, 0)
    case Bad =>
    case End =>
    case Line(first) =>
      RootTree(lines[first..]);
      MappingSound(lines, first, 0, []);
      MappingIsMap(lines, first, 0, []);
      if ParseFrontmatter(lines).Some? && ParseFrontmatter(lines).value.Map? {
        MapIsTree(ParseFrontmatter(lines).value.fields);
      }
  }

  lemma {:induction false} MappingIsMap(lines: seq<string>, i: nat, indent: nat, out: Fields)
    requires i <= |lines|
    ensures ParseMapping(lines, i, indent, out).Got? ==> ParseMapping(lines, i, indent, out).value.Map?
    decreases |lines| - i
  {
    hide Peek, IndentOf, SeqItem, ParseKeyLine, ParseValueAfterKey, PutField;
    if Peek(lines, i).Line? {
      var at := Peek(lines, i).at;
      if IndentOf(lines[at]) == Some(indent) && ParseKeyLine(lines[at][indent..]).Key? {
        var key, rest := ParseKeyLine(lines[at][indent..]).key, ParseKeyLine(lines[at][indent..]).rest;
        if ParseValueAfterKey(lines, at + 1, rest, indent).Got? {
          var read := ParseValueAfterKey(lines, at + 1, rest, indent);
          var v, next := read.value, read.next;
          MappingIsMap(lines, next, indent, PutField(out, key, v));
        }
      }
    }
  }
}

/**
 * The guard's block reader as the source runs it: a cursor over an array of lines, moved by mutually
 * recursive readers, one of which overwrites a line for as long as its item is being read.
 */
module BlockReader {
  import opened JsString
  import opened AcceptGuard
  import opened FlowModel
  import opened FlowReader
  import opened BlockModel

  class BlockReader {
    const lines: array<string>
    var i: nat

    constructor (text: array<string>)
      ensures lines == text && i == 0
    {
      lines := text;
      i := 0;
    }

    ghost predicate Valid()
      reads this
    {
      i <= lines.Length
    }

    /** The reader agrees with the function: same value and position, or both refuse. */
    ghost predicate Follows<T>(r: Read<T>, v: Option<T>)
      reads this
    {
      match r
      case Fail => v.None?
      case Got(value, next) => v == Some(value) && i == next
    }

    /** `peek`: move to the next significant line. */
    method Peek() returns (r: Peeked)
      requires Valid()
      modifies this
      ensures Valid() && old(i) <= i
      ensures r == BlockModel.Peek(lines[..], old(i))
      ensures match r
        case Line(at) => i == at < lines.Length
        case End => i == lines.Length
        case Bad => true
    {
      hide IsIgnorable, HasControl, Trim;
      ghost var was := lines[..];
      while i < lines.Length
        invariant Valid() && old(i) <= i
        invariant BlockModel.Peek(was, i) == BlockModel.Peek(was, old(i))
      {
        var line := lines[i];
        if HasControl(line) {
          return Bad;
        }
        if IsIgnorable(line) {
          i := i + 1;
          continue;
        }
        if Trim(line) == "..." {
          return Bad;
        }
        return Line(i);
      }
      return End;
    }

    /** `gatherContinuation`. */
    method Gather(first: string, owner: nat, sep: string) returns (text: Option<string>)
      requires Valid()
      modifies this
      ensures Valid() && old(i) <= i
      ensures Follows(BlockModel.Gather(lines[..], old(i), first, owner, sep), text)
    {
      hide BlockModel.Peek, IndentOf, SeqItem, ParseKeyLine, Trim;
      ghost var was := lines[..];
      var acc := first;
      while true
        invariant Valid() && old(i) <= i
        invariant BlockModel.Gather(was, i, acc, owner, sep) == BlockModel.Gather(was, old(i), first, owner, sep)
        decreases lines.Length - i
      {
        var p := Peek();
        match p
        case Bad => return None;
        case End => return Some(acc);
        case Line(at) =>
          var line := lines[at];
          assert line == was[at];
          var ind := IndentOf(line);
          if ind.None? {
            return None;
          }
          if ind.value <= owner {
            return Some(acc);
          }
          var body := line[ind.value..];
          if SeqItem(body).Some? {
            return Some(acc);
          }
          var kv := ParseKeyLine(body);
          if kv.BadKey? {
            return None;
          }
          if kv.Key? {
            return Some(acc);
          }
          acc := acc + sep + Trim(body);
          i := at + 1;
      }
    }

    /** `finishScalar`. */
    method FinishScalar(first: string, owner: nat) returns (v: Option<Value>)
      requires Valid()
      modifies this
      ensures Valid() && old(i) <= i
      ensures Follows(BlockModel.FinishScalar(lines[..], old(i), first, owner), v)
    {
      hide BlockModel.Gather, ScalarToken;
      var text := Gather(first, owner, " ");
      v := if text.None? then None else ScalarToken(text.value);
    }

    /** `readBlockScalar`, its lines not yet joined. */
    method ReadBlock(owner: nat) returns (parts: Option<seq<string>>)
      requires Valid()
      modifies this
      ensures Valid() && old(i) <= i
      ensures Follows(BlockModel.ReadBlock(lines[..], old(i), owner, None, []), parts)
    {
      hide HasControl, IndentOf, Trim;
      ghost var was := lines[..];
      var content: Option<nat>, out := None, [];
      while i < lines.Length
        invariant Valid() && old(i) <= i
        invariant BlockModel.ReadBlock(was, i, owner, content, out)
               == BlockModel.ReadBlock(was, old(i), owner, None, [])
        decreases lines.Length - i
      {
        var line := lines[i];
        assert line == was[i];
        if HasControl(line) {
          return None;
        }
        if Trim(line) == "" {
          var j := i + 1;
          while j < lines.Length && Trim(lines[j]) == ""
            invariant i < j <= lines.Length && NonBlank(was, j) == NonBlank(was, i + 1)
          {
            j := j + 1;
          }
          if j == lines.Length {
            return Some(out);
          }
          var ind := IndentOf(lines[j]);
          if ind.None? {
            return None;
          }
          if ind.value <= owner {
            return Some(out);
          }
          out := out + [""];
          i := i + 1;
          continue;
        }
        var ind := IndentOf(line);
        if ind.None? {
          return None;
        }
        if ind.value <= owner {
          return Some(out);
        }
        if content.None? {
          content := ind;
        }
        out := out + [line[Min(ind.value, content.value)..]];
        i := i + 1;
      }
      return Some(out);
    }

    /** `parseMapping`. */
    method ParseMapping(indent: nat) returns (v: Option<Value>)
      requires Valid()
      modifies this, lines
      ensures lines[..] == old(lines[..])
      ensures Valid() && old(i) <= i
      ensures Follows(BlockModel.ParseMapping(old(lines[..]), old(i), indent, []), v)
      decreases lines.Length - i, 1
    {
      hide BlockModel.Peek, BlockModel.ParseValueAfterKey, IndentOf, SeqItem, ParseKeyLine, PutField;
      ghost var was := lines[..];
      var out: Fields := [];
      while true
        invariant lines[..] == was && Valid() && old(i) <= i
        invariant BlockModel.ParseMapping(was, i, indent, out) == BlockModel.ParseMapping(was, old(i), indent, [])
        decreases lines.Length - i
      {
        var p := Peek();
        match p
        case Bad => return None;
        case End => return Some(Map(out));
        case Line(at) =>
          var line := lines[at];
          assert line == was[at];
          var ind := IndentOf(line);
          if ind.None? {
            return None;
          }
          if ind.value < indent {
            return Some(Map(out));
          }
          if ind.value > indent {
            return None;
          }
          var body := line[ind.value..];
          if SeqItem(body).Some? {
            return None;
          }
          var kv := ParseKeyLine(body);
          if !kv.Key? {
            return None;
          }
          i := at + 1;
          v := ParseValueAfterKey(kv.rest, indent);
          if v.None? {
            return None;
          }
          out := PutField(out, kv.key, v.value);
      }
    }

    /**
     * A `- key: value` item read as a mapping: the dash is overwritten with spaces while the mapping is
     * read, and the line is put back whether the mapping was read or refused.
     */
    method MappingItem(at: nat, ind: nat, content: string) returns (v: Option<Value>)
      requires at < lines.Length && ind < |lines[at]| && IndentOf(content) == Some(0)
      modifies this, lines
      ensures lines[..] == old(lines[..])
      ensures Valid() && at <= i && (v.Some? ==> at < i)
      ensures var col := ItemColumn(old(lines[at]), ind);
        Follows(BlockModel.ParseMapping(old(lines[..])[at := Spaces(col) + content], at, col, []), v)
      decreases lines.Length - at, 2
    {
      hide BlockModel.ParseMapping;
      ghost var was := lines[..];
      var saved := lines[at];
      var col := ItemColumn(saved, ind);
      SpacesIndent(col, content);
      lines[at] := Spaces(col) + content;
      assert lines[..] == was[at := Spaces(col) + content];
      i := at;
      v := ParseMapping(col);
      lines[at] := saved;
      assert lines[..] == was;
    }

    /** `parseSequence`. */
    method ParseSequence(indent: nat) returns (v: Option<Value>)
      requires Valid()
      modifies this, lines
      ensures lines[..] == old(lines[..])
      ensures Valid() && old(i) <= i
      ensures Follows(BlockModel.ParseSequence(old(lines[..]), old(i), indent, []), v)
      decreases lines.Length - i, 3
    {
      hide BlockModel.Peek, BlockModel.ParseBareItem, BlockModel.FinishScalar, BlockModel.ParseMapping;
      hide SeqItem, ParseKeyLine, Trim;
      ghost var was := lines[..];
      var out: seq<Value> := [];
      while true
        invariant lines[..] == was && Valid() && old(i) <= i
        invariant BlockModel.ParseSequence(was, i, indent, out) == BlockModel.ParseSequence(was, old(i), indent, [])
        decreases lines.Length - i
      {
        var p := Peek();
        match p
        case Bad => return None;
        case End => return Some(List(out));
        case Line(at) =>
          var line := lines[at];
          assert line == was[at];
          var ind := IndentOf(line);
          if ind.None? {
            return None;
          }
          if ind.value != indent {
            return Some(List(out));
          }
          var item := SeqItem(line[indent..]);
          if item.None? {
            return Some(List(out));
          }
          var content := Trim(item.value);
          if content == "" {
            i := at + 1;
            v := BareItem(indent);
          } else {
            var kv := ParseKeyLine(content);
            if kv.BadKey? {
              return None;
            }
            if kv.Key? {
              v := MappingItem(at, indent, content);
            } else {
              i := at + 1;
              v := FinishScalar(content, indent);
            }
          }
          if v.None? {
            return None;
          }
          out := out + [v.value];
      }
    }

    /** An item whose dash stands alone. */
    method BareItem(indent: nat) returns (v: Option<Value>)
      requires Valid()
      modifies this, lines
      ensures lines[..] == old(lines[..])
      ensures Valid() && old(i) <= i
      ensures Follows(BlockModel.ParseBareItem(old(lines[..]), old(i), indent), v)
      decreases lines.Length - i, 5
    {
      hide BlockModel.Peek, BlockModel.ParseNested, IndentOf;
      var p := Peek();
      match p
      case Bad => return None;
      case End => return Some(Null);
      case Line(at) =>
        var ind := IndentOf(lines[at]);
        if ind.None? {
          return None;
        }
        if ind.value <= indent {
          return Some(Null);
        }
        v := ParseNested(ind.value, indent);
    }

    /** `parseNestedBlock`. */
    method ParseNested(child: nat, parent: nat) returns (v: Option<Value>)
      requires Valid()
      modifies this, lines
      ensures lines[..] == old(lines[..])
      ensures Valid() && old(i) <= i
      ensures Follows(BlockModel.ParseNested(old(lines[..]), old(i), child, parent), v)
      decreases lines.Length - i, 4
    {
      hide BlockModel.Peek, BlockModel.ParseSequence, BlockModel.ParseMapping, SeqItem;
      var p := Peek();
      match p
      case Bad => return None;
      case End => return Some(Null);
      case Line(at) =>
        var line := lines[at];
        if SeqItem(line[Min(child, |line|)..]).Some? {
          v := ParseSequence(child);
        } else if child <= parent {
          return None;
        } else {
          v := ParseMapping(child);
        }
    }

    /** `parseValueAfterKey`. */
    method ParseValueAfterKey(rest: string, keyIndent: nat) returns (v: Option<Value>)
      requires Valid()
      modifies this, lines
      ensures lines[..] == old(lines[..])
      ensures Valid() && old(i) <= i
      ensures Follows(BlockModel.ParseValueAfterKey(old(lines[..]), old(i), rest, keyIndent), v)
      decreases lines.Length - i, 4
    {
      hide BlockModel.Peek, BlockModel.ParseSequence, BlockModel.ParseMapping, SeqItem, IndentOf, BlockHeader;
      hide BlockModel.ReadBlock, BlockModel.Gather, BlockModel.FinishScalar, ParseFlow, JoinWith, Trim;
      if rest != "" {
        v := SameLineValue(rest, keyIndent);
        return;
      }
      var p := Peek();
      match p
      case Bad => return None;
      case End => return Some(Null);
      case Line(at) =>
        var line := lines[at];
        var ind := IndentOf(line);
        if ind.None? {
          return None;
        }
        if ind.value >= keyIndent && SeqItem(line[ind.value..]).Some? {
          v := ParseSequence(ind.value);
        } else if ind.value > keyIndent {
          v := ParseMapping(ind.value);
        } else {
          return Some(Null);
        }
    }

    /** The value when `key:` has text on its own line. */
    method SameLineValue(rest: string, keyIndent: nat) returns (v: Option<Value>)
      requires Valid() && rest != ""
      modifies this
      ensures Valid() && old(i) <= i
      ensures Follows(BlockModel.ParseValueAfterKey(lines[..], old(i), rest, keyIndent), v)
    {
      hide BlockModel.ReadBlock, BlockModel.Gather, BlockModel.FinishScalar, ParseFlow, JoinWith, Trim, BlockHeader;
      if BlockHeader(rest) {
        var parts := ReadBlock(keyIndent);
        v := if parts.None? then None
             else Some(Str(Trim(JoinWith(parts.value, if rest[0] == '>' then " " else "\n"))));
      } else if rest[0] in {'[', '{'} {
        var text := Gather(rest, keyIndent, "");
        if text.None? {
          return None;
        }
        v := ReadFlow(text.value);
      } else {
        v := FinishScalar(rest, keyIndent);
      }
    }
  }

  /** `parseGuardFrontmatter` on the lines of a recognized block: the lines come back as they were. */
  method ReadFrontmatter(lines: array<string>) returns (v: Option<Value>)
    modifies lines
    ensures lines[..] == old(lines[..])
    ensures v == ParseFrontmatter(lines[..])
  {
    hide BlockModel.Peek, BlockModel.ParseMapping, IndentOf, HasControl, ParseFlow, JoinWith, Trim;
    ghost var was := lines[..];
    var reader := new BlockReader(lines);
    var first := reader.Peek();
    match first
    case Bad => return None;
    case End => return Some(Map([]));
    case Line(at) =>
      var ind := IndentOf(lines[at]);
      if ind.None? {
        return None;
      }
      var body := lines[at][ind.value..];
      if body != "" && body[0] in {'{', '['} {
        v := ReadRoot(lines[at..]);
        return;
      }
      v := reader.ParseMapping(0);
      if v.Some? {
        var rest := reader.Peek();
        if rest != End {
          v := None;
        }
      }
  }

  /** A flow collection at the document root, given its lines. */
  method ReadRoot(rest: seq<string>) returns (v: Option<Value>)
    ensures v == ParseRoot(rest)
  {
    hide HasControl, ParseFlow, JoinWith, Trim;
    for k := 0 to |rest|
      invariant forall j :: 0 <= j < k ==> !(HasControl(rest[j]) || "#" <= Trim(rest[j]))
    {
      if HasControl(rest[k]) || "#" <= Trim(rest[k]) {
        return None;
      }
    }
    v := ReadFlow(JoinWith(rest, "\n"));
    if v.Some? && !v.value.Map? {
      v := if v.value == List([]) then Some(Map([])) else None;
    }
  }
}

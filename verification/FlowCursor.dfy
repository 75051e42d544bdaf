/** The flow reader as the source runs it: a cursor over fixed text, moved by mutually recursive readers. */
module FlowReader {
  import opened JsString
  import opened AcceptGuard
  import opened FlowModel

  class FlowCursor {
    const s: string
    var i: nat

    constructor (text: string)
      ensures s == text && i == 0
    {
      s := text;
      i := 0;
    }

    ghost predicate Valid()
      reads this
    {
      i <= |s|
    }

    method SkipSpaces()
      requires Valid()
      modifies this
      ensures i == SkipSpace(s, old(i)) && Valid()
    {
      while i < |s| && IsSpace(s[i])
        invariant Valid() && SkipSpace(s, i) == SkipSpace(s, old(i))
      {
        i := i + 1;
      }
    }

    /** Advance to a structural character and return the trimmed text passed over. */
    method ReadPlain(stops: set<char>) returns (token: string)
      requires Valid()
      modifies this
      ensures i == ScanTo(s, stops, old(i)) && Valid()
      ensures token == Trim(s[old(i)..i])
    {
      var start := i;
      while i < |s| && s[i] !in stops
        invariant start <= i && Valid() && ScanTo(s, stops, i) == ScanTo(s, stops, start)
      {
        i := i + 1;
      }
      token := Trim(s[start..i]);
    }

    /** `flowReadQuoted`: the raw token, quotes included; None when it never closes. */
    method ReadQuoted() returns (token: Option<string>)
      requires i < |s|
      modifies this
      ensures var end := QuotedEnd(s, s[old(i)], old(i) + 1);
        if end.None? then token.None? else i == end.value && token == Some(s[old(i)..i])
      ensures Valid() && old(i) < i
    {
      var start, q := i, s[i];
      i := i + 1;
      while i < |s|
        invariant start < i && Valid()
        invariant QuotedEnd(s, q, i) == QuotedEnd(s, q, start + 1)
      {
        var ch := s[i];
        if q == '"' && ch == '\\' && i + 1 < |s| {
          i := i + 2;
          continue;
        }
        i := i + 1;
        if ch == q {
          if q == '\'' && i < |s| && s[i] == '\'' {
            i := i + 1;
            continue;
          }
          return Some(s[start..i]);
        }
      }
      return None;
    }

    /** A quoted key or value, unquoted; None refuses. */
    method QuotedText() returns (text: Option<string>)
      requires i < |s|
      modifies this
      ensures match ParseQuoted(s, old(i))
        case Refused => text.None?
        case Ok(t, next) => text == Some(t) && i == next
      ensures Valid() && old(i) < i
    {
      var token := ReadQuoted();
      return if token.None? then None else UnquoteIfQuoted(token.value);
    }

    /** `flowParseValue`; None refuses the whole frontmatter. */
    method Value() returns (v: Option<Value>)
      requires Valid()
      modifies this
      ensures Follows(ParseValue(s, old(i)), v)
      ensures Valid() && old(i) <= i
      decreases |s| - i, 0
    {
      hide InterpretScalar, UnquoteIfQuoted, QuotedEnd, ParseQuoted, ScanTo, Trim;
      SkipSpaces();
      if i == |s| {
        return Some(Null);
      }
      if s[i] == '[' {
        v := Sequence();
      } else if s[i] == '{' {
        v := Mapping();
      } else if s[i] in {'"', '\''} {
        var text := QuotedText();
        v := if text.None? then None else Some(Str(text.value));
      } else {
        var token := ReadPlain(PLAIN_STOPS);
        v := if NeedsDocumentModel(token) then None else Some(InterpretScalar(token));
      }
    }

    /** The reader agrees with the function: same value and position, or both refuse. */
    ghost predicate Follows(r: Parsed<AcceptGuard.Value>, v: Option<AcceptGuard.Value>)
      reads this
    {
      match r
      case Refused => v.None?
      case Ok(value, next) => v == Some(value) && i == next
    }

    /** What follows an item: a comma and more, the closing bracket, or neither. */
    method Separate(close: char) returns (r: Separator)
      requires Valid()
      modifies this
      ensures Valid() && r == AfterItem(s, old(i), close) && old(i) <= i
      ensures match r
        case More(next) => i == next
        case Closed(end) => i == end
        case Malformed => true
    {
      hide IsSpace;
      SkipSpaces();
      if i == |s| {
        return Malformed;
      }
      if s[i] == ',' {
        i := i + 1;
        SkipSpaces();
        if i < |s| && s[i] == close {
          i := i + 1;
          return Closed(i);
        }
        return More(i);
      }
      if s[i] == close {
        i := i + 1;
        return Closed(i);
      }
      return Malformed;
    }

    /** `flowParseSeq`. */
    method Sequence() returns (v: Option<Value>)
      requires i < |s|
      modifies this
      ensures Follows(ParseSeq(s, old(i)), v)
      ensures Valid() && old(i) < i
      decreases |s| - i - 1, 2
    {
      hide ParseValue, IsSpace, AfterItem;
      i := i + 1;
      SkipSpaces();
      if i < |s| && s[i] == ']' {
        i := i + 1;
        return Some(List([]));
      }
      var out: seq<Value> := [];
      var start := i;
      while true
        invariant Valid() && old(i) < i
        invariant ParseItems(s, i, out) == ParseSeq(s, old(i))
        decreases |s| - i
      {
        v := Value();
        if v.None? {
          return None;
        }
        out := out + [v.value];
        var next := Separate(']');
        match next
        case Malformed => return None;
        case Closed(_) => return Some(List(out));
        case More(_) =>
      }
    }

    /** A key as `flowParseMap` reads it. */
    method Key() returns (key: Option<string>)
      requires Valid()
      modifies this
      ensures match ParseKey(s, old(i))
        case Refused => key.None?
        case Ok(k, next) => key == Some(k) && i == next
      ensures Valid() && old(i) <= i
    {
      hide ParseQuoted, ScanTo, Trim;
      if i < |s| && s[i] in {'"', '\''} {
        key := QuotedText();
      } else {
        var token := ReadPlain(KEY_STOPS);
        key := Some(token);
      }
    }

    /** One key and its colon. */
    method KeyAndColon() returns (key: Option<string>)
      requires Valid()
      modifies this
      ensures Valid() && match ParseKey(s, SkipSpace(s, old(i)))
        case Refused => key.None?
        case Ok(k, next) =>
          var colon := SkipSpace(s, next);
          if colon == |s| || s[colon] != ':' then key.None? else key == Some(k) && i == colon + 1
      ensures old(i) <= i && (key.Some? ==> old(i) < i)
    {
      hide ParseKey, IsSpace;
      SkipSpaces();
      key := Key();
      if key.Some? {
        SkipSpaces();
        if i == |s| || s[i] != ':' {
          return None;
        }
        i := i + 1;
      }
    }

    /** `flowParseMap`. */
    method Mapping() returns (v: Option<Value>)
      requires i < |s|
      modifies this
      ensures Follows(ParseMap(s, old(i)), v)
      ensures Valid() && old(i) < i
      decreases |s| - i - 1, 2
    {
      hide ParseValue, ParseKey, IsSpace, PutField, AfterItem;
      i := i + 1;
      SkipSpaces();
      if i < |s| && s[i] == '}' {
        i := i + 1;
        return Some(Map([]));
      }
      var out: Fields := [];
      while true
        invariant Valid() && old(i) < i
        invariant ParseFields(s, i, out) == ParseMap(s, old(i))
        decreases |s| - i
      {
        var key := KeyAndColon();
        if key.None? {
          return None;
        }
        v := Value();
        if v.None? {
          return None;
        }
        out := PutField(out, key.value, v.value);
        var next := Separate('}');
        match next
        case Malformed => return None;
        case Closed(_) => return Some(Map(out));
        case More(_) =>
      }
    }
  }

  /** `parseFlow`. */
  method ReadFlow(text: string) returns (v: Option<Value>)
    ensures v == ParseFlow(text)
  {
    var c := new FlowCursor(text);
    v := c.Value();
    if v.Some? {
      c.SkipSpaces();
      if c.i != |text| {
        v := None;
      }
    }
  }
}

/**
 * The guard's indentation-aware block reader, as functions of the lines and the position of the next one.
 * A refusal stands for the exception that makes the guard fail closed.
 */
module BlockModel {
  import opened JsString
  import opened AcceptGuard
  import opened FlowModel

  /** A value and the index of the first line not consumed, or a refusal. */
  datatype Read<+T> = Got(value: T, next: nat) | Fail

  /** A raw control character, tab and line feed aside. */
  predicate IsControl(c: char) {
    c < '\U{0020}' && c != '\t' && c != '\n'
  }

  predicate HasControl(line: string) {
    exists i :: 0 <= i < |line| && IsControl(line[i])
  }

  /** Columns of leading spaces; None when a tab is among them. */
  function IndentOf(line: string): (r: Option<nat>)
    ensures r.Some? ==> r.value <= |line|
  {
    if line == "" then Some(0)
    else if line[0] == '\t' then None
    else if line[0] == ' ' then
      match IndentOf(line[1..])
      case None => None
      case Some(n) => Some(n + 1)
    else Some(0)
  }

  predicate IsIgnorable(line: string) {
    var t := Trim(line);
    t == "" || t[0] == '#'
  }

  datatype Peeked = Line(at: nat) | End | Bad

  /** The next significant line from `i` on, validating every line passed over. */
  function Peek(lines: seq<string>, i: nat): (r: Peeked)
    requires i <= |lines|
    ensures r.Line? ==> i <= r.at < |lines|
    decreases |lines| - i
  {
    if i == |lines| then End
    else if HasControl(lines[i]) then Bad
    else if IsIgnorable(lines[i]) then Peek(lines, i + 1)
    else if Trim(lines[i]) == "..." then Bad
    else Line(i)
  }

  function SkipBlanks(s: string, i: nat): (k: nat)
    requires i <= |s|
    ensures i <= k <= |s|
    ensures k < |s| ==> s[k] != ' ' && s[k] != '\t'
    ensures i == |s| || (s[i] != ' ' && s[i] != '\t') ==> k == i
    decreases |s| - i
  {
    if i < |s| && (s[i] == ' ' || s[i] == '\t') then SkipBlanks(s, i + 1) else i
  }

  predicate OneLine(s: string) {
    forall i :: 0 <= i < |s| ==> !IsLineTerminator(s[i])
  }

  /** `(?:[ \t]+(.*))?$`: nothing, or blanks and then the captured text. */
  function Captured(s: string): Option<string> {
    if s == "" then Some("")
    else if (s[0] == ' ' || s[0] == '\t') && OneLine(s[SkipBlanks(s, 0)..]) then Some(s[SkipBlanks(s, 0)..])
    else None
  }

  /** `- `, `-` alone, or `- value`; the text after the dash. */
  function SeqItem(body: string): (r: Option<string>)
    ensures r.Some? ==> body != ""
  {
    if body != "" && body[0] == '-' then Captured(body[1..]) else None
  }

  datatype KeyLine = Key(key: string, rest: string) | NotKey | BadKey

  /** `parseKeyLine`: a quoted or plain key with its same-line remainder. */
  function ParseKeyLine(body: string): KeyLine {
    if body != "" && body[0] in {'"', '\''} then
      match ParseQuoted(body, 0)
      case Refused => BadKey
      case Ok(key, end) => if end < |body| && body[end] == ':' then Key(key, Trim(body[end + 1..])) else NotKey
    else if body == "" || IsSpace(body[0]) || body[0] == '#' then NotKey
    else
      var colon := IndexOf(body, ':', 1);
      if colon == |body| then NotKey
      else
        match Captured(body[colon + 1..])
        case None => NotKey
        case Some(rest) => Key(Trim(body[..colon]), Trim(rest))
  }

  function ScalarToken(raw: string): Option<Value> {
    var s := Trim(raw);
    var unquoted := UnquoteIfQuoted(s);
    if unquoted.Some? then Some(Str(unquoted.value))
    else if s != "" && s[0] in {'"', '\''} then None
    else if NeedsDocumentModel(s) then None
    else Some(InterpretScalar(s))
  }

  /** `first` and the continuation lines indented past `owner`, joined by `sep`. */
  function Gather(lines: seq<string>, i: nat, acc: string, owner: nat, sep: string): (r: Read<string>)
    requires i <= |lines|
    ensures r.Got? ==> i <= r.next <= |lines|
    decreases |lines| - i
  {
    match Peek(lines, i)
    case Bad => Fail
    case End => Got(acc, |lines|)
    case Line(at) =>
      match IndentOf(lines[at])
      case None => Fail
      case Some(ind) =>
        if ind <= owner then Got(acc, at)
        else
          var body := lines[at][ind..];
          if SeqItem(body).Some? then Got(acc, at)
          else
            match ParseKeyLine(body)
            case BadKey => Fail
            case Key(_, _) => Got(acc, at)
            case NotKey => Gather(lines, at + 1, acc + sep + Trim(body), owner, sep)
  }

  function FinishScalar(lines: seq<string>, i: nat, first: string, owner: nat): (r: Read<Value>)
    requires i <= |lines|
    ensures r.Got? ==> i <= r.next <= |lines|
  {
    match Gather(lines, i, first, owner, " ")
    case Fail => Fail
    case Got(text, next) =>
      match ScalarToken(text)
      case None => Fail
      case Some(v) => Got(v, next)
  }

  /** `[|>]` with an optional chomping sign and indentation digits, either one first. */
  predicate BlockHeader(rest: string) {
    && rest != "" && rest[0] in {'|', '>'}
    && var flags := TrimEnd(rest[1..]);
       var unsigned := if flags != "" && flags[0] in {'+', '-'} then flags[1..] else flags;
       var unsigned' := if flags != "" && flags[|flags| - 1] in {'+', '-'} then flags[..|flags| - 1] else flags;
       (unsigned == "" || AllDigits(unsigned)) || unsigned' == "" || AllDigits(unsigned')
  }

  /** The first non-blank line at or after `j`. */
  function NonBlank(lines: seq<string>, j: nat): (k: nat)
    requires j <= |lines|
    ensures j <= k <= |lines|
    decreases |lines| - j
  {
    if j < |lines| && Trim(lines[j]) == "" then NonBlank(lines, j + 1) else j
  }

  function Min(a: nat, b: nat): nat {
    if a < b then a else b
  }

  /** The lines of a block scalar; `content` is its indentation once its first line has fixed it. */
  function ReadBlock(lines: seq<string>, i: nat, owner: nat, content: Option<nat>,
                     parts: seq<string>): (r: Read<seq<string>>)
    requires i <= |lines|
    ensures r.Got? ==> i <= r.next <= |lines|
    decreases |lines| - i
  {
    if i == |lines| then Got(parts, i)
    else if HasControl(lines[i]) then Fail
    else if Trim(lines[i]) == "" then
      var j := NonBlank(lines, i + 1);
      if j == |lines| then Got(parts, i)
      else
        match IndentOf(lines[j])
        case None => Fail
        case Some(ind) => if ind <= owner then Got(parts, i) else ReadBlock(lines, i + 1, owner, content, parts + [""])
    else
      match IndentOf(lines[i])
      case None => Fail
      case Some(ind) =>
        if ind <= owner then Got(parts, i)
        else
          var column := if content.Some? then content.value else ind;
          ReadBlock(lines, i + 1, owner, Some(column), parts + [lines[i][Min(ind, column)..]])
  }

  function JoinWith(parts: seq<string>, sep: string): string {
    if parts == [] then ""
    else if |parts| == 1 then parts[0]
    else parts[0] + sep + JoinWith(parts[1..], sep)
  }

  /** The column of the text after the dash at `ind`. */
  function ItemColumn(line: string, ind: nat): nat
    requires ind < |line|
  {
    ind + 1 + SkipBlanks(line[ind + 1..], 0)
  }

  function Spaces(n: nat): string {
    if n == 0 then "" else " " + Spaces(n - 1)
  }

  lemma {:induction false} SpacesIndent(n: nat, text: string)
    ensures IndentOf(Spaces(n) + text)
         == match IndentOf(text) { case None => None case Some(k) => Some(n + k) }
  {
    if n == 0 {
      assert Spaces(0) + text == text;
    } else {
      assert (Spaces(n) + text)[1..] == Spaces(n - 1) + text;
      SpacesIndent(n - 1, text);
    }
  }

  // ── The mutually recursive readers ────────────────────────────────────────

  /** The keys at column `indent` from line `i` on, `out` holding those already read. */
  function ParseMapping(lines: seq<string>, i: nat, indent: nat, out: Fields): (r: Read<Value>)
    requires i <= |lines|
    ensures r.Got? ==> i <= r.next <= |lines|
    ensures r.Got? && i < |lines| && IndentOf(lines[i]).Some? && IndentOf(lines[i]).value >= indent ==> i < r.next
    decreases |lines| - i, 1
  {
    match Peek(lines, i)
    case Bad => Fail
    case End => Got(Map(out), |lines|)
    case Line(at) =>
      match IndentOf(lines[at])
      case None => Fail
      case Some(ind) =>
        if ind < indent then Got(Map(out), at)
        else if ind > indent then Fail
        else
          var body := lines[at][ind..];
          if SeqItem(body).Some? then Fail
          else
            match ParseKeyLine(body)
            case BadKey => Fail
            case NotKey => Fail
            case Key(key, rest) =>
              match ParseValueAfterKey(lines, at + 1, rest, indent)
              case Fail => Fail
              case Got(v, next) => ParseMapping(lines, next, indent, PutField(out, key, v))
  }

  /** The items whose dashes sit at column `indent` from line `i` on. */
  function ParseSequence(lines: seq<string>, i: nat, indent: nat, out: seq<Value>): (r: Read<Value>)
    requires i <= |lines|
    ensures r.Got? ==> i <= r.next <= |lines|
    decreases |lines| - i, 2
  {
    match Peek(lines, i)
    case Bad => Fail
    case End => Got(List(out), |lines|)
    case Line(at) =>
      match IndentOf(lines[at])
      case None => Fail
      case Some(ind) =>
        if ind != indent || SeqItem(lines[at][ind..]).None? then Got(List(out), at)
        else
          var content := Trim(SeqItem(lines[at][ind..]).value);
          if content == "" then
            match ParseBareItem(lines, at + 1, indent)
            case Fail => Fail
            case Got(v, next) => ParseSequence(lines, next, indent, out + [v])
          else
            match ParseKeyLine(content)
            case BadKey => Fail
            case Key(_, _) =>
              var col := ItemColumn(lines[at], ind);
              var rewritten := Spaces(col) + content;
              SpacesIndent(col, content);
              (match ParseMapping(lines[at := rewritten], at, col, [])
               case Fail => Fail
               case Got(v, next) =>
                 assert lines[at := rewritten][at] == rewritten && IndentOf(content) == Some(0);
                 ParseSequence(lines, next, indent, out + [v]))
            case NotKey =>
              match FinishScalar(lines, at + 1, content, indent)
              case Fail => Fail
              case Got(v, next) => ParseSequence(lines, next, indent, out + [v])
  }

  /** An item whose dash stands alone: whatever more-indented block follows, or null. */
  function ParseBareItem(lines: seq<string>, i: nat, indent: nat): (r: Read<Value>)
    requires i <= |lines|
    ensures r.Got? ==> i <= r.next <= |lines|
    decreases |lines| - i, 4
  {
    match Peek(lines, i)
    case Bad => Fail
    case End => Got(Null, |lines|)
    case Line(at) =>
      match IndentOf(lines[at])
      case None => Fail
      case Some(ind) => if ind <= indent then Got(Null, at) else ParseNested(lines, at, ind, indent)
  }

  function ParseNested(lines: seq<string>, i: nat, child: nat, parent: nat): (r: Read<Value>)
    requires i <= |lines|
    ensures r.Got? ==> i <= r.next <= |lines|
    decreases |lines| - i, 3
  {
    match Peek(lines, i)
    case Bad => Fail
    case End => Got(Null, |lines|)
    case Line(at) =>
      if SeqItem(lines[at][Min(child, |lines[at]|)..]).Some? then ParseSequence(lines, at, child, [])
      else if child <= parent then Fail
      else ParseMapping(lines, at, child, [])
  }

  /** The value of `key:` whose same-line remainder was `rest`. */
  function ParseValueAfterKey(lines: seq<string>, i: nat, rest: string, keyIndent: nat): (r: Read<Value>)
    requires i <= |lines|
    ensures r.Got? ==> i <= r.next <= |lines|
    decreases |lines| - i, 3
  {
    if rest != "" then
      if BlockHeader(rest) then
        match ReadBlock(lines, i, keyIndent, None, [])
        case Fail => Fail
        case Got(parts, next) => Got(Str(Trim(JoinWith(parts, if rest[0] == '>' then " " else "\n"))), next)
      else if rest[0] in {'[', '{'} then
        match Gather(lines, i, rest, keyIndent, "")
        case Fail => Fail
        case Got(text, next) =>
          match ParseFlow(text)
          case None => Fail
          case Some(v) => Got(v, next)
      else FinishScalar(lines, i, rest, keyIndent)
    else
      match Peek(lines, i)
      case Bad => Fail
      case End => Got(Null, |lines|)
      case Line(at) =>
        match IndentOf(lines[at])
        case None => Fail
        case Some(ind) =>
          if ind >= keyIndent && SeqItem(lines[at][ind..]).Some? then ParseSequence(lines, at, ind, [])
          else if ind > keyIndent then ParseMapping(lines, at, ind, [])
          else Got(Null, at)
  }

  /** A flow collection at the document root: a mapping is read, an empty list asserts nothing. */
  function ParseRoot(rest: seq<string>): Option<Value> {
    if exists k :: 0 <= k < |rest| && (HasControl(rest[k]) || "#" <= Trim(rest[k])) then None
    else
      match ParseFlow(JoinWith(rest, "\n"))
      case None => None
      case Some(v) => if v == List([]) then Some(Map([])) else if v.Map? then Some(v) else None
  }

  /** `parseGuardFrontmatter` on the lines of a recognized block; None refuses. */
  function ParseFrontmatter(lines: seq<string>): Option<Value> {
    match Peek(lines, 0)
    case Bad => None
    case End => Some(Map([]))
    case Line(first) =>
      match IndentOf(lines[first])
      case None => None
      case Some(ind) =>
        var body := lines[first][ind..];
        if body != "" && body[0] in {'{', '['} then
          ParseRoot(lines[first..])
        else
          match ParseMapping(lines, first, 0, [])
          case Fail => None
          case Got(v, next) => if Peek(lines, next) == End then Some(v) else None
  }
}

/** The guard's reader for scalars and flow collections (`[a, {b: c}]`), as functions of text and position. */
module FlowModel {
  import opened JsString
  import opened AcceptGuard

  /** A value and the position after it, or a refusal of the whole frontmatter. */
  datatype Parsed<+T> = Ok(value: T, next: nat) | Refused

  // ── Scalars ───────────────────────────────────────────────────────────────

  predicate IsDigit(c: char) {
    '0' <= c <= '9'
  }

  predicate AllDigits(s: string) {
    s != "" && forall i :: 0 <= i < |s| ==> IsDigit(s[i])
  }

  function DigitsValue(s: string): nat {
    if s == "" then 0
    else 10 * DigitsValue(s[..|s| - 1]) + if IsDigit(s[|s| - 1]) then (s[|s| - 1] - '0') as int else 0
  }

  function Unsigned(s: string): string {
    if s != "" && s[0] == '-' then s[1..] else s
  }

  function Pow(base: nat, n: nat): nat {
    if n == 0 then 1 else base * Pow(base, n - 1)
  }

  const MAX_SAFE_INTEGER: int := 0x1F_FFFF_FFFF_FFFF

  /** Decimal text of this magnitude or more parses to Infinity. */
  function DoubleLimit(): real {
    (Pow(2, 1024) - Pow(2, 970)) as real
  }

  function SignedInt(s: string): int {
    if s != "" && s[0] == '-' then -(DigitsValue(s[1..]) as int) else DigitsValue(s) as int
  }

  predicate IsDecimal(s: string) {
    var u := Unsigned(s);
    var dot := IndexOf(u, '.', 0);
    dot < |u| && AllDigits(u[..dot]) && AllDigits(u[dot + 1..])
  }

  /** The exact value of decimal text; rounding to a double is not modelled. */
  function DecimalValue(s: string): real
    requires IsDecimal(s)
  {
    var u := Unsigned(s);
    var dot := IndexOf(u, '.', 0);
    var scale := Pow(10, |u| - dot - 1);
    var magnitude := DigitsValue(u[..dot]) as real +
      (if scale == 0 then 0.0 else DigitsValue(u[dot + 1..]) as real / scale as real);
    if s[0] == '-' then -magnitude else magnitude
  }

  function InterpretScalar(s: string): Value {
    if s == "" then Null
    else if s == "~" || s == "null" || s == "Null" || s == "NULL" then Null
    else if s == "true" || s == "True" || s == "TRUE" then Bool(true)
    else if s == "false" || s == "False" || s == "FALSE" then Bool(false)
    else if AllDigits(Unsigned(s)) && -MAX_SAFE_INTEGER <= SignedInt(s) <= MAX_SAFE_INTEGER then
      Num(SignedInt(s) as real)
    else if IsDecimal(s) && -DoubleLimit() < DecimalValue(s) < DoubleLimit() then Num(DecimalValue(s))
    else Str(s)
  }

  /** Characters that open a construct needing a whole YAML document model. */
  predicate NeedsDocumentModel(s: string) {
    s != "" && s[0] in {'&', '*', '!', '?', '%', '@', '`'}
  }

  // ── Quoted tokens ─────────────────────────────────────────────────────────

  /** How many backslashes end `s`. */
  function TrailingBackslashes(s: string): nat {
    if s != "" && s[|s| - 1] == '\\' then 1 + TrailingBackslashes(s[..|s| - 1]) else 0
  }

  function UndoubleQuotes(s: string): string {
    if s == "" then ""
    else if s[0] == '\'' && |s| > 1 && s[1] == '\'' then ['\''] + UndoubleQuotes(s[2..])
    else [s[0]] + UndoubleQuotes(s[1..])
  }

  function UnquoteIfQuoted(s: string): Option<string> {
    if |s| < 2 || s[0] !in {'"', '\''} || s[|s| - 1] != s[0] then None
    else
      var inner := s[1..|s| - 1];
      if s[0] == '"' then if TrailingBackslashes(inner) % 2 == 1 then None else Some(Unescape(inner))
      else Some(UndoubleQuotes(inner))
  }

  /** The position after the quoted token that opened with `q` just before `j`; None when it never closes. */
  function QuotedEnd(s: string, q: char, j: nat): (r: Option<nat>)
    requires j <= |s|
    ensures r.Some? ==> j < r.value <= |s|
    decreases |s| - j
  {
    if j == |s| then None
    else if q == '"' && s[j] == '\\' && j + 1 < |s| then QuotedEnd(s, q, j + 2)
    else if s[j] != q then QuotedEnd(s, q, j + 1)
    else if q == '\'' && j + 1 < |s| && s[j + 1] == '\'' then QuotedEnd(s, q, j + 2)
    else Some(j + 1)
  }

  function ParseQuoted(s: string, i: nat): (r: Parsed<string>)
    requires i < |s|
    ensures r.Ok? ==> i < r.next <= |s|
  {
    match QuotedEnd(s, s[i], i + 1)
    case None => Refused
    case Some(end) =>
      match UnquoteIfQuoted(s[i..end])
      case None => Refused
      case Some(text) => Ok(text, end)
  }

  // ── Collections ───────────────────────────────────────────────────────────

  function SkipSpace(s: string, i: nat): (k: nat)
    requires i <= |s|
    ensures i <= k <= |s|
    ensures k < |s| ==> !IsSpace(s[k])
    ensures i == |s| || !IsSpace(s[i]) ==> k == i
    decreases |s| - i
  {
    if i < |s| && IsSpace(s[i]) then SkipSpace(s, i + 1) else i
  }

  /** The first position at or after `i` holding one of `stops`. */
  function ScanTo(s: string, stops: set<char>, i: nat): (k: nat)
    requires i <= |s|
    ensures i <= k <= |s|
    ensures forall j :: i <= j < k ==> s[j] !in stops
    ensures k < |s| ==> s[k] in stops
    decreases |s| - i
  {
    if i == |s| || s[i] in stops then i else ScanTo(s, stops, i + 1)
  }

  const PLAIN_STOPS := {',', '[', ']', '{', '}'}
  const KEY_STOPS := {':', ',', '[', ']', '{', '}'}

  /** `out[key] = value`: an existing key keeps its place. */
  function PutField(m: Fields, k: string, v: Value): Fields {
    if m == [] then [(k, v)]
    else if m[0].0 == k then [(k, v)] + m[1..]
    else [m[0]] + PutField(m[1..], k, v)
  }

  /** After an item: another one starts at `More`, the collection closed, or neither. */
  datatype Separator = More(next: nat) | Closed(end: nat) | Malformed

  /** A comma may trail before the closing bracket. */
  function AfterItem(s: string, start: nat, close: char): (r: Separator)
    requires start <= |s|
    ensures r.More? ==> start < r.next <= |s|
    ensures r.Closed? ==> start < r.end <= |s|
  {
    var i := SkipSpace(s, start);
    if i == |s| then Malformed
    else if s[i] == ',' then
      var k := SkipSpace(s, i + 1);
      if k < |s| && s[k] == close then Closed(k + 1) else More(k)
    else if s[i] == close then Closed(i + 1)
    else Malformed
  }

  function ParseValue(s: string, start: nat): (r: Parsed<Value>)
    requires start <= |s|
    ensures r.Ok? ==> start <= r.next <= |s|
    decreases |s| - start, 0
  {
    var i := SkipSpace(s, start);
    if i == |s| then Ok(Null, i)
    else if s[i] == '[' then ParseSeq(s, i)
    else if s[i] == '{' then ParseMap(s, i)
    else if s[i] in {'"', '\''} then
      match ParseQuoted(s, i)
      case Ok(text, end) => Ok(Str(text), end)
      case Refused => Refused
    else
      var end := ScanTo(s, PLAIN_STOPS, i);
      var token := Trim(s[i..end]);
      if NeedsDocumentModel(token) then Refused else Ok(InterpretScalar(token), end)
  }

  function ParseSeq(s: string, start: nat): (r: Parsed<Value>)
    requires start < |s|
    ensures r.Ok? ==> start < r.next <= |s|
    decreases |s| - start - 1, 2
  {
    var i := SkipSpace(s, start + 1);
    if i < |s| && s[i] == ']' then Ok(List([]), i + 1) else ParseItems(s, i, [])
  }

  /** The items from `start` on, `out` holding those already read. */
  function ParseItems(s: string, start: nat, out: seq<Value>): (r: Parsed<Value>)
    requires start <= |s|
    ensures r.Ok? ==> start < r.next <= |s|
    decreases |s| - start, 1
  {
    match ParseValue(s, start)
    case Refused => Refused
    case Ok(v, next) =>
      match AfterItem(s, next, ']')
      case Malformed => Refused
      case Closed(end) => Ok(List(out + [v]), end)
      case More(k) => ParseItems(s, k, out + [v])
  }

  function ParseKey(s: string, i: nat): (r: Parsed<string>)
    requires i <= |s|
    ensures r.Ok? ==> i <= r.next <= |s|
  {
    if i < |s| && s[i] in {'"', '\''} then ParseQuoted(s, i)
    else
      var end := ScanTo(s, KEY_STOPS, i);
      Ok(Trim(s[i..end]), end)
  }

  function ParseMap(s: string, start: nat): (r: Parsed<Value>)
    requires start < |s|
    ensures r.Ok? ==> start < r.next <= |s|
    decreases |s| - start - 1, 2
  {
    var i := SkipSpace(s, start + 1);
    if i < |s| && s[i] == '}' then Ok(Map([]), i + 1) else ParseFields(s, i, [])
  }

  /** The fields from `start` on, `out` holding those already read. */
  function ParseFields(s: string, start: nat, out: Fields): (r: Parsed<Value>)
    requires start <= |s|
    ensures r.Ok? ==> start < r.next <= |s|
    decreases |s| - start, 1
  {
    match ParseKey(s, SkipSpace(s, start))
    case Refused => Refused
    case Ok(key, afterKey) =>
      var colon := SkipSpace(s, afterKey);
      if colon == |s| || s[colon] != ':' then Refused
      else
        match ParseValue(s, colon + 1)
        case Refused => Refused
        case Ok(v, next) =>
          match AfterItem(s, next, '}')
          case Malformed => Refused
          case Closed(end) => Ok(Map(PutField(out, key, v)), end)
          case More(k) => ParseFields(s, k, PutField(out, key, v))
  }

  /** `parseFlow`: one value occupying the whole text. */
  function ParseFlow(text: string): Option<Value> {
    match ParseValue(text, 0)
    case Refused => None
    case Ok(v, next) => if SkipSpace(text, next) == |text| then Some(v) else None
  }

  // ── Printing ──────────────────────────────────────────────────────────────

  function EscapeChar(c: char): string {
    if c == '\\' || c == '"' then ['\\', c] else [c]
  }

  function Escape(s: string): string {
    if s == "" then "" else EscapeChar(s[0]) + Escape(s[1..])
  }

  function Quote(s: string): string {
    "\"" + Escape(s) + "\""
  }

  function PrintNat(n: nat): string {
    (if n < 10 then "" else PrintNat(n / 10)) + [('0' as int + n % 10) as char]
  }

  function PrintInt(n: int): string {
    if n < 0 then "-" + PrintNat(-n) else PrintNat(n)
  }

  function Print(v: Value): string {
    match v
    case Str(s) => Quote(s)
    case Num(n) => PrintInt(n.Floor)
    case Bool(b) => if b then "true" else "false"
    case Null => "null"
    case List(items) => "[" + PrintItems(items) + "]"
    case Map(fields) => "{" + PrintFields(fields) + "}"
  }

  function PrintItems(items: seq<Value>): string {
    if items == [] then ""
    else Print(items[0]) + (if |items| == 1 then "" else "," + PrintItems(items[1..]))
  }

  function PrintFields(fields: Fields): string {
    if fields == [] then ""
    else
      var field := fields[0];
      assert field.1 < field;
      Quote(field.0) + ":" + Print(field.1) + (if |fields| == 1 then "" else "," + PrintFields(fields[1..]))
  }

  /** What the printer covers: strings, safe integers, booleans, nulls, lists and objects naming each key once. */
  ghost predicate Printable(v: Value) {
    match v
    case Num(n) => n == n.Floor as real && -MAX_SAFE_INTEGER <= n.Floor <= MAX_SAFE_INTEGER
    case List(items) => forall i :: 0 <= i < |items| ==> Printable(items[i])
    case Map(fields) => DistinctKeys(fields) && forall i :: 0 <= i < |fields| ==> Printable(fields[i].1)
    case _ => true
  }
}

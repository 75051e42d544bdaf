/** Parsing undoes canonical printing, for every printable tree. */
module FlowRoundTrip {
  import opened JsString
  import opened AcceptGuard
  import opened FlowModel

  lemma AtSplit(s: string, k: nat, a: string, b: string)
    ensures At(s, k, a + b) <==> At(s, k, a) && At(s, k + |a|, b)
  {
    if At(s, k, a + b) {
      assert s[k..k + |a|] == s[k..k + |a + b|][..|a|] == a;
      assert s[k + |a|..k + |a| + |b|] == s[k..k + |a + b|][|a|..] == b;
    }
    if At(s, k, a) && At(s, k + |a|, b) {
      assert s[k..k + |a + b|] == s[k..k + |a|] + s[k + |a|..k + |a| + |b|];
    }
  }

  predicate CharAt(s: string, k: nat, c: char) {
    k < |s| && s[k] == c
  }

  lemma AtChar(s: string, k: nat, c: char)
    ensures At(s, k, [c]) <==> CharAt(s, k, c)
  {
  }

  // ── Quoted strings ────────────────────────────────────────────────────────

  lemma {:induction false} EscapeConcat(a: string, b: string)
    ensures Escape(a + b) == Escape(a) + Escape(b)
  {
    if a == "" {
      assert a + b == b;
    } else {
      assert (a + b)[1..] == a[1..] + b;
      EscapeConcat(a[1..], b);
    }
  }

  lemma {:induction false} UnescapeEscape(s: string)
    ensures Unescape(Escape(s)) == s
  {
    if s != "" {
      UnescapeEscape(s[1..]);
      var e := Escape(s);
      assert e == EscapeChar(s[0]) + Escape(s[1..]);
      assert e[|EscapeChar(s[0])|..] == Escape(s[1..]);
      assert s == [s[0]] + s[1..];
    }
  }

  /** Escaping doubles a final run of backslashes, so the closing quote is never taken for an escaped one. */
  lemma {:induction false} EvenTrailingBackslashes(s: string)
    ensures TrailingBackslashes(Escape(s)) == 2 * TrailingBackslashes(s)
  {
    if s != "" {
      var front, last := s[..|s| - 1], s[|s| - 1];
      assert s == front + [last];
      EscapeConcat(front, [last]);
      assert Escape([last]) == EscapeChar(last);
      var e := Escape(s);
      assert e == Escape(front) + EscapeChar(last);
      hide Escape;
      if last == '\\' {
        EvenTrailingBackslashes(front);
        assert e[..|e| - 1] == Escape(front) + ['\\'];
        assert e[..|e| - 1][..|e| - 2] == Escape(front);
      }
    }
  }

  /** An escaped character never ends the scan. */
  lemma QuotedEndStep(s: string, j: nat, c: char)
    requires At(s, j, EscapeChar(c))
    ensures var k := j + |EscapeChar(c)|; k <= |s| && (k < |s| ==> QuotedEnd(s, '"', j) == QuotedEnd(s, '"', k))
  {
  }

  lemma ClosingQuote(s: string, j: nat)
    requires CharAt(s, j, '"')
    ensures QuotedEnd(s, '"', j) == Some(j + 1)
  {
  }

  /** Scanning an escaped string stops just after its closing quote. */
  lemma {:induction false} QuotedEndAt(s: string, j: nat, text: string)
    requires At(s, j, Escape(text) + "\"")
    ensures j <= |s| && QuotedEnd(s, '"', j) == Some(j + |Escape(text)| + 1)
    decreases text
  {
    hide At, EscapeChar, QuotedEnd;
    AtSplit(s, j, Escape(text), "\"");
    AtChar(s, j + |Escape(text)|, '"');
    if text == "" {
      ClosingQuote(s, j);
    } else {
      var head, rest := EscapeChar(text[0]), Escape(text[1..]) + "\"";
      assert Escape(text) + "\"" == head + rest;
      AtSplit(s, j, head, rest);
      QuotedEndStep(s, j, text[0]);
      QuotedEndAt(s, j + |head|, text[1..]);
    }
  }

  lemma UnquoteQuote(text: string)
    ensures UnquoteIfQuoted(Quote(text)) == Some(text)
  {
    var token := Quote(text);
    assert token[1..|token| - 1] == Escape(text);
    EvenTrailingBackslashes(text);
    UnescapeEscape(text);
  }

  lemma QuoteAt(s: string, i: nat, text: string)
    requires At(s, i, Quote(text))
    ensures CharAt(s, i, '"') && ParseQuoted(s, i) == Ok(text, i + |Quote(text)|)
  {
    hide Escape, UnquoteIfQuoted, QuotedEnd;
    assert Quote(text) == "\"" + (Escape(text) + "\"");
    AtSplit(s, i, "\"", Escape(text) + "\"");
    AtChar(s, i, '"');
    QuotedEndAt(s, i + 1, text);
    UnquoteQuote(text);
  }

  // ── Plain scalars ─────────────────────────────────────────────────────────

  /** The text ends here, or a structural character follows. */
  predicate Ends(s: string, k: nat) {
    k == |s| || (k < |s| && s[k] in {',', ']', '}'})
  }

  predicate PlainChar(c: char) {
    IsDigit(c) || c == '-' || 'a' <= c <= 'z'
  }

  lemma ScanToken(s: string, i: nat, token: string)
    requires At(s, i, token) && Ends(s, i + |token|)
    requires forall k :: 0 <= k < |token| ==> PlainChar(token[k])
    ensures ScanTo(s, PLAIN_STOPS, i) == i + |token|
  {
  }

  lemma PlainAt(s: string, i: nat, token: string)
    requires token != "" && At(s, i, token) && Ends(s, i + |token|)
    requires forall k :: 0 <= k < |token| ==> PlainChar(token[k])
    ensures i < |s| && ParseValue(s, i) == Ok(InterpretScalar(token), i + |token|)
  {
    hide InterpretScalar, ScanTo, ParseSeq, ParseMap, ParseQuoted;
    assert s[i] == s[i..i + |token|][0] == token[0];
    assert PlainChar(token[0]) && PlainChar(token[|token| - 1]);
    assert !IsSpace(token[0]) && !IsSpace(token[|token| - 1]);
    ScanToken(s, i, token);
    assert Trim(token) == token;
    hide Trim, IsSpace, SkipSpace;
  }

  lemma DigitChar(d: nat)
    requires d < 10
    ensures var c := ('0' as int + d) as char;
      IsDigit(c) && (c - '0') as int == d
  {
  }

  lemma {:induction false} PrintNatDigits(n: nat)
    ensures AllDigits(PrintNat(n)) && DigitsValue(PrintNat(n)) == n
  {
    var front, last := if n < 10 then "" else PrintNat(n / 10), ('0' as int + n % 10) as char;
    DigitChar(n % 10);
    assert PrintNat(n) == front + [last];
    assert (front + [last])[..|front|] == front;
    if n >= 10 {
      PrintNatDigits(n / 10);
    }
    hide PrintNat;
    assert DigitsValue(front + [last]) == 10 * DigitsValue(front) + n % 10;
  }

  lemma DigitsAreScalar(s: string, negative: bool)
    requires AllDigits(s)
    ensures var t := if negative then "-" + s else s;
      && Unsigned(t) == s && SignedInt(t) == (if negative then -(DigitsValue(s) as int) else DigitsValue(s))
      && t != "" && (forall k :: 0 <= k < |t| ==> PlainChar(t[k])) && (t[0] == '-' || IsDigit(t[0]))
  {
  }

  lemma IntScalar(n: int)
    requires -MAX_SAFE_INTEGER <= n <= MAX_SAFE_INTEGER
    ensures InterpretScalar(PrintInt(n)) == Num(n as real)
    ensures PrintInt(n) != "" && forall k :: 0 <= k < |PrintInt(n)| ==> PlainChar(PrintInt(n)[k])
  {
    hide AllDigits, DigitsValue, PrintNat, IsDecimal, DecimalValue, SignedInt, Unsigned;
    var magnitude := if n < 0 then -n else n;
    PrintNatDigits(magnitude);
    DigitsAreScalar(PrintNat(magnitude), n < 0);
    hide PrintInt, DoubleLimit;
  }

  // ── The round trip ────────────────────────────────────────────────────────

  lemma PrintHead(v: Value)
    requires Printable(v)
    ensures Print(v) != "" && !IsSpace(Print(v)[0]) && Print(v)[0] !in {',', ']', '}', ':'}
  {
    if v.Num? {
      IntScalar(v.n.Floor);
    }
  }

  /** Parsing where a printed value stands gives back the value and stops right after it. */
  lemma {:induction false} ParsePrinted(s: string, i: nat, v: Value)
    requires Printable(v) && At(s, i, Print(v)) && Ends(s, i + |Print(v)|)
    ensures i <= |s| && ParseValue(s, i) == Ok(v, i + |Print(v)|)
    decreases v, 2
  {
    hide ParseValue, At, PrintItems, PrintFields, Quote, Ends;
    match v
    case Str(text) => ParsePrintedStr(s, i, text);
    case Num(_) => ParsePrintedWord(s, i, v);
    case Bool(_) => ParsePrintedWord(s, i, v);
    case Null => ParsePrintedWord(s, i, v);
    case List(items) => ParsePrintedList(s, i, items);
    case Map(fields) => ParsePrintedMap(s, i, fields);
  }

  lemma ParsePrintedStr(s: string, i: nat, text: string)
    requires At(s, i, Quote(text))
    ensures i <= |s| && ParseValue(s, i) == Ok(Str(text), i + |Quote(text)|)
  {
    hide Quote, ParseQuoted, InterpretScalar, Trim, ParseSeq, ParseMap, At, IsSpace;
    QuoteAt(s, i, text);
    NotSpaces();
  }

  lemma ParsePrintedWord(s: string, i: nat, v: Value)
    requires v.Num? || v.Bool? || v.Null?
    requires Printable(v) && At(s, i, Print(v)) && Ends(s, i + |Print(v)|)
    ensures i <= |s| && ParseValue(s, i) == Ok(v, i + |Print(v)|)
  {
    hide ParseValue, At;
    if v.Num? {
      IntScalar(v.n.Floor);
      hide InterpretScalar, PrintInt;
    }
    PlainAt(s, i, Print(v));
  }

  lemma {:induction false} ParsePrintedList(s: string, i: nat, items: seq<Value>)
    requires forall k :: 0 <= k < |items| ==> Printable(items[k])
    requires At(s, i, "[" + PrintItems(items) + "]")
    ensures i <= |s| && ParseValue(s, i) == Ok(List(items), i + |PrintItems(items)| + 2)
    decreases items, 2
  {
    hide Print, ParseItems, ParseMap, ParseQuoted, InterpretScalar, Trim, IsSpace, Printable;
    var body := PrintItems(items);
    Regroup("", "[", body, "]");
    AtSplit(s, i, "[", body + "]");
    AtChar(s, i, '[');
    NotSpaces();
    if items == [] {
      assert body + "]" == "]";
      AtChar(s, i + 1, ']');
    } else {
      ItemsHead(items);
      AtHead(s, i + 1, body, "]");
      hide PrintItems;
      ParsePrintedItems(s, i + 1, items, []);
      assert [] + items == items;
    }
  }

  lemma {:induction false} ParsePrintedMap(s: string, i: nat, fields: Fields)
    requires DistinctKeys(fields) && forall k :: 0 <= k < |fields| ==> Printable(fields[k].1)
    requires At(s, i, "{" + PrintFields(fields) + "}")
    ensures i <= |s| && ParseValue(s, i) == Ok(Map(fields), i + |PrintFields(fields)| + 2)
    decreases fields, 2
  {
    hide Print, ParseValue, ParseFields, At, CharAt, Printable;
    var body := PrintFields(fields);
    Regroup("", "{", body, "}");
    AtSplit(s, i, "{", body + "}");
    AtChar(s, i, '{');
    OpenMap(s, i);
    if fields == [] {
      assert body + "}" == "}";
      AtChar(s, i + 1, '}');
    } else {
      FieldsHead(fields);
      AtHead(s, i + 1, body, "}");
      hide PrintFields, DistinctKeys;
      assert [] + fields == fields;
      ParsePrintedFields(s, i + 1, fields, []);
    }
  }

  lemma OpenMap(s: string, i: nat)
    requires CharAt(s, i, '{')
    ensures CharAt(s, i + 1, '}') ==> ParseValue(s, i) == Ok(Map([]), i + 2)
    ensures CharAt(s, i + 1, '"') ==> ParseValue(s, i) == ParseFields(s, i + 1, [])
  {
  }

  lemma AtHead(s: string, k: nat, a: string, b: string)
    requires a != "" && At(s, k, a + b)
    ensures CharAt(s, k, a[0]) && k < |s| && s[k] == a[0]
  {
  }

  lemma ItemsHead(items: seq<Value>)
    requires items != [] && Printable(items[0])
    ensures PrintItems(items) != "" && !IsSpace(PrintItems(items)[0]) && PrintItems(items)[0] !in {',', ']', '}'}
  {
    PrintHead(items[0]);
  }

  lemma FieldsHead(fields: Fields)
    requires fields != []
    ensures PrintFields(fields) != "" && PrintFields(fields)[0] == '"'
  {
  }

  lemma ItemsStep(s: string, i: nat, out: seq<Value>, v: Value, next: nat)
    requires i <= |s| && ParseValue(s, i) == Ok(v, next) && next < |s|
    ensures s[next] == ']' ==> ParseItems(s, i, out) == Ok(List(out + [v]), next + 1)
    ensures s[next] == ',' && next + 1 < |s| && !IsSpace(s[next + 1]) && s[next + 1] != ']' ==>
      ParseItems(s, i, out) == ParseItems(s, next + 1, out + [v])
  {
    hide ParseValue, IsSpace;
    assert !IsSpace(']') && !IsSpace(',') by { NotSpaces(); }
  }

  lemma NotSpaces()
    ensures !IsSpace(']') && !IsSpace('}') && !IsSpace(',') && !IsSpace(':') && !IsSpace('"') && !IsSpace('[')
    ensures !IsSpace('{')
  {
  }

  lemma FieldsStep(s: string, i: nat, out: Fields, key: string, colon: nat, v: Value, next: nat)
    requires CharAt(s, i, '"') && ParseQuoted(s, i) == Ok(key, colon) && CharAt(s, colon, ':')
    requires ParseValue(s, colon + 1) == Ok(v, next)
    ensures CharAt(s, next, '}') ==> ParseFields(s, i, out) == Ok(Map(PutField(out, key, v)), next + 1)
    ensures CharAt(s, next, ',') && CharAt(s, next + 1, '"') ==>
      ParseFields(s, i, out) == ParseFields(s, next + 1, PutField(out, key, v))
  {
    hide ParseValue, IsSpace, ParseQuoted, PutField;
    NotSpaces();
    assert ParseKey(s, i) == Ok(key, colon);
  }

  lemma {:induction false} ParsePrintedItems(s: string, i: nat, items: seq<Value>, out: seq<Value>)
    requires items != [] && forall k :: 0 <= k < |items| ==> Printable(items[k])
    requires At(s, i, PrintItems(items) + "]")
    ensures i <= |s| && ParseItems(s, i, out) == Ok(List(out + items), i + |PrintItems(items)| + 1)
    decreases items, 1
  {
    hide Print, PrintItems, ParseValue, ParseItems, At, Printable, IsSpace;
    var rest, end := items[1..], i + |Print(items[0])|;
    FirstItem(s, i, items);
    var out' := out + [items[0]];
    assert out' + rest == out + items;
    assert rest == [] ==> out' + rest == out';
    ItemsStep(s, i, out, items[0], end);
    if rest != [] {
      ParsePrintedItems(s, end + 1, rest, out');
    }
  }

  /** What follows the first item: the closing bracket, or a comma and the other items. */
  function ItemTail(items: seq<Value>): string
    requires items != []
  {
    if |items| == 1 then "]" else "," + (PrintItems(items[1..]) + "]")
  }

  lemma ItemsText(items: seq<Value>)
    requires items != []
    ensures PrintItems(items) + "]" == Print(items[0]) + ItemTail(items)
    ensures |PrintItems(items)| + 1 == |Print(items[0])| + |ItemTail(items)|
  {
  }

  lemma ItemTailAt(s: string, end: nat, items: seq<Value>)
    requires items != [] && At(s, end, ItemTail(items))
    requires forall k :: 0 <= k < |items| ==> Printable(items[k])
    ensures var rest := items[1..];
      && end < |s|
      && (rest == [] ==> s[end] == ']')
      && (rest != [] ==>
            && s[end] == ',' && end + 1 < |s| && !IsSpace(s[end + 1]) && s[end + 1] != ']'
            && At(s, end + 1, PrintItems(rest) + "]"))
  {
    hide Print, PrintItems, At;
    var rest := items[1..];
    if rest == [] {
      AtChar(s, end, ']');
    } else {
      AtSplit(s, end, ",", PrintItems(rest) + "]");
      AtChar(s, end, ',');
      ItemsHead(rest);
      AtHead(s, end + 1, PrintItems(rest), "]");
    }
  }

  /** The first printed item, and what follows it. */
  lemma {:induction false} FirstItem(s: string, i: nat, items: seq<Value>)
    requires items != [] && forall k :: 0 <= k < |items| ==> Printable(items[k])
    requires At(s, i, PrintItems(items) + "]")
    ensures var rest, end := items[1..], i + |Print(items[0])|;
      && i <= |s| && ParseValue(s, i) == Ok(items[0], end) && end < |s|
      && (rest == [] ==> s[end] == ']' && |PrintItems(items)| == end - i)
      && (rest != [] ==>
            && s[end] == ',' && end + 1 < |s| && !IsSpace(s[end + 1]) && s[end + 1] != ']'
            && At(s, end + 1, PrintItems(rest) + "]") && |PrintItems(items)| == end - i + 1 + |PrintItems(rest)|)
    decreases items, 0
  {
    hide Print, PrintItems, ParseValue, At, IsSpace, Printable;
    ItemsText(items);
    AtSplit(s, i, Print(items[0]), ItemTail(items));
    ItemTailAt(s, i + |Print(items[0])|, items);
    ParsePrinted(s, i, items[0]);
  }

  /** A key not yet present is appended. */
  lemma {:induction false} PutNew(m: Fields, k: string, v: Value)
    requires forall i :: 0 <= i < |m| ==> m[i].0 != k
    ensures PutField(m, k, v) == m + [(k, v)]
  {
    if m != [] {
      PutNew(m[1..], k, v);
      assert m + [(k, v)] == [m[0]] + (m[1..] + [(k, v)]);
    }
  }

  lemma {:induction false} ParsePrintedFields(s: string, i: nat, fields: Fields, out: Fields)
    requires fields != [] && forall k :: 0 <= k < |fields| ==> Printable(fields[k].1)
    requires DistinctKeys(out + fields)
    requires At(s, i, PrintFields(fields) + "}")
    ensures i <= |s| && ParseFields(s, i, out) == Ok(Map(out + fields), i + |PrintFields(fields)| + 1)
    decreases fields, 1
  {
    hide Print, PrintFields, ParseValue, ParseFields, At, Printable, Quote, ParseQuoted, PutField, DistinctKeys, CharAt;
    var field, rest := fields[0], fields[1..];
    var colon := i + |Quote(field.0)|;
    var end := colon + 1 + |Print(field.1)|;
    FirstField(s, i, fields);
    AppendField(out, fields);
    var out' := out + [field];
    assert out' + rest == out + fields;
    assert rest == [] ==> out' + rest == out';
    FieldsStep(s, i, out, field.0, colon, field.1, end);
    if rest != [] {
      ParsePrintedFields(s, end + 1, rest, out');
    }
  }

  /** The first printed field, and what follows it. */
  lemma {:induction false} FirstField(s: string, i: nat, fields: Fields)
    requires fields != [] && Printable(fields[0].1)
    requires At(s, i, PrintFields(fields) + "}")
    ensures var field, rest := fields[0], fields[1..];
      var colon := i + |Quote(field.0)|;
      var end := colon + 1 + |Print(field.1)|;
      && CharAt(s, i, '"') && ParseQuoted(s, i) == Ok(field.0, colon) && CharAt(s, colon, ':')
      && ParseValue(s, colon + 1) == Ok(field.1, end)
      && (rest == [] ==> CharAt(s, end, '}') && |PrintFields(fields)| == end - i)
      && (rest != [] ==>
            && CharAt(s, end, ',') && CharAt(s, end + 1, '"')
            && At(s, end + 1, PrintFields(rest) + "}") && |PrintFields(fields)| == end - i + 1 + |PrintFields(rest)|)
    decreases fields, 0
  {
    hide Print, PrintFields, ParseValue, Quote, ParseQuoted, At, CharAt, FieldTail, Ends, Printable;
    var field := fields[0];
    assert field.1 < field;
    var key, value := Quote(field.0), Print(field.1);
    FieldText(fields);
    FieldParts(s, i, key, value, FieldTail(fields));
    QuoteAt(s, i, field.0);
    FieldTailAt(s, i + |key| + 1 + |value|, fields);
    ParsePrinted(s, i + |key| + 1, field.1);
  }

  lemma FieldTailAt(s: string, end: nat, fields: Fields)
    requires fields != [] && At(s, end, FieldTail(fields))
    ensures if |fields| == 1 then CharAt(s, end, '}')
            else CharAt(s, end, ',') && CharAt(s, end + 1, '"') && At(s, end + 1, PrintFields(fields[1..]) + "}")
  {
  }

  /** What follows the first printed field. */
  function FieldTail(fields: Fields): string
    requires fields != []
  {
    if |fields| == 1 then "}" else "," + (PrintFields(fields[1..]) + "}")
  }

  lemma FieldText(fields: Fields)
    requires fields != []
    ensures PrintFields(fields) + "}" == Quote(fields[0].0) + (":" + (Print(fields[0].1) + FieldTail(fields)))
    ensures CharAt(FieldTail(fields), 0, ',') || CharAt(FieldTail(fields), 0, '}')
    ensures |fields| == 1 ==> |FieldTail(fields)| == 1
    ensures |fields| > 1 ==> |FieldTail(fields)| == |PrintFields(fields[1..])| + 2
    ensures |PrintFields(fields)| + 1 == |Quote(fields[0].0)| + 1 + |Print(fields[0].1)| + |FieldTail(fields)|
  {
    var q, p, rest := Quote(fields[0].0), Print(fields[0].1), PrintFields(fields[1..]);
    var more := if |fields| == 1 then "" else "," + rest;
    assert PrintFields(fields) == q + ":" + p + more;
    hide Quote, Print, PrintFields;
    Regroup(q, p, more, "}");
    Regroup("", ",", rest, "}");
    assert more + "}" == FieldTail(fields);
  }

  lemma Regroup(q: string, p: string, x: string, e: string)
    ensures (q + ":" + p + x) + e == q + (":" + (p + (x + e)))
    ensures (p + x) + e == p + (x + e)
  {
  }

  lemma FieldParts(s: string, i: nat, key: string, value: string, tail: string)
    requires At(s, i, key + (":" + (value + tail))) && (CharAt(tail, 0, ',') || CharAt(tail, 0, '}'))
    ensures var colon := i + |key|;
      && At(s, i, key) && CharAt(s, colon, ':')
      && At(s, colon + 1, value) && At(s, colon + 1 + |value|, tail) && Ends(s, colon + 1 + |value|)
  {
    var colon := i + |key|;
    AtSplit(s, i, key, ":" + (value + tail));
    AtSplit(s, colon, ":", value + tail);
    AtChar(s, colon, ':');
    AtSplit(s, colon + 1, value, tail);
    assert tail + "" == tail;
    AtHead(s, colon + 1 + |value|, tail, "");
  }

  lemma AppendField(out: Fields, fields: Fields)
    requires fields != [] && DistinctKeys(out + fields)
    ensures PutField(out, fields[0].0, fields[0].1) == out + [fields[0]]
    ensures out + [fields[0]] + fields[1..] == out + fields
  {
    forall k | 0 <= k < |out|
      ensures out[k].0 != fields[0].0
    {
      assert (out + fields)[k] == out[k] && (out + fields)[|out|] == fields[0];
    }
    PutNew(out, fields[0].0, fields[0].1);
  }

  /**
   * For every tree of strings, safe integers, booleans, nulls, lists and distinct-key objects: parsing undoes printing.
   */
  lemma RoundTrip(v: Value)
    requires Printable(v)
    ensures ParseFlow(Print(v)) == Some(v)
  {
    hide Print, ParseValue, IsSpace, Printable;
    var text := Print(v);
    assert At(text, 0, text);
    ParsePrinted(text, 0, v);
  }
}

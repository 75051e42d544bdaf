/**
 * The scalars the editor writes, seen by the guard's reader: a text, a number or a boolean is read back as itself under
 * an exact condition on its characters. The editor escapes double quotes only, and leaves bare what has no special
 * character.
 */
module WrittenScalars {
  import opened JsString
  import opened AcceptGuard
  import opened FlowModel
  import opened BlockModel
  import Edit = FrontmatterEdit
  import Back = FrontmatterReadBack

  // ── Which scalars come back ───────────────────────────────────────────────

  /** The number the guard takes plain text for: digits, or digits around one point, within the range of either. */
  function Numeral(s: string): Option<real> {
    if AllDigits(Unsigned(s)) && -MAX_SAFE_INTEGER <= SignedInt(s) <= MAX_SAFE_INTEGER then Some(SignedInt(s) as real)
    else if IsDecimal(s) && -DoubleLimit() < DecimalValue(s) < DoubleLimit() then Some(DecimalValue(s))
    else None
  }

  /** Plain text the guard takes for null, a boolean or a number. */
  predicate Literal(s: string) {
    s in {"~", "null", "Null", "NULL", "true", "True", "TRUE", "false", "False", "FALSE"} || Numeral(s).Some?
  }

  /** Every backslash stands right before a double quote. */
  predicate BackslashesQuote(s: string) {
    forall i :: 0 <= i < |s| && s[i] == '\\' ==> i + 1 < |s| && s[i + 1] == '"'
  }

  predicate KeptText(s: string) {
    if Edit.NeedsQuoting(s) then BackslashesQuote(s) else s != "" && s[0] != '?' && !Literal(s)
  }

  /** `number` is the number a text shows: a number comes back if its text is a numeral for it. */
  predicate Kept(number: string -> real, v: Edit.Scalar) {
    match v
    case Text(s) => KeptText(s)
    case Flag(_) => true
    case Number(shown) => Numeral(shown) == Some(number(shown))
  }

  /** A colon stands two characters behind the first backslash. */
  predicate ClosesEarly(s: string) {
    s != "" && if s[0] == '\\' then |s| > 2 && s[2] == ':' else ClosesEarly(s[1..])
  }

  /** As an item, where a quoted text seems to close, no colon may follow. */
  predicate KeptItem(number: string -> real, v: Edit.Scalar) {
    Kept(number, v) && !(v.Text? && Edit.NeedsQuoting(v.s) && ClosesEarly(v.s))
  }

  /** The scalar as the guard is shown it. */
  function JudgedScalar(number: string -> real, v: Edit.Scalar): Value {
    match v
    case Text(s) => Str(s)
    case Flag(on) => Bool(on)
    case Number(shown) => Num(number(shown))
  }

  /** A number shows what `String` gives. */
  predicate Proper(v: Edit.Scalar) {
    v.Number? ==> Back.NumberText(v.shown)
  }

  // ── Escapes ───────────────────────────────────────────────────────────────

  predicate EvenEnd(s: string) {
    TrailingBackslashes(s) % 2 == 0
  }

  function EscapedChar(c: char): string {
    if c == '"' then "\\\"" else [c]
  }

  lemma EscapeSplits(s: string)
    requires s != ""
    ensures Edit.EscapeQuotes(s) == EscapedChar(s[0]) + Edit.EscapeQuotes(s[1..])
  {
  }

  lemma UnescapeChar(c: char, rest: string)
    requires c != '\\'
    ensures Unescape(EscapedChar(c) + rest) == [c] + Unescape(rest)
  {
    var e := EscapedChar(c) + rest;
    assert e[|EscapedChar(c)|..] == rest;
  }

  lemma UnescapePair(c: char, rest: string)
    requires !IsLineTerminator(c)
    ensures Unescape(['\\', c] + rest) == [c] + Unescape(rest)
  {
    assert (['\\', c] + rest)[2..] == rest;
  }

  /** A character but the backslash, escaped and unescaped. */
  lemma OtherStep(s: string)
    requires s != "" && s[0] != '\\'
    ensures var e, rest := Edit.EscapeQuotes(s), Edit.EscapeQuotes(s[1..]);
      e == EscapedChar(s[0]) + rest && Unescape(e) == [s[0]] + Unescape(rest)
  {
    EscapeSplits(s);
    hide Edit.EscapeQuotes, Unescape, EscapedChar;
    UnescapeChar(s[0], Edit.EscapeQuotes(s[1..]));
  }

  lemma QuotePair(rest: string)
    ensures Unescape(QUOTE_PAIR + rest) == ['\\', '"'] + Unescape(rest)
  {
    CalmBackslash();
    hide Unescape, IsLineTerminator;
    assert QUOTE_PAIR + rest == ['\\', '\\'] + ("\"" + rest);
    UnescapePair('\\', "\"" + rest);
    UnescapeQuote(rest);
    assert ['\\'] + ("\"" + Unescape(rest)) == ['\\', '"'] + Unescape(rest);
  }

  /** A backslash and a quote, escaped. */
  const QUOTE_PAIR: string := EscapedChar('\\') + EscapedChar('"')

  lemma Regroup(a: string, b: string, c: string)
    ensures a + (b + c) == (a + b) + c
  {
  }

  /** A backslash before a quote stands for itself. */
  lemma QuoteStep(s: string)
    requires |s| > 1 && s[0] == '\\' && s[1] == '"'
    ensures var e, rest := Edit.EscapeQuotes(s), Edit.EscapeQuotes(s[2..]);
      e == QUOTE_PAIR + rest && Unescape(e) == ['\\', '"'] + Unescape(rest)
  {
    hide Edit.EscapeQuotes, Unescape, EscapedChar;
    EscapeSplits(s);
    EscapeSplits(s[1..]);
    assert s[1..][1..] == s[2..];
    Regroup(EscapedChar('\\'), EscapedChar('"'), Edit.EscapeQuotes(s[2..]));
    QuotePair(Edit.EscapeQuotes(s[2..]));
  }

  /** A backslash before any other character is lost. */
  lemma LostStep(s: string)
    requires |s| > 1 && s[0] == '\\' && s[1] != '"' && OneLine(s)
    ensures var e, rest := Edit.EscapeQuotes(s), Edit.EscapeQuotes(s[2..]);
      Unescape(e) == [s[1]] + Unescape(rest)
  {
    EscapeSplits(s);
    EscapeSplits(s[1..]);
    assert s[1..][1..] == s[2..];
    hide Edit.EscapeQuotes, Unescape, IsLineTerminator;
    var rest := Edit.EscapeQuotes(s[2..]);
    assert Edit.EscapeQuotes(s) == ['\\', s[1]] + rest;
    UnescapePair(s[1], rest);
  }

  lemma LastBackslash()
    ensures Edit.EscapeQuotes("\\") == "\\" && Unescape("\\") == "\\" && !EvenEnd("\\")
  {
    assert "\\"[1..] == "" && "\\"[..0] == "";
  }

  lemma CalmBackslash()
    ensures !IsLineTerminator('\\')
  {
  }

  lemma UnescapeQuote(rest: string)
    ensures Unescape("\"" + rest) == "\"" + Unescape(rest)
  {
    assert ("\"" + rest)[1..] == rest;
  }

  lemma {:induction false} NeverLonger(s: string)
    requires OneLine(s)
    ensures |Unescape(Edit.EscapeQuotes(s))| <= |s|
  {
    hide Unescape, Edit.EscapeQuotes;
    if s == "" {
      EmptyEscapes();
    } else if s[0] != '\\' {
      OtherStep(s);
      NeverLonger(s[1..]);
    } else if |s| == 1 {
      assert s == "\\";
      LastBackslash();
    } else {
      NeverLonger(s[2..]);
      if s[1] == '"' {
        QuoteStep(s);
      } else {
        LostStep(s);
      }
    }
  }

  lemma EmptyEscapes()
    ensures Edit.EscapeQuotes("") == "" && Unescape("") == "" && EvenEnd("")
  {
  }

  lemma {:induction false} EndsAlike(a: string, x: string)
    requires a != "" && a[|a| - 1] != '\\'
    ensures EvenEnd(a + x) == EvenEnd(x)
    ensures TrailingBackslashes(a + x) == TrailingBackslashes(x)
  {
    if x == "" {
      assert a + x == a;
    } else if x[|x| - 1] == '\\' {
      assert (a + x)[..|a + x| - 1] == a + x[..|x| - 1];
      EndsAlike(a, x[..|x| - 1]);
    }
  }

  /** Escaping quotes alone is undone exactly when every backslash stands before a quote. */
  lemma {:induction false} UnescapesIff(s: string)
    requires OneLine(s)
    ensures EvenEnd(Edit.EscapeQuotes(s)) && Unescape(Edit.EscapeQuotes(s)) == s <==> BackslashesQuote(s)
  {
    hide Unescape, Edit.EscapeQuotes, EvenEnd;
    if s == "" {
      EmptyEscapes();
    } else if s[0] != '\\' {
      OtherStep(s);
      UnescapesIff(s[1..]);
      EndsAlike(EscapedChar(s[0]), Edit.EscapeQuotes(s[1..]));
      assert s == [s[0]] + s[1..];
      BackslashesIn(s, 1);
    } else if |s| == 1 {
      assert s == "\\";
      LastBackslash();
    } else if s[1] == '"' {
      QuoteStep(s);
      UnescapesIff(s[2..]);
      EndsAlike(QUOTE_PAIR, Edit.EscapeQuotes(s[2..]));
      assert s == ['\\', '"'] + s[2..];
      BackslashesIn(s, 2);
    } else {
      LostStep(s);
      NeverLonger(s[2..]);
    }
  }

  lemma BackslashesIn(s: string, k: nat)
    requires (k == 1 && s != "" && s[0] != '\\') || (k == 2 && "\\\"" <= s)
    ensures BackslashesQuote(s) <==> BackslashesQuote(s[k..])
  {
    if BackslashesQuote(s[k..]) {
      forall i | 0 <= i < |s| && s[i] == '\\'
        ensures i + 1 < |s| && s[i + 1] == '"'
      {
        if i >= k {
          assert s[k..][i - k] == s[i];
        }
      }
    }
  }

  // ── The written text as a scalar ──────────────────────────────────────────

  lemma QuotedToken(inner: string)
    ensures ScalarToken("\"" + inner + "\"") == if EvenEnd(inner) then Some(Str(Unescape(inner))) else None
    ensures var q := "\"" + inner + "\""; q != "" && q[0] == '"' && q[|q| - 1] == '"' && !BlockHeader(q)
  {
    hide TrailingBackslashes, Unescape;
    var q := "\"" + inner + "\"";
    assert q[1..|q| - 1] == inner && Trim(q) == q;
  }

  lemma LiteralIff(s: string)
    requires s != ""
    ensures InterpretScalar(s) == Str(s) <==> !Literal(s)
    ensures forall x :: InterpretScalar(s) == Num(x) <==> Numeral(s) == Some(x)
  {
    hide DecimalValue, DoubleLimit, SignedInt, IsDecimal;
    WordsAreNoNumerals();
  }

  lemma WordsAreNoNumerals()
    ensures forall s :: s in {"~", "null", "Null", "NULL", "true", "True", "TRUE", "false", "False", "FALSE"} ==>
      Numeral(s) == None
  {
    hide DecimalValue, DoubleLimit, SignedInt;
    forall s | s in {"~", "null", "Null", "NULL", "true", "True", "TRUE", "false", "False", "FALSE"}
      ensures Numeral(s) == None
    {
      assert !IsDigit(s[0]) && Unsigned(s) == s;
      NoDecimal(s);
    }
  }

  lemma NoDecimal(s: string)
    requires s != "" && !IsDigit(s[0]) && s[0] != '-' && s[0] != '.'
    ensures !AllDigits(Unsigned(s)) && !IsDecimal(s)
  {
    var dot := IndexOf(s, '.', 0);
    assert Unsigned(s) == s;
    assert dot > 0 ==> s[..dot][0] == s[0];
  }

  lemma PlainChars(s: string)
    requires !Edit.NeedsQuoting(s) && s != ""
    ensures !IsSpace(s[0]) && !IsSpace(s[|s| - 1]) && forall i :: 0 <= i < |s| ==> s[i] !in Edit.SPECIAL
  {
  }

  /** Bare text is trimmed, opens nothing, and is interpreted as it stands. */
  lemma PlainToken(s: string)
    requires s != "" && !IsSpace(s[0]) && !IsSpace(s[|s| - 1]) && forall i :: 0 <= i < |s| ==> s[i] !in Edit.SPECIAL
    ensures Trim(s) == s && !BlockHeader(s) && s[0] !in {'[', '{', '"', '\'', '#'}
    ensures forall i :: 0 <= i < |s| ==> s[i] != ':'
    ensures ScalarToken(s) == if s[0] == '?' then None else Some(InterpretScalar(s))
  {
    hide InterpretScalar, IsSpace;
  }

  lemma NumberChars(shown: string)
    requires Back.NumberText(shown)
    ensures shown != "" && !IsSpace(shown[0]) && !IsSpace(shown[|shown| - 1]) && shown[0] != '?' && OneLine(shown)
    ensures forall i :: 0 <= i < |shown| ==> shown[i] !in Edit.SPECIAL && !IsControl(shown[i])
  {
  }

  lemma FlagToken(on: bool)
    ensures var s := if on then "true" else "false";
      ScalarToken(s) == Some(Bool(on)) && Trim(s) == s && !IsSpace(s[0]) && !IsSpace(s[|s| - 1]) && !BlockHeader(s)
      && s[0] !in {'[', '{', '#'} && OneLine(s)
      && forall i :: 0 <= i < |s| ==> s[i] !in Edit.SPECIAL && !IsControl(s[i])
  {
  }

  lemma TextToken(s: string)
    requires OneLine(s) && s != ""
    ensures var t := Edit.SerializeScalar(Edit.Text(s));
      && (ScalarToken(t) == Some(Str(s)) <==> KeptText(s))
      && t != "" && Trim(t) == t && !IsSpace(t[0]) && !IsSpace(t[|t| - 1])
      && !BlockHeader(t) && t[0] !in {'[', '{', '#'}
  {
    hide BlockHeader, ScalarToken, Literal, Unescape, EvenEnd, BackslashesQuote, InterpretScalar, IsSpace;
    hide Edit.EscapeQuotes, Edit.NeedsQuoting, OneLine;
    if Edit.NeedsQuoting(s) {
      UnescapesIff(s);
      QuotedToken(Edit.EscapeQuotes(s));
      QuoteIsNoSpace();
    } else {
      PlainChars(s);
      PlainToken(s);
      LiteralIff(s);
    }
  }

  lemma NumberToken(shown: string)
    requires Back.NumberText(shown)
    ensures forall x :: ScalarToken(shown) == Some(Num(x)) <==> Numeral(shown) == Some(x)
    ensures var t := shown;
      t != "" && Trim(t) == t && !IsSpace(t[0]) && !IsSpace(t[|t| - 1]) && !BlockHeader(t) && t[0] !in {'[', '{', '#'}
  {
    hide BlockHeader, ScalarToken, Numeral, InterpretScalar, IsSpace, Trim, Back.NumberText;
    NumberChars(shown);
    PlainToken(shown);
    LiteralIff(shown);
  }

  /** Alone, the written text is read as the scalar it stands for exactly when that scalar is kept. */
  lemma TokenIff(number: string -> real, v: Edit.Scalar)
    requires OneLine(Edit.Shown(v)) && Edit.Shown(v) != "" && Proper(v)
    ensures var t := Edit.SerializeScalar(v);
      && (ScalarToken(t) == Some(JudgedScalar(number, v)) <==> Kept(number, v))
      && t != "" && Trim(t) == t && !IsSpace(t[0]) && !IsSpace(t[|t| - 1])
      && !BlockHeader(t) && t[0] !in {'[', '{', '#'}
  {
    match v
    case Text(s) =>
      hide BlockHeader, ScalarToken, KeptText, IsSpace, Trim, OneLine, Edit.EscapeQuotes, Edit.NeedsQuoting;
      TextToken(s);
    case Flag(on) => FlagToken(on);
    case Number(shown) =>
      hide BlockHeader, ScalarToken, Numeral, IsSpace, Trim, OneLine, Back.NumberText;
      NumberToken(shown);
  }

  lemma QuoteIsNoSpace()
    ensures !IsSpace('"')
  {
  }

  // ── The written text as the content of an item ────────────────────────────

  /** How far the quote reaches that the guard sees over the escaped text. */
  function EarlyEnd(t: string): nat {
    if t == "" then 1 else if t[0] == '\\' then 3 else |EscapedChar(t[0])| + EarlyEnd(t[1..])
  }

  lemma {:induction false} QuotedScan(content: string, j: nat, t: string)
    requires 1 <= j <= |content| && content[j..] == Edit.EscapeQuotes(t) + "\"" && BackslashesQuote(t)
    requires EvenEnd(content[1..j])
    ensures var end := j + EarlyEnd(t);
      && QuotedEnd(content, '"', j) == Some(end) && j < end <= |content|
      && content[end - 1] == '"' && EvenEnd(content[1..end - 1])
      && (end < |content| && content[end] == ':' <==> ClosesEarly(t))
    decreases |t|
  {
    hide Edit.EscapeQuotes, EvenEnd, QuotedEnd, BackslashesQuote, EscapedChar;
    if t == "" {
      EmptyEscapes();
      LastQuote(content, j);
    } else if t[0] == '\\' {
      assert t[1] == '"' by { QuoteFollows(t); }
      QuoteStep(t);
      ClosedEarly(content, j, t);
    } else {
      OtherStep(t);
      BackslashesIn(t, 1);
      Regroup(EscapedChar(t[0]), Edit.EscapeQuotes(t[1..]), "\"");
      OtherScanned(content, j, t[0], Edit.EscapeQuotes(t[1..]) + "\"");
      QuotedScan(content, j + |EscapedChar(t[0])|, t[1..]);
    }
  }

  lemma QuoteFollows(t: string)
    requires t != "" && t[0] == '\\' && BackslashesQuote(t)
    ensures |t| > 1 && t[1] == '"'
  {
  }

  lemma LastQuote(content: string, j: nat)
    requires j <= |content| && content[j..] == "\""
    ensures j + 1 == |content| && content[j] == '"' && QuotedEnd(content, '"', j) == Some(j + 1)
  {
    assert content[j] == content[j..][0];
  }

  lemma OtherScanned(content: string, j: nat, c: char, rest: string)
    requires 1 <= j <= |content| && c != '\\' && content[j..] == EscapedChar(c) + rest
    ensures var k := j + |EscapedChar(c)|;
      k <= |content| && content[k..] == rest && EvenEnd(content[1..k])
      && QuotedEnd(content, '"', j) == QuotedEnd(content, '"', k)
  {
    var k := j + |EscapedChar(c)|;
    assert content[k..] == content[j..][|EscapedChar(c)|..];
    assert content[j] == content[j..][0];
    if c == '"' {
      assert content[j + 1] == content[j..][1];
    }
    assert content[1..k] == content[1..k - 1] + [content[k - 1]];
    assert TrailingBackslashes(content[1..k]) == 0;
  }

  lemma ClosedEarly(content: string, j: nat, t: string)
    requires 1 <= j <= |content| && |t| > 1 && t[0] == '\\' && t[1] == '"'
    requires content[j..] == QUOTE_PAIR + Edit.EscapeQuotes(t[2..]) + "\"" && EvenEnd(content[1..j])
    ensures QuotedEnd(content, '"', j) == Some(j + 3) && j + 3 <= |content| && content[j + 2] == '"'
    ensures EvenEnd(content[1..j + 2])
    ensures j + 3 < |content| && content[j + 3] == ':' <==> |t| > 2 && t[2] == ':'
  {
    var rest := Edit.EscapeQuotes(t[2..]) + "\"";
    assert content[j..] == QUOTE_PAIR + rest by { Regroup(QUOTE_PAIR, Edit.EscapeQuotes(t[2..]), "\""); }
    assert |QUOTE_PAIR| == 3 && content[j] == content[j..][0] && content[j + 1] == content[j..][1];
    assert content[j + 2] == content[j..][2];
    assert content[j + 3..] == rest;
    if |t| > 2 {
      EscapeSplits(t[2..]);
      assert content[j + 3] == rest[0];
    } else {
      EmptyEscapes();
    }
    TwoMore(content[1..j]);
    assert content[1..j + 2] == content[1..j] + "\\\\";
  }

  lemma TwoMore(s: string)
    requires EvenEnd(s)
    ensures EvenEnd(s + "\\\\")
  {
    assert (s + "\\\\")[..|s| + 1] == s + "\\" && (s + "\\")[..|s|] == s;
  }

  lemma QuotedIsNoKeyIff(s: string)
    requires OneLine(s) && BackslashesQuote(s)
    ensures ParseKeyLine("\"" + Edit.EscapeQuotes(s) + "\"") == NotKey <==> !ClosesEarly(s)
  {
    hide Unescape, Edit.EscapeQuotes, EvenEnd, QuotedEnd, BackslashesQuote, ClosesEarly;
    var content := "\"" + Edit.EscapeQuotes(s) + "\"";
    assert content[1..] == Edit.EscapeQuotes(s) + "\"" && content[1..1] == "";
    EmptyEscapes();
    QuotedScan(content, 1, s);
    var end := 1 + EarlyEnd(s);
    QuotedTo(content, end);
  }

  lemma QuotedTo(content: string, end: nat)
    requires 1 < end <= |content| && content[0] == '"' && content[end - 1] == '"'
    requires QuotedEnd(content, '"', 1) == Some(end)
    requires EvenEnd(content[1..end - 1])
    ensures ParseQuoted(content, 0).Ok? && ParseQuoted(content, 0).next == end
  {
    hide QuotedEnd, Unescape, TrailingBackslashes;
    var token := content[0..end];
    assert token[1..|token| - 1] == content[1..end - 1];
  }

  /** A kept scalar, as the content of an item, is no key line exactly when its quote does not close before a colon. */
  lemma ItemIsNoKeyIff(number: string -> real, v: Edit.Scalar)
    requires OneLine(Edit.Shown(v)) && Edit.Shown(v) != "" && Proper(v) && Kept(number, v)
    ensures ParseKeyLine(Edit.SerializeScalar(v)) == NotKey <==> KeptItem(number, v)
  {
    hide ClosesEarly, BackslashesQuote, Literal, Numeral, IsSpace, ParseQuoted, InterpretScalar;
    match v
    case Text(s) =>
      if Edit.NeedsQuoting(s) {
        hide ParseKeyLine;
        QuotedIsNoKeyIff(s);
      } else {
        PlainChars(s);
        PlainToken(s);
      }
    case Flag(on) =>
      FlagToken(on);
      PlainToken(if on then "true" else "false");
    case Number(shown) =>
      NumberChars(shown);
      PlainToken(shown);
  }

  // ── The characters written ────────────────────────────────────────────────

  lemma {:induction false} EscapedChars(s: string)
    ensures forall c :: c in Edit.EscapeQuotes(s) ==> c in s || c == '\\' || c == '"'
    ensures forall c :: c in s ==> c in Edit.EscapeQuotes(s)
  {
    hide Edit.EscapeQuotes;
    if s == "" {
      EmptyEscapes();
    } else {
      EscapeSplits(s);
      EscapedChars(s[1..]);
      assert s == [s[0]] + s[1..];
    }
  }

  lemma ShownChars(v: Edit.Scalar)
    ensures forall c :: c in Edit.SerializeScalar(v) ==> c in Edit.Shown(v) || c == '\\' || c == '"'
    ensures forall c :: c in Edit.Shown(v) ==> c in Edit.SerializeScalar(v)
  {
    hide Edit.EscapeQuotes, Edit.NeedsQuoting;
    if v.Text? {
      EscapedChars(v.s);
    }
  }

  lemma OneLineIff(v: Edit.Scalar)
    ensures OneLine(Edit.SerializeScalar(v)) <==> OneLine(Edit.Shown(v))
  {
    hide Edit.SerializeScalar, IsLineTerminator;
    ShownChars(v);
    var s, t := Edit.SerializeScalar(v), Edit.Shown(v);
    assert !IsLineTerminator('\\') && !IsLineTerminator('"') by { CalmQuote(); }
    forall k | 0 <= k < |s| && IsLineTerminator(s[k])
      ensures !OneLine(t)
    {
      assert s[k] in s;
      var i :| 0 <= i < |t| && t[i] == s[k];
    }
    forall k | 0 <= k < |t| && IsLineTerminator(t[k])
      ensures !OneLine(s)
    {
      assert t[k] in t;
      var i :| 0 <= i < |s| && s[i] == t[k];
    }
  }

  lemma CalmQuote()
    ensures !IsLineTerminator('\\') && !IsLineTerminator('"')
  {
  }

  /** No carriage return ends it: a text that ends in white space is quoted. */
  lemma NoCrAtEnd(v: Edit.Scalar)
    requires Proper(v)
    ensures StripCr(Edit.SerializeScalar(v)) == Edit.SerializeScalar(v)
  {
    hide Edit.EscapeQuotes;
    match v
    case Text(s) =>
      var written := Edit.SerializeScalar(v);
      assert Edit.NeedsQuoting(s) ==> written[|written| - 1] == '"';
    case Flag(_) =>
    case Number(shown) => NumberChars(shown);
  }
}

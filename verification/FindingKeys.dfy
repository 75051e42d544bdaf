/** The escaped key of a conformance finding, and its parser. */
module FindingKeys {
  import opened JsString

  datatype Finding = Finding(script: string, check: string, target: string, kind: string)

  // ── One component ─────────────────────────────────────────────────────────

  function Replace(s: string, c: char, replacement: string): string {
    if s == "" then "" else (if s[0] == c then replacement else [s[0]]) + Replace(s[1..], c, replacement)
  }

  /** `encodeComponent`: backslashes doubled, and then pipes escaped. */
  function EncodeComponent(s: string): string {
    if '\\' !in s && '|' !in s then s else Replace(Replace(s, '\\', "\\\\"), '|', "\\|")
  }

  /** The same in one pass. */
  function Escaped(s: string): string {
    if s == "" then "" else (if s[0] == '\\' || s[0] == '|' then ['\\', s[0]] else [s[0]]) + Escaped(s[1..])
  }

  lemma {:induction false} ReplaceAppend(a: string, b: string, c: char, replacement: string)
    ensures Replace(a + b, c, replacement) == Replace(a, c, replacement) + Replace(b, c, replacement)
  {
    if a == "" {
      assert a + b == b;
    } else {
      ReplaceAppend(a[1..], b, c, replacement);
      assert (a + b)[1..] == a[1..] + b;
    }
  }

  lemma {:induction false} TwoPassesAreOne(s: string)
    ensures Replace(Replace(s, '\\', "\\\\"), '|', "\\|") == Escaped(s)
  {
    if s != "" {
      var head := if s[0] == '\\' then "\\\\" else [s[0]];
      TwoPassesAreOne(s[1..]);
      ReplaceAppend(head, Replace(s[1..], '\\', "\\\\"), '|', "\\|");
      assert head[1..] == (if s[0] == '\\' then "\\" else "");
      assert Replace("\\", '|', "\\|") == "\\" + Replace("", '|', "\\|");
    }
  }

  lemma {:induction false} NothingToEscape(s: string)
    requires '\\' !in s && '|' !in s
    ensures Escaped(s) == s
  {
    if s != "" {
      NothingToEscape(s[1..]);
      assert s == [s[0]] + s[1..];
    }
  }

  lemma EncodeIsEscaped(s: string)
    ensures EncodeComponent(s) == Escaped(s)
  {
    if '\\' !in s && '|' !in s {
      NothingToEscape(s);
    } else {
      TwoPassesAreOne(s);
    }
  }

  lemma {:induction false} DecodeEscaped(s: string)
    ensures Unescape(Escaped(s)) == s
  {
    if s != "" {
      DecodeEscaped(s[1..]);
      var e := Escaped(s);
      if s[0] == '\\' || s[0] == '|' {
        assert e[2..] == Escaped(s[1..]);
      } else {
        assert e[1..] == Escaped(s[1..]);
      }
      assert s == [s[0]] + s[1..];
    }
  }

  // ── Whole keys ────────────────────────────────────────────────────────────

  /** `splitEncoded` from `line` on, `cur` being the part so far. */
  function SplitFrom(line: string, cur: string): (r: seq<string>)
    ensures r != []
    decreases |line|
  {
    if line == "" then [cur]
    else if line[0] == '\\' && |line| > 1 then SplitFrom(line[2..], cur + line[..2])
    else if line[0] == '|' then [cur] + SplitFrom(line[1..], "")
    else SplitFrom(line[1..], cur + [line[0]])
  }

  method SplitEncoded(line: string) returns (parts: seq<string>)
    ensures parts == SplitFrom(line, "")
  {
    parts := [];
    var cur := "";
    var i := 0;
    while i < |line|
      invariant i <= |line|
      invariant parts + SplitFrom(line[i..], cur) == SplitFrom(line, "")
    {
      var ch := line[i];
      if ch == '\\' && i + 1 < |line| {
        assert line[i..][..2] == [ch, line[i + 1]] && line[i..][2..] == line[i + 2..];
        cur := cur + [ch, line[i + 1]];
        i := i + 1;
      } else if ch == '|' {
        assert line[i..][1..] == line[i + 1..];
        parts := parts + [cur];
        cur := "";
      } else {
        assert line[i..][1..] == line[i + 1..];
        cur := cur + [ch];
      }
      i := i + 1;
    }
    parts := parts + [cur];
  }

  /** `findingKey`. */
  function FindingKey(f: Finding): string {
    EncodeComponent(f.script) + "|" + EncodeComponent(f.check)
    + "|" + EncodeComponent(f.target) + "|" + EncodeComponent(f.kind)
  }

  function JoinPipes(parts: seq<string>): string {
    if parts == [] then "" else if |parts| == 1 then parts[0] else parts[0] + "|" + JoinPipes(parts[1..])
  }

  function Part(parts: seq<string>, i: nat): string {
    if i < |parts| then parts[i] else ""
  }

  /** `parseKey`; a legacy line's surplus fields go back into `kind`. */
  function ParseKey(line: string): Finding {
    var parts := SplitFrom(line, "");
    var kind := if |parts| > 4 then JoinPipes(parts[3..]) else Part(parts, 3);
    Finding(Unescape(Part(parts, 0)), Unescape(Part(parts, 1)), Unescape(Part(parts, 2)), Unescape(kind))
  }

  lemma SplitPastStart(s: string, rest: string)
    requires rest == "" || rest[0] == '|'
    ensures SplitFrom(Escaped(s) + rest, "")
         == if rest == "" then [Escaped(s)] else [Escaped(s)] + SplitFrom(rest[1..], "")
  {
    SplitPast(s, rest, "");
    hide Escaped, SplitFrom;
    assert "" + Escaped(s) == Escaped(s);
  }

  /** An escaped component is never cut, and a pipe after it ends its part. */
  lemma {:induction false} SplitPast(s: string, rest: string, cur: string)
    requires rest == "" || rest[0] == '|'
    ensures SplitFrom(Escaped(s) + rest, cur)
         == if rest == "" then [cur + Escaped(s)] else [cur + Escaped(s)] + SplitFrom(rest[1..], "")
    decreases |s|
  {
    var line := Escaped(s) + rest;
    if s == "" {
      assert line == rest && cur + Escaped(s) == cur;
    } else {
      var head := if s[0] == '\\' || s[0] == '|' then ['\\', s[0]] else [s[0]];
      assert line == head + (Escaped(s[1..]) + rest);
      assert line[|head|..] == Escaped(s[1..]) + rest && line[..|head|] == head;
      SplitPast(s[1..], rest, cur + head);
      assert cur + head + Escaped(s[1..]) == cur + Escaped(s);
    }
  }

  lemma KeySplits(f: Finding)
    ensures SplitFrom(FindingKey(f), "") == [Escaped(f.script), Escaped(f.check), Escaped(f.target), Escaped(f.kind)]
  {
    hide EncodeComponent, Escaped, SplitFrom;
    EncodeIsEscaped(f.script);
    EncodeIsEscaped(f.check);
    EncodeIsEscaped(f.target);
    EncodeIsEscaped(f.kind);
    var r2 := "|" + Escaped(f.kind);
    var r1 := "|" + (Escaped(f.target) + r2);
    var r0 := "|" + (Escaped(f.check) + r1);
    assert FindingKey(f) == Escaped(f.script) + r0;
    SplitPastStart(f.script, r0);
    assert r0[1..] == Escaped(f.check) + r1;
    SplitPastStart(f.check, r1);
    assert r1[1..] == Escaped(f.target) + r2;
    SplitPastStart(f.target, r2);
    assert r2[1..] == Escaped(f.kind) + "";
    SplitPastStart(f.kind, "");
  }

  /** Parsing undoes building, for any four strings. */
  lemma KeyRoundTrip(f: Finding)
    ensures ParseKey(FindingKey(f)) == f
  {
    KeySplits(f);
    DecodeEscaped(f.script);
    DecodeEscaped(f.check);
    DecodeEscaped(f.target);
    DecodeEscaped(f.kind);
    hide Escaped, Unescape, SplitFrom, FindingKey;
  }

  /** Different findings have different keys. */
  lemma KeysAreDistinct(f: Finding, g: Finding)
    requires FindingKey(f) == FindingKey(g)
    ensures f == g
  {
    hide FindingKey, ParseKey;
    KeyRoundTrip(f);
    KeyRoundTrip(g);
  }
}

/** The accepted-debt baseline: a fenced block in a note, rewritten by every rebaseline and read back by every run. */
module Ratchet {
  import opened JsString
  import opened Lexical
  import opened Splitting
  import opened FindingKeys

  const FENCE := "```ratchet-baseline"
  const CLOSE := "```"

  // ── Reading a baseline ────────────────────────────────────────────────────

  /** The keys of the lines up to the closing fence. */
  function KeysWithin(lines: seq<string>): set<string> {
    if lines == [] || Trim(lines[0]) == CLOSE then {}
    else (if Trim(lines[0]) == "" then {} else {Trim(lines[0])}) + KeysWithin(lines[1..])
  }

  function KeysOfLines(lines: seq<string>): set<string> {
    if lines == [] then {}
    else if Trim(lines[0]) == FENCE then KeysWithin(lines[1..])
    else KeysOfLines(lines[1..])
  }

  function ParseBaseline(note: string): set<string> {
    KeysOfLines(Split(note, '\n'))
  }

  method ReadBaseline(note: string) returns (keys: set<string>)
    ensures keys == ParseBaseline(note)
  {
    hide Trim;
    var lines := Split(note, '\n');
    keys := {};
    var inFence := false;
    for i := 0 to |lines|
      invariant !inFence ==> keys == {} && KeysOfLines(lines[i..]) == KeysOfLines(lines)
      invariant inFence ==> keys + KeysWithin(lines[i..]) == KeysOfLines(lines)
    {
      var line := lines[i];
      assert lines[i..][0] == line && lines[i..][1..] == lines[i + 1..];
      if !inFence {
        if Trim(line) == FENCE {
          inFence := true;
        }
        continue;
      }
      if Trim(line) == CLOSE {
        return;
      }
      var key := Trim(line);
      if key != "" {
        keys := keys + {key};
      }
    }
  }

  // ── Rendering one ─────────────────────────────────────────────────────────

  ghost predicate Ascending(s: seq<string>) {
    forall i, j :: 0 <= i < j < |s| ==> Less(s[i], s[j])
  }

  function Insert(s: seq<string>, key: string): seq<string> {
    if s == [] || Less(key, s[0]) then [key] + s
    else if key == s[0] then s
    else [s[0]] + Insert(s[1..], key)
  }

  /** `[...new Set(keys)].sort()`. */
  function SortedSet(keys: seq<string>): seq<string> {
    if keys == [] then [] else Insert(SortedSet(keys[..|keys| - 1]), keys[|keys| - 1])
  }

  lemma {:induction false} InsertAscends(s: seq<string>, key: string)
    requires Ascending(s)
    ensures Ascending(Insert(s, key)) && forall x :: x in Insert(s, key) <==> x in s || x == key
  {
    hide Less;
    if s == [] {
    } else if Less(key, s[0]) {
      forall j | 0 < j < |s|
        ensures Less(key, s[j])
      {
        LessTransitive(key, s[0], s[j]);
      }
    } else if key != s[0] {
      assert s == [s[0]] + s[1..];
      InsertAscends(s[1..], key);
      LessTotal(key, s[0]);
      var rest := Insert(s[1..], key);
      forall j | 0 <= j < |rest|
        ensures Less(s[0], rest[j])
      {
        assert rest[j] in s[1..] || rest[j] == key;
      }
    }
  }

  lemma {:induction false} SortedSetIs(keys: seq<string>)
    ensures Ascending(SortedSet(keys)) && forall x :: x in SortedSet(keys) <==> x in keys
  {
    hide Less, Ascending, Insert;
    if keys == [] {
      NothingAscends();
    } else {
      var front := keys[..|keys| - 1];
      assert keys == front + [keys[|keys| - 1]];
      SortedSetIs(front);
      InsertAscends(SortedSet(front), keys[|keys| - 1]);
    }
  }

  lemma NothingAscends()
    ensures Ascending([])
  {
  }

  lemma EmptyTogether(s: seq<string>, t: seq<string>)
    requires forall x :: x in s <==> x in t
    ensures s == [] <==> t == []
  {
    if s != [] {
      assert s[0] in t;
    }
    if t != [] {
      assert t[0] in s;
    }
  }

  /** An ascending list is determined by what it holds. */
  lemma {:induction false} AscendingIsUnique(s: seq<string>, t: seq<string>)
    requires Ascending(s) && Ascending(t) && forall x :: x in s <==> x in t
    ensures s == t
  {
    hide Less;
    EmptyTogether(s, t);
    if s != [] {
      SameHead(s, t);
      TailHolds(s);
      TailHolds(t);
      AscendingIsUnique(s[1..], t[1..]);
      assert s == [s[0]] + s[1..] && t == [t[0]] + t[1..];
    }
  }

  lemma TailHolds(s: seq<string>)
    requires Ascending(s) && s != []
    ensures forall x :: x in s[1..] <==> x in s && x != s[0]
  {
    hide Less;
    forall x
      ensures x in s[1..] <==> x in s && x != s[0]
    {
      LessTotal(s[0], s[0]);
      assert s == [s[0]] + s[1..];
    }
  }

  lemma SameHead(s: seq<string>, t: seq<string>)
    requires Ascending(s) && Ascending(t) && s != [] && t != [] && forall x :: x in s <==> x in t
    ensures s[0] == t[0]
  {
    hide Less;
    assert s[0] in t && t[0] in s;
    LessTotal(s[0], t[0]);
  }

  function KeysOf(findings: seq<Finding>): (r: seq<string>)
    ensures |r| == |findings|
    ensures forall i :: 0 <= i < |findings| ==> r[i] == FindingKey(findings[i])
  {
    if findings == [] then [] else [FindingKey(findings[0])] + KeysOf(findings[1..])
  }

  function KeySet(findings: seq<Finding>): set<string> {
    set f | f in findings :: FindingKey(f)
  }

  function Lines(keys: seq<string>): string {
    if keys == [] then "" else Join(keys, '\n')
  }

  function RenderBaseline(findings: seq<Finding>): string {
    Lines(SortedSet(KeysOf(findings)))
  }

  lemma SortedKeysAreKeySet(findings: seq<Finding>)
    ensures forall k :: k in SortedSet(KeysOf(findings)) <==> k in KeySet(findings)
  {
    SortedSetIs(KeysOf(findings));
    hide SortedSet, FindingKey;
    var keys := KeysOf(findings);
    forall k
      ensures k in keys <==> k in KeySet(findings)
    {
      if k in keys {
        var i :| 0 <= i < |keys| && keys[i] == k;
        assert findings[i] in findings;
      }
      if k in KeySet(findings) {
        var f :| f in findings && FindingKey(f) == k;
        var i :| 0 <= i < |findings| && findings[i] == f;
        assert keys[i] == k;
      }
    }
  }

  /** What is rendered depends on which findings there are, not on their order or repetition. */
  lemma RenderIgnoresOrder(a: seq<Finding>, b: seq<Finding>)
    requires KeySet(a) == KeySet(b)
    ensures RenderBaseline(a) == RenderBaseline(b)
  {
    SortedSetIs(KeysOf(a));
    SortedSetIs(KeysOf(b));
    SortedKeysAreKeySet(a);
    SortedKeysAreKeySet(b);
    AscendingIsUnique(SortedSet(KeysOf(a)), SortedSet(KeysOf(b)));
  }

  // ── Writing one ───────────────────────────────────────────────────────────

  /** The first place `needle` stands at or after `from`. */
  function FirstAt(s: string, needle: string, from: nat): (r: Option<nat>)
    requires from <= |s|
    ensures r.Some? ==> from <= r.value && At(s, r.value, needle)
    ensures forall k: nat :: from <= k && k <= |s| && (r.None? || k < r.value) ==> !At(s, k, needle)
    decreases |s| - from
  {
    if At(s, from, needle) then Some(from) else if from == |s| then None else FirstAt(s, needle, from + 1)
  }

  predicate Contains(s: string, needle: string) {
    FirstAt(s, needle, 0).Some?
  }

  function Block(body: string): string {
    FENCE + "\n" + body + "\n" + CLOSE
  }

  /** `writeFence`; None is the refusal of a note with an opening marker and no complete block. */
  function WriteFence(note: string, body: string): Option<string> {
    if !Contains(note, FENCE) then Some(TrimEnd(note) + "\n\n" + Block(body) + "\n")
    else
      match FirstAt(note, FENCE + "\n", 0)
      case None => None
      case Some(p) =>
        match FirstAt(note, "\n" + CLOSE, p + |FENCE| + 1)
        case None => None
        case Some(q) => Some(note[..p] + Block(body) + note[q + 4..])
  }

  /** A note whose only fence stands at its end, after `pre`. */
  function Baselined(pre: string, body: string): string {
    pre + "\n\n" + Block(body) + "\n"
  }

  /** No line of the body but the first begins with the closing fence. */
  predicate ClosesNowhere(body: string) {
    !Contains(body, "\n" + CLOSE)
  }

  lemma AtWithin(s: string, t: string, k: nat, needle: string)
    requires k + |needle| <= |s|
    ensures At(s + t, k, needle) == At(s, k, needle)
  {
  }

  lemma PrefixFree(note: string, pre: string)
    requires pre <= note && !Contains(note, FENCE)
    ensures !Contains(pre, FENCE)
  {
    assert pre + note[|pre|..] == note;
    if Contains(pre, FENCE) {
      AtWithin(pre, note[|pre|..], FirstAt(pre, FENCE, 0).value, FENCE);
    }
  }

  /** The first rebaseline of a note without a fence puts one at its end. */
  lemma FirstWrite(note: string, body: string)
    requires !Contains(note, FENCE)
    ensures WriteFence(note, body) == Some(Baselined(TrimEnd(note), body)) && !Contains(TrimEnd(note), FENCE)
  {
    hide FirstAt;
    PrefixFree(note, TrimEnd(note));
  }

  lemma AtSlice(s: string, k: nat, needle: string, i: nat)
    requires At(s, k, needle) && i < |needle|
    ensures k + i < |s| && s[k + i] == needle[i]
  {
  }

  /** Nothing before the fence reads as one: a match would lie within `pre` or hold a line feed. */
  lemma FenceNotBefore(pre: string, body: string, k: nat)
    requires !Contains(pre, FENCE) && k < |pre| + 2
    ensures !At(Baselined(pre, body), k, FENCE)
  {
    var s := Baselined(pre, body);
    assert s == pre + ("\n\n" + Block(body) + "\n");
    assert s[|pre|] == '\n' && s[|pre| + 1] == '\n';
    if k + |FENCE| <= |pre| {
      AtWithin(pre, "\n\n" + Block(body) + "\n", k, FENCE);
      assert !At(pre, k, FENCE);
    } else if At(s, k, FENCE) {
      AtSlice(s, k, FENCE, if k <= |pre| then |pre| - k else 0);
    }
  }

  lemma FirstAtIs(s: string, needle: string, from: nat, k: nat)
    requires from <= k && At(s, k, needle) && forall j: nat :: from <= j < k ==> !At(s, j, needle)
    ensures from <= |s| && FirstAt(s, needle, from) == Some(k)
  {
  }

  lemma FenceAt(pre: string, body: string)
    ensures var s, p := Baselined(pre, body), |pre| + 2;
      && At(s, p, FENCE) && At(s, p, FENCE + "\n")
      && s[..p] == pre + "\n\n" && s[p + |FENCE| + 1..] == body + "\n" + CLOSE + "\n"
  {
  }

  /** The first closer after the fence is the block's own. */
  lemma CloserAt(body: string, k: nat)
    requires ClosesNowhere(body) && k < |body|
    ensures !At(body + "\n" + CLOSE + "\n", k, "\n" + CLOSE)
  {
    var s := body + "\n" + CLOSE + "\n";
    var n := "\n" + CLOSE;
    assert s == body + (n + "\n") && s[|body|] == '\n';
    if k + 4 <= |body| {
      AtWithin(body, n + "\n", k, n);
    } else if At(s, k, n) {
      AtSlice(s, k, n, |body| - k);
    }
  }

  lemma AtShift(s: string, from: nat, k: nat, needle: string)
    requires from <= |s|
    ensures At(s, from + k, needle) == At(s[from..], k, needle)
  {
  }

  /** Where a later rebaseline cuts: it keeps everything up to the fence, and everything after the first closer. */
  lemma LaterCut(pre: string, body: string, next: string, k: nat)
    requires !Contains(pre, FENCE) && k <= |body|
    requires At(body + "\n" + CLOSE + "\n", k, "\n" + CLOSE)
    requires forall j: nat :: j < k ==> !At(body + "\n" + CLOSE + "\n", j, "\n" + CLOSE)
    ensures WriteFence(Baselined(pre, body), next)
         == Some(pre + "\n\n" + Block(next) + (body + "\n" + CLOSE + "\n")[k + 4..])
  {
    hide At, FirstAt;
    var s, p := Baselined(pre, body), |pre| + 2;
    FenceAt(pre, body);
    forall j: nat | j < p
      ensures !At(s, j, FENCE) && !At(s, j, FENCE + "\n")
    {
      FenceNotBefore(pre, body, j);
      LongerNeedle(s, j, FENCE, "\n");
    }
    FirstAtIs(s, FENCE, 0, p);
    FirstAtIs(s, FENCE + "\n", 0, p);
    var from := p + |FENCE| + 1;
    var tail := body + "\n" + CLOSE + "\n";
    forall j: nat | from <= j < from + k
      ensures !At(s, j, "\n" + CLOSE)
    {
      AtShift(s, from, j - from, "\n" + CLOSE);
    }
    AtShift(s, from, k, "\n" + CLOSE);
    FirstAtIs(s, "\n" + CLOSE, from, from + k);
    assert s[from + k + 4..] == tail[k + 4..];
  }

  /** A later rebaseline replaces the block and nothing else exactly when no later line of the old block closes it. */
  lemma LaterWriteIff(pre: string, body: string, next: string)
    requires !Contains(pre, FENCE)
    ensures WriteFence(Baselined(pre, body), next) == Some(Baselined(pre, next)) <==> ClosesNowhere(body)
  {
    hide At, WriteFence;
    var tail := body + "\n" + CLOSE + "\n";
    if ClosesNowhere(body) {
      forall j: nat | j < |body|
        ensures !At(tail, j, "\n" + CLOSE)
      {
        CloserAt(body, j);
      }
      OwnCloser(body);
      LaterCut(pre, body, next, |body|);
      assert tail[|body| + 4..] == "\n";
    } else {
      var k := FirstAt(body, "\n" + CLOSE, 0).value;
      FitsIn(body, k, "\n" + CLOSE);
      forall j: nat | j <= k
        ensures At(tail, j, "\n" + CLOSE) == At(body, j, "\n" + CLOSE)
      {
        assert tail == body + ("\n" + CLOSE + "\n");
        AtWithin(body, "\n" + CLOSE + "\n", j, "\n" + CLOSE);
      }
      LaterCut(pre, body, next, k);
      assert |tail[k + 4..]| > |"\n"|;
    }
  }

  lemma FitsIn(s: string, k: nat, needle: string)
    requires At(s, k, needle)
    ensures k + |needle| <= |s|
  {
  }

  lemma OwnCloser(body: string)
    ensures At(body + "\n" + CLOSE + "\n", |body|, "\n" + CLOSE)
  {
  }

  lemma LongerNeedle(s: string, k: nat, needle: string, more: string)
    ensures At(s, k, needle + more) ==> At(s, k, needle)
  {
    if At(s, k, needle + more) {
      assert s[k..k + |needle|] == (needle + more)[..|needle|];
    }
  }

  // ── Reading back what was written ─────────────────────────────────────────

  /** A key that reads back from its line: no line feed, no outer white space, not the closing fence. */
  predicate CleanKey(key: string) {
    key != "" && Trim(key) == key && Free(key, '\n') && key != CLOSE
  }

  ghost predicate AllClean(keys: seq<string>) {
    forall i :: 0 <= i < |keys| ==> CleanKey(keys[i])
  }

  lemma {:induction false} SkipToFence(pre: seq<string>, rest: seq<string>)
    requires forall i :: 0 <= i < |pre| ==> Trim(pre[i]) != FENCE
    ensures KeysOfLines(pre + rest) == KeysOfLines(rest)
  {
    hide Trim;
    if pre == [] {
      assert pre + rest == rest;
    } else {
      assert (pre + rest)[1..] == pre[1..] + rest;
      SkipToFence(pre[1..], rest);
    }
  }

  lemma {:induction false} ReadKeys(keys: seq<string>, rest: seq<string>)
    requires AllClean(keys) && rest != [] && Trim(rest[0]) == CLOSE
    ensures KeysWithin(keys + rest) == set k | k in keys
  {
    hide Trim;
    if keys == [] {
      assert keys + rest == rest;
    } else {
      assert CleanKey(keys[0]);
      assert (keys + rest)[1..] == keys[1..] + rest;
      ReadKeys(keys[1..], rest);
      assert keys == [keys[0]] + keys[1..];
    }
  }

  /** A part of a text stands in it. */
  lemma {:induction false} PartStandsIn(s: string, i: nat) returns (k: nat)
    requires i < |Split(s, '\n')|
    ensures At(s, k, Split(s, '\n')[i])
    decreases |s|
  {
    var n := IndexOf(s, '\n', 0);
    if i == 0 {
      k := 0;
    } else {
      var j := PartStandsIn(s[n + 1..], i - 1);
      AtShift(s, n + 1, j, Split(s, '\n')[i]);
      k := n + 1 + j;
    }
  }

  lemma {:induction false} TrimStandsIn(s: string) returns (k: nat)
    ensures At(s, k, Trim(s))
  {
    k := StartOfTrim(s);
    assert At(s, k, TrimStart(s));
    assert s[k..k + |Trim(s)|] == TrimStart(s)[..|Trim(s)|];
  }

  lemma {:induction false} StartOfTrim(s: string) returns (k: nat)
    ensures At(s, k, TrimStart(s)) && k <= |s| && s[k..] == TrimStart(s)
  {
    if s != "" && IsSpace(s[0]) {
      k := StartOfTrim(s[1..]);
      AtShift(s, 1, k, TrimStart(s));
      k := k + 1;
    } else {
      k := 0;
    }
  }

  lemma AtAt(s: string, k: nat, a: string, j: nat, b: string)
    requires At(s, k, a) && At(a, j, b)
    ensures At(s, k + j, b)
  {
    assert forall i :: 0 <= i < |a| ==> s[k + i] == a[i] by {
      assert forall i :: 0 <= i < |a| ==> s[k..k + |a|][i] == a[i];
    }
    assert forall i :: 0 <= i < |b| ==> a[j + i] == b[i] by {
      assert forall i :: 0 <= i < |b| ==> a[j..j + |b|][i] == b[i];
    }
    assert s[k + j..k + j + |b|] == b;
  }

  /** A text without the marker has no line that trims to it. */
  lemma NoFenceLine(pre: string, i: nat)
    requires !Contains(pre, FENCE) && i < |Split(pre, '\n')|
    ensures Trim(Split(pre, '\n')[i]) != FENCE
  {
    hide Trim, Split;
    var part := Split(pre, '\n')[i];
    var k := PartStandsIn(pre, i);
    var j := TrimStandsIn(part);
    AtAt(pre, k, part, j, Trim(part));
  }

  lemma LinesOfBaselined(pre: string, keys: seq<string>)
    requires AllClean(keys)
    ensures Split(Baselined(pre, Lines(keys)), '\n')
         == Split(pre, '\n') + [""] + [FENCE] + (if keys == [] then [""] else keys) + [CLOSE, ""]
  {
    hide Split, Trim;
    var body := Lines(keys);
    var tail := CLOSE + ['\n'] + "";
    SplitAppend(CLOSE, '\n', "");
    SplitWhole(CLOSE, '\n');
    SplitWhole("", '\n');
    SplitWhole(FENCE, '\n');
    SplitAppend(body, '\n', tail);
    SplitAppend(FENCE, '\n', body + ['\n'] + tail);
    SplitAppend("", '\n', FENCE + ['\n'] + (body + ['\n'] + tail));
    SplitAppend(pre, '\n', "" + ['\n'] + (FENCE + ['\n'] + (body + ['\n'] + tail)));
    assert Baselined(pre, body) == pre + ['\n'] + ("" + ['\n'] + (FENCE + ['\n'] + (body + ['\n'] + tail)));
    if keys != [] {
      SplitJoin(keys, '\n');
    }
  }

  lemma FenceTrims()
    ensures Trim(FENCE) == FENCE && Trim(CLOSE) == CLOSE && Trim("") == "" && FENCE != CLOSE
  {
  }

  /** The keys of a baselined note are the keys it was given. */
  lemma BaselineReadsBack(pre: string, keys: seq<string>)
    requires !Contains(pre, FENCE) && AllClean(keys)
    ensures ParseBaseline(Baselined(pre, Lines(keys))) == set k | k in keys
  {
    hide Split, Trim, Baselined, Lines, Contains;
    LinesOfBaselined(pre, keys);
    FenceTrims();
    var front := Split(pre, '\n') + [""];
    var within := (if keys == [] then [""] else keys) + [CLOSE, ""];
    forall i | 0 <= i < |front|
      ensures Trim(front[i]) != FENCE
    {
      if i < |Split(pre, '\n')| {
        NoFenceLine(pre, i);
      }
    }
    var lines := front + ([FENCE] + within);
    assert Split(Baselined(pre, Lines(keys)), '\n') == lines;
    SkipToFence(front, [FENCE] + within);
    assert ([FENCE] + within)[1..] == within;
    if keys == [] {
      assert within == ["", CLOSE, ""] && within[1..] == [CLOSE, ""];
      assert KeysWithin([CLOSE, ""]) == {} && KeysWithin(within) == {};
    } else {
      ReadKeys(keys, [CLOSE, ""]);
    }
  }

  /**
   * A block of keys is closed by none of its lines but its own end when no key after the first begins with the fence.
   */
  lemma {:induction false} BodyClosesNowhereIff(keys: seq<string>)
    requires forall i :: 0 <= i < |keys| ==> Free(keys[i], '\n')
    ensures ClosesNowhere(Lines(keys)) <==> forall i :: 0 < i < |keys| ==> !At(keys[i], 0, CLOSE)
  {
    hide Contains, At;
    if |keys| == 0 {
      OneLineCloses("");
    } else if |keys| == 1 {
      OneLineCloses(keys[0]);
    } else {
      var rest := keys[1..];
      BodyClosesNowhereIff(rest);
      JoinCloses(keys[0], Lines(rest));
      LinesStart(rest);
      assert forall i :: 0 < i < |keys| ==> keys[i] == rest[i - 1];
      assert forall i :: 0 <= i < |rest| ==> rest[i] == keys[i + 1];
    }
  }

  lemma OneLineCloses(line: string)
    requires Free(line, '\n')
    ensures ClosesNowhere(line)
  {
    if Contains(line, "\n" + CLOSE) {
      AtSlice(line, FirstAt(line, "\n" + CLOSE, 0).value, "\n" + CLOSE, 0);
    }
  }

  lemma LinesStart(keys: seq<string>)
    requires keys != [] && Free(keys[0], '\n')
    ensures At(Lines(keys), 0, CLOSE) == At(keys[0], 0, CLOSE)
  {
    if |keys| > 1 {
      var rest := ['\n'] + Join(keys[1..], '\n');
      assert Lines(keys) == keys[0] + rest;
      if |CLOSE| <= |keys[0]| {
        AtWithin(keys[0], rest, 0, CLOSE);
      } else if At(Lines(keys), 0, CLOSE) {
        AtSlice(Lines(keys), 0, CLOSE, |keys[0]|);
      }
    }
  }

  lemma JoinCloses(a: string, b: string)
    requires Free(a, '\n')
    ensures ClosesNowhere(a + ['\n'] + b) <==> ClosesNowhere(b) && !At(b, 0, CLOSE)
  {
    hide At, FirstAt;
    var s, n := a + ['\n'] + b, "\n" + CLOSE;
    assert s[|a| + 1..] == b;
    AtJoint(a, b);
    if At(s, |a|, n) {
      FitsIn(s, |a|, n);
    }
    if Contains(b, n) {
      AtShift(s, |a| + 1, FirstAt(b, n, 0).value, n);
      FitsIn(s, |a| + 1 + FirstAt(b, n, 0).value, n);
    }
    if Contains(s, n) {
      var k := FirstAt(s, n, 0).value;
      FitsIn(s, k, n);
      if k < |a| {
        StartsLine(s, k);
      } else if k > |a| {
        AtShift(s, |a| + 1, k - |a| - 1, n);
      }
    }
  }

  lemma StartsLine(s: string, k: nat)
    requires At(s, k, "\n" + CLOSE)
    ensures k < |s| && s[k] == '\n'
  {
    AtSlice(s, k, "\n" + CLOSE, 0);
  }

  lemma AtJoint(a: string, b: string)
    ensures At(a + ['\n'] + b, |a|, "\n" + CLOSE) <==> At(b, 0, CLOSE)
  {
    var s := a + ['\n'] + b;
    assert s[|a|..] == ['\n'] + b;
    if At(s, |a|, "\n" + CLOSE) {
      assert b[0..3] == s[|a|..|a| + 4][1..];
    }
    if At(b, 0, CLOSE) {
      assert s[|a|..|a| + 4] == ['\n'] + b[0..3];
    }
  }

  // ── Any sequence of rebaselines ───────────────────────────────────────────

  /** A finding whose key reads back from its line: no line feed, no outer white space. */
  predicate CleanFinding(f: Finding) {
    && Free(f.script, '\n') && Free(f.check, '\n') && Free(f.target, '\n') && Free(f.kind, '\n')
    && (f.script != "" ==> !IsSpace(f.script[0]))
    && (f.kind != "" ==> !IsSpace(f.kind[|f.kind| - 1]))
  }

  /** The note after rebaselining to each run in turn; None once a rebaseline refuses. */
  function Rebaseline(note: string, runs: seq<seq<Finding>>): Option<string> {
    if runs == [] then Some(note)
    else
      match Rebaseline(note, runs[..|runs| - 1])
      case None => None
      case Some(before) => WriteFence(before, RenderBaseline(runs[|runs| - 1]))
  }

  lemma {:induction false} EscapedShape(s: string)
    ensures Free(s, '\n') ==> Free(Escaped(s), '\n')
    ensures s == "" <==> Escaped(s) == ""
    ensures s != "" && !IsSpace(s[0]) ==> !IsSpace(Escaped(s)[0])
    ensures s != "" ==> Escaped(s)[|Escaped(s)| - 1] == s[|s| - 1]
  {
    if s != "" {
      EscapedShape(s[1..]);
    }
  }

  lemma TrimmedAlready(s: string)
    requires s != "" && !IsSpace(s[0]) && !IsSpace(s[|s| - 1])
    ensures Trim(s) == s
  {
  }

  lemma FindingKeyIsClean(f: Finding)
    requires CleanFinding(f)
    ensures CleanKey(FindingKey(f))
  {
    hide EncodeComponent, Escaped, Trim;
    EncodeIsEscaped(f.script);
    EncodeIsEscaped(f.check);
    EncodeIsEscaped(f.target);
    EncodeIsEscaped(f.kind);
    EscapedShape(f.script);
    EscapedShape(f.check);
    EscapedShape(f.target);
    EscapedShape(f.kind);
    var key := FindingKey(f);
    assert key[|Escaped(f.script)|] == '|' && forall i :: 0 <= i < |CLOSE| ==> CLOSE[i] != '|';
    assert f.kind == "" ==> key[|key| - 1] == '|';
    assert f.kind != "" ==> key[|key| - 1] == f.kind[|f.kind| - 1];
    assert f.script == "" ==> key[0] == '|';
    assert f.script != "" ==> key[0] == Escaped(f.script)[0];
    TrimmedAlready(key);
  }

  lemma RenderedAreClean(findings: seq<Finding>)
    requires forall f :: f in findings ==> CleanFinding(f)
    ensures AllClean(SortedSet(KeysOf(findings)))
    ensures (set k | k in SortedSet(KeysOf(findings))) == KeySet(findings)
  {
    SortedKeysAreKeySet(findings);
    hide SortedSet, FindingKey, CleanFinding, CleanKey;
    var keys := SortedSet(KeysOf(findings));
    forall i | 0 <= i < |keys|
      ensures CleanKey(keys[i])
    {
      assert keys[i] in KeySet(findings);
      var f :| f in findings && FindingKey(f) == keys[i];
      FindingKeyIsClean(f);
    }
  }

  /** No key of the run but the first in order begins with the closing fence. */
  predicate Replaceable(run: seq<Finding>) {
    var keys := SortedSet(KeysOf(run));
    forall i :: 0 < i < |keys| ==> !At(keys[i], 0, CLOSE)
  }

  /** Every key reads back, and every run that a later one replaces can be replaced. */
  ghost predicate AllCleanRuns(runs: seq<seq<Finding>>) {
    && (forall i :: 0 <= i < |runs| ==> forall f :: f in runs[i] ==> CleanFinding(f))
    && (forall i :: 0 <= i < |runs| - 1 ==> Replaceable(runs[i]))
  }

  lemma {:induction false} RebaselinedShape(note: string, runs: seq<seq<Finding>>)
    requires !Contains(note, FENCE) && runs != [] && AllCleanRuns(runs)
    ensures Rebaseline(note, runs) == Some(Baselined(TrimEnd(note), RenderBaseline(runs[|runs| - 1])))
    ensures !Contains(TrimEnd(note), FENCE)
  {
    hide Contains, WriteFence, Baselined, RenderBaseline, TrimEnd, CleanFinding, Replaceable;
    var last := runs[|runs| - 1];
    if |runs| == 1 {
      assert runs[..0] == [];
      FirstWrite(note, RenderBaseline(last));
    } else {
      var front := runs[..|runs| - 1];
      RebaselinedShape(note, front);
      assert Replaceable(runs[|runs| - 2]);
      ReplaceableIff(front[|front| - 1]);
      LaterWriteIff(TrimEnd(note), RenderBaseline(front[|front| - 1]), RenderBaseline(last));
    }
  }

  /** A run is replaceable exactly when its rendered block is closed by its own end only. */
  lemma ReplaceableIff(run: seq<Finding>)
    requires forall f :: f in run ==> CleanFinding(f)
    ensures Replaceable(run) <==> ClosesNowhere(RenderBaseline(run))
  {
    hide SortedSet, CleanFinding, Trim;
    RenderedAreClean(run);
    var keys := SortedSet(KeysOf(run));
    forall i | 0 <= i < |keys|
      ensures Free(keys[i], '\n')
    {
      assert CleanKey(keys[i]);
    }
    BodyClosesNowhereIff(keys);
  }

  /** After any number of rebaselines of a fence-free note, the note reads as exactly the last run's keys. */
  lemma RebaselineReadsLastRun(note: string, runs: seq<seq<Finding>>)
    requires !Contains(note, FENCE) && runs != [] && AllCleanRuns(runs)
    ensures Rebaseline(note, runs).Some?
    ensures ParseBaseline(Rebaseline(note, runs).value) == KeySet(runs[|runs| - 1])
  {
    hide Contains, Baselined, SortedSet, CleanFinding, ParseBaseline, Replaceable;
    RebaselinedShape(note, runs);
    RenderedAreClean(runs[|runs| - 1]);
    BaselineReadsBack(TrimEnd(note), SortedSet(KeysOf(runs[|runs| - 1])));
  }

  // ── The ratchet ───────────────────────────────────────────────────────────

  datatype RatchetResult = RatchetResult(newKeys: seq<string>, clearedKeys: seq<string>, carried: nat, failed: bool)

  /** What a diff of `live` against `baseline` must say. */
  ghost predicate IsRatchet(r: RatchetResult, live: set<string>, baseline: set<string>) {
    && Ascending(r.newKeys) && (forall k :: k in r.newKeys <==> k in live - baseline)
    && Ascending(r.clearedKeys) && (forall k :: k in r.clearedKeys <==> k in baseline - live)
    && r.carried == |live * baseline|
    && (r.failed <==> !(live <= baseline))
  }

  /** The keys that `other` lacks, and how many it shares. */
  method Sift(keys: set<string>, other: set<string>) returns (missing: seq<string>, shared: nat)
    ensures forall k :: k in missing <==> k in keys - other
    ensures shared == |keys * other|
  {
    missing, shared := [], 0;
    var rest, seen: set<string> := keys, {};
    while rest != {}
      invariant rest + seen == keys && rest !! seen
      invariant forall k :: k in missing <==> k in seen - other
      invariant shared == |seen * other|
      decreases |rest|
    {
      var k :| k in rest;
      if k in other {
        assert (seen + {k}) * other == seen * other + {k};
        shared := shared + 1;
      } else {
        assert (seen + {k}) * other == seen * other;
        missing := missing + [k];
      }
      rest, seen := rest - {k}, seen + {k};
    }
    assert seen == keys;
  }

  method Diff(live: seq<Finding>, baseline: set<string>) returns (r: RatchetResult)
    ensures IsRatchet(r, KeySet(live), baseline)
  {
    hide Less, FindingKey, SortedSet, Ascending;
    var liveKeys := KeySet(live);
    var newKeys, carried := Sift(liveKeys, baseline);
    var clearedKeys, _ := Sift(baseline, liveKeys);
    SortedSetIs(newKeys);
    SortedSetIs(clearedKeys);
    assert newKeys != [] ==> newKeys[0] in liveKeys - baseline;
    if newKeys == [] {
      forall k | k in liveKeys
        ensures k in baseline
      {
        assert k in liveKeys - baseline ==> k in newKeys;
      }
    }
    r := RatchetResult(SortedSet(newKeys), SortedSet(clearedKeys), carried, newKeys != []);
  }

  /** The run just rebaselined to has nothing new and nothing cleared, and passes. */
  lemma RebaselinedRunPasses(note: string, runs: seq<seq<Finding>>, after: string, r: RatchetResult)
    requires !Contains(note, FENCE) && runs != [] && AllCleanRuns(runs)
    requires Rebaseline(note, runs) == Some(after) && IsRatchet(r, KeySet(runs[|runs| - 1]), ParseBaseline(after))
    ensures r.newKeys == [] && r.clearedKeys == [] && !r.failed && r.carried == |KeySet(runs[|runs| - 1])|
  {
    hide Contains, ParseBaseline, Rebaseline, Less, CleanFinding, FindingKey, Replaceable;
    RebaselineReadsLastRun(note, runs);
    var live := KeySet(runs[|runs| - 1]);
    assert live * live == live && live - live == {};
    EmptyTogether(r.newKeys, []);
    EmptyTogether(r.clearedKeys, []);
  }
}

/** JavaScript's `split` on one character and `join`, and the laws between them. */
module Splitting {
  import opened JsString

  function Split(s: string, c: char): (r: seq<string>)
    ensures r != []
    decreases |s|
  {
    var k := IndexOf(s, c, 0);
    if k == |s| then [s] else [s[..k]] + Split(s[k + 1..], c)
  }

  function Join(parts: seq<string>, c: char): string
    requires parts != []
  {
    if |parts| == 1 then parts[0] else parts[0] + [c] + Join(parts[1..], c)
  }

  predicate Free(s: string, c: char) {
    forall i :: 0 <= i < |s| ==> s[i] != c
  }

  function Last<T>(s: seq<T>): T
    requires s != []
  {
    s[|s| - 1]
  }

  lemma {:induction false} SplitIsFree(s: string, c: char)
    ensures forall i :: 0 <= i < |Split(s, c)| ==> Free(Split(s, c)[i], c)
    decreases |s|
  {
    var k := IndexOf(s, c, 0);
    if k < |s| {
      SplitIsFree(s[k + 1..], c);
    }
  }

  lemma {:induction false} JoinSplit(s: string, c: char)
    ensures Join(Split(s, c), c) == s
    decreases |s|
  {
    var k := IndexOf(s, c, 0);
    if k < |s| {
      JoinSplit(s[k + 1..], c);
      assert s == s[..k] + [c] + s[k + 1..];
      assert Split(s, c)[1..] == Split(s[k + 1..], c);
    }
  }

  lemma SplitWhole(s: string, c: char)
    requires Free(s, c)
    ensures Split(s, c) == [s]
  {
  }

  /** Splitting around one separator splits either side. */
  lemma {:induction false} SplitAppend(a: string, c: char, b: string)
    ensures Split(a + [c] + b, c) == Split(a, c) + Split(b, c)
    decreases |a|
  {
    hide Split, IndexOf;
    var k := IndexOf(a, c, 0);
    if k < |a| {
      var rest := a[k + 1..];
      SplitAppend(rest, c, b);
      assert a + [c] + b == a[..k] + [c] + (rest + [c] + b);
      SplitFirst(a[..k], c, rest + [c] + b);
      assert a == a[..k] + [c] + rest;
      SplitFirst(a[..k], c, rest);
      assert [a[..k]] + (Split(rest, c) + Split(b, c)) == [a[..k]] + Split(rest, c) + Split(b, c);
    } else {
      SplitWhole(a, c);
      SplitFirst(a, c, b);
    }
  }

  /** A text in front of a separator, itself free of it, is the first part. */
  lemma SplitFirst(a: string, c: char, b: string)
    requires Free(a, c)
    ensures Split(a + [c] + b, c) == [a] + Split(b, c)
  {
    var s := a + [c] + b;
    assert s[|a|] == c;
    assert IndexOf(s, c, 0) == |a|;
    assert s[..|a|] == a && s[|a| + 1..] == b;
  }

  lemma {:induction false} SplitJoin(parts: seq<string>, c: char)
    requires parts != [] && forall i :: 0 <= i < |parts| ==> Free(parts[i], c)
    ensures Split(Join(parts, c), c) == parts
  {
    if |parts| > 1 {
      SplitJoin(parts[1..], c);
      SplitFirst(parts[0], c, Join(parts[1..], c));
      assert parts == [parts[0]] + parts[1..];
    } else {
      assert parts == [parts[0]];
    }
  }

  /** `last` is what follows the last `c` of `s`. */
  predicate Tail(s: string, c: char, last: string) {
    && |last| <= |s| && s[|s| - |last|..] == last
    && (last == s || s[|s| - |last| - 1] == c)
  }

  lemma TailOfTail(s: string, c: char, k: nat, last: string)
    requires k < |s| && s[k] == c && Tail(s[k + 1..], c, last)
    ensures Tail(s, c, last)
  {
  }

  lemma {:induction false} SplitLast(s: string, c: char)
    ensures Tail(s, c, Last(Split(s, c))) && Free(Last(Split(s, c)), c)
    decreases |s|
  {
    hide Tail;
    var k := IndexOf(s, c, 0);
    if k < |s| {
      SplitLast(s[k + 1..], c);
      TailOfTail(s, c, k, Last(Split(s[k + 1..], c)));
    } else {
      WholeTail(s, c);
    }
  }

  lemma WholeTail(s: string, c: char)
    ensures Tail(s, c, s)
  {
  }
}

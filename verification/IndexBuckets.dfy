/** The building blocks of the index updates: buckets, the frontmatter index, JD ids and sorting. */
module IndexBuckets {
  import opened JsString
  import opened Lexical
  import opened IndexModel

  // ── Buckets ───────────────────────────────────────────────────────────────

  lemma {:induction false} TallyAppend<T>(s: seq<T>, t: seq<T>, x: T)
    ensures Tally(s + t, x) == Tally(s, x) + Tally(t, x)
  {
    if t == [] {
      assert s + t == s;
    } else {
      assert (s + t)[..|s + t| - 1] == s + t[..|t| - 1];
      TallyAppend(s, t[..|t| - 1], x);
    }
  }

  lemma {:induction false} TallyIsMembership<T>(s: seq<T>, x: T)
    ensures x in s <==> Tally(s, x) > 0
    ensures Tally(s, x) <= |s|
  {
    if s != [] {
      assert s == s[..|s| - 1] + [s[|s| - 1]];
      TallyIsMembership(s[..|s| - 1], x);
    }
  }

  lemma {:induction false} RemoveFirstCounts(bucket: seq<Note>, n: Note, x: Note)
    requires forall m :: m in bucket && m.path == n.path ==> m == n
    ensures Tally(RemoveFirst(bucket, n.path), x)
         == if x == n && Tally(bucket, x) > 0 then Tally(bucket, x) - 1 else Tally(bucket, x)
  {
    if bucket != [] {
      var head, rest := [bucket[0]], bucket[1..];
      assert bucket == head + rest;
      TallyAppend(head, rest, x);
      TallyIsMembership(rest, n);
      if bucket[0].path != n.path {
        RemoveFirstCounts(rest, n, x);
        TallyAppend(head, RemoveFirst(rest, n.path), x);
      }
    }
  }

  ghost predicate NoEmptyBucket(m: Buckets) {
    forall k :: k in m ==> m[k] != []
  }

  /** Get-or-create a bucket and push. */
  function Push(m: Buckets, k: string, n: Note): (r: Buckets)
    ensures Bucket(r, k) == Bucket(m, k) + [n]
    ensures forall j :: j != k ==> Bucket(r, j) == Bucket(m, j)
    ensures NoEmptyBucket(m) ==> NoEmptyBucket(r)
  {
    m[k := Bucket(m, k) + [n]]
  }

  /** Splice the note out of one bucket and delete the bucket when that empties it. */
  function Drop(m: Buckets, k: string, n: Note): (r: Buckets)
    ensures Bucket(r, k) == RemoveFirst(Bucket(m, k), n.path)
    ensures forall j :: j != k ==> Bucket(r, j) == Bucket(m, j)
    ensures NoEmptyBucket(m) ==> NoEmptyBucket(r)
  {
    if k !in m then m
    else
      var rest := RemoveFirst(m[k], n.path);
      if rest == [] then m - {k} else m[k := rest]
  }

  /** The bucket counts after a drop, when paths identify the notes of the bucket. */
  lemma DropCounts(m: Buckets, k: string, n: Note)
    requires forall x :: Tally(Bucket(m, k), x) > 0 && x.path == n.path ==> x == n
    ensures forall x ::
      Tally(Bucket(Drop(m, k, n), k), x)
      == if x == n && Tally(Bucket(m, k), x) > 0 then Tally(Bucket(m, k), x) - 1 else Tally(Bucket(m, k), x)
  {
    forall x: Note
      ensures x in Bucket(m, k) <==> Tally(Bucket(m, k), x) > 0
    {
      TallyIsMembership(Bucket(m, k), x);
    }
    forall x {
      RemoveFirstCounts(Bucket(m, k), n, x);
    }
  }

  method PushAliases(lower: string -> string, m: Buckets, n: Note, ghost N: Notes) returns (r: Buckets)
    requires AliasExact(lower, m, N) && n.path !in N
    ensures AliasExact(lower, r, N[n.path := n])
  {
    r := m;
    AliasesUntouched(lower, m, n);
    for i := 0 to |n.aliases|
      invariant NoEmptyBucket(r)
      invariant AliasesPushed(lower, m, r, n, i)
    {
      AliasPushStep(lower, m, r, n, i);
      r := Push(r, lower(n.aliases[i]), n);
    }
    AliasesAllPushed(lower, m, r, n, N);
  }

  lemma AliasesUntouched(lower: string -> string, m: Buckets, n: Note)
    ensures AliasesPushed(lower, m, m, n, 0) && AliasesDropped(lower, m, m, n, 0)
  {
    assert forall k :: Occurrences(lower, n.aliases, 0, k) == 0;
  }

  lemma AliasesAllPushed(lower: string -> string, m: Buckets, r: Buckets, n: Note, N: Notes)
    requires AliasExact(lower, m, N) && n.path !in N
    requires NoEmptyBucket(r) && AliasesPushed(lower, m, r, n, |n.aliases|)
    ensures AliasExact(lower, r, N[n.path := n])
  {
  }

  lemma AliasPushStep(lower: string -> string, m: Buckets, r: Buckets, n: Note, i: nat)
    requires i < |n.aliases| && AliasesPushed(lower, m, r, n, i)
    ensures AliasesPushed(lower, m, Push(r, lower(n.aliases[i]), n), n, i + 1)
  {
  }

  /** The buckets `r` are those of `m` with one entry of `n` added for each of its first `i` aliases. */
  ghost predicate AliasesPushed(lower: string -> string, m: Buckets, r: Buckets, n: Note, i: nat)
    requires i <= |n.aliases|
  {
    forall k, x ::
      Tally(Bucket(r, k), x) == Tally(Bucket(m, k), x) + if x == n then Occurrences(lower, n.aliases, i, k) else 0
  }

  method DropAliases(lower: string -> string, m: Buckets, n: Note, ghost N: Notes) returns (r: Buckets)
    requires WellKeyed(N) && AliasExact(lower, m, N) && Has(N, n)
    ensures AliasExact(lower, r, N - {n.path})
  {
    r := m;
    AliasesUntouched(lower, m, n);
    for i := 0 to |n.aliases|
      invariant NoEmptyBucket(r)
      invariant AliasesDropped(lower, m, r, n, i)
    {
      AliasDropStep(lower, m, r, n, i, N);
      r := Drop(r, lower(n.aliases[i]), n);
    }
    AliasesAllDropped(lower, m, r, n, N);
  }

  lemma AliasesAllDropped(lower: string -> string, m: Buckets, r: Buckets, n: Note, N: Notes)
    requires AliasExact(lower, m, N) && Has(N, n)
    requires NoEmptyBucket(r) && AliasesDropped(lower, m, r, n, |n.aliases|)
    ensures AliasExact(lower, r, N - {n.path})
  {
  }

  lemma AliasDropStep(lower: string -> string, m: Buckets, r: Buckets, n: Note, i: nat, N: Notes)
    requires AliasExact(lower, m, N) && Has(N, n)
    requires i < |n.aliases| && AliasesDropped(lower, m, r, n, i)
    ensures AliasesDropped(lower, m, Drop(r, lower(n.aliases[i]), n), n, i + 1)
  {
    var al := lower(n.aliases[i]);
    forall x | Tally(Bucket(r, al), x) > 0 && x.path == n.path
      ensures x == n
    {
      assert Tally(Bucket(m, al), x) > 0;
    }
    DropCounts(r, al, n);
    OccurrencesMonotone(lower, n.aliases, i + 1, |n.aliases|, al);
    assert Tally(Bucket(m, al), n) == Occurrences(lower, n.aliases, |n.aliases|, al);
    forall k, x
      ensures Tally(Bucket(Drop(r, al, n), k), x)
           == Tally(Bucket(m, k), x) - if x == n then Occurrences(lower, n.aliases, i + 1, k) else 0
    {
      assert Tally(Bucket(r, k), x)
          == Tally(Bucket(m, k), x) - if x == n then Occurrences(lower, n.aliases, i, k) else 0;
    }
  }

  /** The buckets `r` are those of `m` without one entry of `n` for each of its first `i` aliases. */
  ghost predicate AliasesDropped(lower: string -> string, m: Buckets, r: Buckets, n: Note, i: nat)
    requires i <= |n.aliases|
  {
    forall k, x ::
      Tally(Bucket(r, k), x) == Tally(Bucket(m, k), x) - if x == n then Occurrences(lower, n.aliases, i, k) else 0
  }

  lemma {:induction false} OccurrencesMonotone(lower: string -> string, aliases: seq<string>, i: nat, j: nat, k: string)
    requires i <= j <= |aliases|
    ensures Occurrences(lower, aliases, i, k) <= Occurrences(lower, aliases, j, k)
  {
    if i < j {
      OccurrencesMonotone(lower, aliases, i, j - 1, k);
    }
  }

  // ── The frontmatter index ────────────────────────────────────────────────

  /** Index one note under each value of one property; a value it already sits under is skipped. */
  method PushValues(m: Buckets, values: seq<string>, n: Note) returns (r: Buckets)
    requires forall v :: Tally(Bucket(m, v), n) <= 1
    ensures forall v, x ::
      Tally(Bucket(r, v), x) == if x == n && v != "" && v in values then 1 else Tally(Bucket(m, v), x)
  {
    r := m;
    for j := 0 to |values|
      invariant forall v, x ::
        Tally(Bucket(r, v), x) == if x == n && v != "" && v in values[..j] then 1 else Tally(Bucket(m, v), x)
    {
      var v := values[j];
      assert values[..j + 1] == values[..j] + [v];
      TallyIsMembership(Bucket(r, v), n);
      if v != "" && n !in Bucket(r, v) {
        r := Push(r, v, n);
      }
    }
    assert values[..|values|] == values;
  }

  method DropValues(m: Buckets, values: seq<string>, n: Note) returns (r: Buckets)
    requires forall v :: Tally(Bucket(m, v), n) <= 1
    requires forall v, x :: Tally(Bucket(m, v), x) > 0 && x.path == n.path ==> x == n
    ensures forall v, x ::
      Tally(Bucket(r, v), x) == if x == n && v != "" && v in values then 0 else Tally(Bucket(m, v), x)
  {
    r := m;
    for j := 0 to |values|
      invariant forall v, x ::
        Tally(Bucket(r, v), x) == if x == n && v != "" && v in values[..j] then 0 else Tally(Bucket(m, v), x)
    {
      var v := values[j];
      assert values[..j + 1] == values[..j] + [v];
      if v != "" {
        DropCounts(r, v, n);
        r := Drop(r, v, n);
      }
    }
    assert values[..|values|] == values;
  }

  method PushFrontmatter(lower: string -> string, m: map<string, Buckets>, n: Note, ghost N: Notes)
    returns (r: map<string, Buckets>)
    requires FrontmatterExact(lower, m, N) && n.path !in N
    ensures FrontmatterExact(lower, r, N[n.path := n])
  {
    r := m;
    var fm := n.frontmatter;
    for i := 0 to |fm|
      invariant PushedUpTo(lower, m, r, n, i)
    {
      var key := lower(fm[i].0);
      var propMap: Buckets := if key in r then r[key] else map[];
      ghost var before := r;
      assert forall v :: Bucket(propMap, v) == FrontmatterBucket(r, key, v);
      PushedOnce(lower, m, r, n, i, key);
      propMap := PushValues(propMap, Values(fm[i].1), n);
      r := r[key := propMap];
      PushStep(lower, m, before, r, n, i);
    }
  }

  /** `r` is `m` with `n` indexed under the first `i` entries of its frontmatter. */
  ghost predicate PushedUpTo(lower: string -> string, m: map<string, Buckets>, r: map<string, Buckets>, n: Note, i: nat)
    requires i <= |n.frontmatter|
  {
    forall prop, v, x ::
      Tally(FrontmatterBucket(r, prop, v), x)
      == if x == n then (if Carries(lower, n.frontmatter, i, prop, v) then 1 else 0)
         else Tally(FrontmatterBucket(m, prop, v), x)
  }

  lemma PushedOnce(lower: string -> string, m: map<string, Buckets>, r: map<string, Buckets>, n: Note, i: nat,
                   key: string)
    requires i <= |n.frontmatter| && PushedUpTo(lower, m, r, n, i)
    ensures forall v :: Tally(FrontmatterBucket(r, key, v), n) <= 1
  {
    hide Carries, FrontmatterBucket;
  }

  lemma PushStep(lower: string -> string, m: map<string, Buckets>, before: map<string, Buckets>, r: map<string,
                 Buckets>, n: Note, i: nat)
    requires i < |n.frontmatter| && PushedUpTo(lower, m, before, n, i)
    requires var key, values := lower(n.frontmatter[i].0), Values(n.frontmatter[i].1);
      && (forall v, x ::
           Tally(FrontmatterBucket(r, key, v), x)
           == if x == n && v != "" && v in values then 1 else Tally(FrontmatterBucket(before, key, v), x))
      && (forall prop, v :: prop != key ==> FrontmatterBucket(r, prop, v) == FrontmatterBucket(before, prop, v))
    ensures PushedUpTo(lower, m, r, n, i + 1)
  {
  }

  /** Un-index one note from one property, deleting the property when that empties it. */
  method DropEntry(m: map<string, Buckets>, key: string, values: seq<string>, n: Note) returns (r: map<string, Buckets>)
    requires forall v :: Tally(FrontmatterBucket(m, key, v), n) <= 1
    requires forall v, x :: Tally(FrontmatterBucket(m, key, v), x) > 0 && x.path == n.path ==> x == n
    ensures forall v, x ::
      Tally(FrontmatterBucket(r, key, v), x)
      == if x == n && v != "" && v in values then 0 else Tally(FrontmatterBucket(m, key, v), x)
    ensures forall prop, v :: prop != key ==> FrontmatterBucket(r, prop, v) == FrontmatterBucket(m, prop, v)
  {
    r := m;
    if key in m {
      assert forall v :: Bucket(m[key], v) == FrontmatterBucket(m, key, v);
      var propMap := DropValues(m[key], values, n);
      r := if propMap == map[] then m - {key} else m[key := propMap];
      assert forall v :: FrontmatterBucket(r, key, v) == Bucket(propMap, v);
    }
  }

  method DropFrontmatter(lower: string -> string, m: map<string, Buckets>, n: Note, ghost N: Notes)
    returns (r: map<string, Buckets>)
    requires WellKeyed(N) && FrontmatterExact(lower, m, N) && Has(N, n)
    ensures FrontmatterExact(lower, r, N - {n.path})
  {
    r := m;
    var fm := n.frontmatter;
    assert DroppedUpTo(lower, m, r, n, 0);
    for i := 0 to |fm|
      invariant DroppedUpTo(lower, m, r, n, i)
    {
      SamePathSameNote(lower, m, r, n, i, N);
      var before := r;
      r := DropEntry(r, lower(fm[i].0), Values(fm[i].1), n);
      DropStep(lower, m, before, r, n, i);
    }
  }

  lemma DropStep(lower: string -> string, m: map<string, Buckets>, before: map<string, Buckets>, r: map<string,
                 Buckets>, n: Note, i: nat)
    requires i < |n.frontmatter| && DroppedUpTo(lower, m, before, n, i)
    requires var key, values := lower(n.frontmatter[i].0), Values(n.frontmatter[i].1);
      && (forall v, x ::
           Tally(FrontmatterBucket(r, key, v), x)
           == if x == n && v != "" && v in values then 0 else Tally(FrontmatterBucket(before, key, v), x))
      && (forall prop, v :: prop != key ==> FrontmatterBucket(r, prop, v) == FrontmatterBucket(before, prop, v))
    ensures DroppedUpTo(lower, m, r, n, i + 1)
  {
  }

  /** The buckets `r` are those of `m` without `n` under its first `i` entries. */
  ghost predicate DroppedUpTo(lower: string -> string, m: map<string, Buckets>, r: map<string, Buckets>, n: Note,
                              i: nat)
    requires i <= |n.frontmatter|
  {
    forall prop, v, x ::
      Tally(FrontmatterBucket(r, prop, v), x)
      == if x == n && Carries(lower, n.frontmatter, i, prop, v) then 0 else Tally(FrontmatterBucket(m, prop, v), x)
  }

  lemma SamePathSameNote(lower: string -> string, m: map<string, Buckets>, r: map<string, Buckets>, n: Note, i: nat,
                         N: Notes)
    requires FrontmatterExact(lower, m, N) && Has(N, n)
    requires i <= |n.frontmatter| && DroppedUpTo(lower, m, r, n, i)
    ensures forall prop, v :: Tally(FrontmatterBucket(r, prop, v), n) <= 1
    ensures forall prop, v, x :: Tally(FrontmatterBucket(r, prop, v), x) > 0 && x.path == n.path ==> x == n
  {
  }

  // ── JD ids ────────────────────────────────────────────────────────────────

  /** Adding a note: a different holder keeps the id unless the new path sorts after it. */
  function JdAdd(m: map<string, Note>, n: Note): map<string, Note> {
    if n.jdId == "" then m
    else if n.jdId in m && m[n.jdId].path != n.path && !Less(m[n.jdId].path, n.path) then m
    else m[n.jdId := n]
  }

  /** Removing a note: only the current holder's entry goes. */
  function JdRemove(m: map<string, Note>, n: Note): map<string, Note> {
    if n.jdId != "" && n.jdId in m && m[n.jdId].path == n.path then m - {n.jdId} else m
  }

  /** `n` holds `id` with the greatest path, and some other indexed note carries the same id. */
  ghost predicate LeavesRunnerUp(N: Notes, n: Note, id: string) {
    && Holds(N, n, id)
    && (forall o :: Holds(N, o, id) ==> o == n || Less(o.path, n.path))
    && exists o :: Holds(N, o, id) && o.path != n.path
  }

  /** Unlinking keeps the entry for an id what a rebuild gives, except when the holder leaves a runner-up behind. */
  lemma UnlinkKeepsJdIffNoRunnerUp(m: map<string, Note>, N: Notes, n: Note, id: string)
    requires WellKeyed(N) && Has(N, n) && JdSound(m, N) && JdCanonical(m, N, id)
    ensures JdCanonical(JdRemove(m, n), N - {n.path}, id) <==> !LeavesRunnerUp(N, n, id)
  {
    var N' := N - {n.path};
    forall o
      ensures Holds(N', o, id) <==> Holds(N, o, id) && o.path != n.path
    {
    }
    if id in m && m[id] != n {
      assert Holds(N, m[id], id);
      LessTotal(m[id].path, n.path);
    }
    if LeavesRunnerUp(N, n, id) {
      var o :| Holds(N, o, id) && o.path != n.path;
      assert Holds(N', o, id);
    }
  }

  /** A concrete run: two notes share id "04.18", the later path holds it, and unlinking it loses the id. */
  lemma UnlinkCanLoseAJdId()
    ensures exists a: Note, b: Note ::
      var N := map[a.path := a, b.path := b];
      && WellKeyed(N) && Has(N, a) && Has(N, b)
      && JdCanonical(JdAdd(JdAdd(map[], a), b), N, "04.18")
      && "04.18" !in JdRemove(JdAdd(JdAdd(map[], a), b), b)
      && Holds(N - {b.path}, a, "04.18")
  {
    var a := Note("a/04.18 x.md", "04.18 x", "04.18", [], [], []);
    var b := Note("b/04.18 x.md", "04.18 x", "04.18", [], [], []);
    assert a.path[0] == 'a' && b.path[0] == 'b';
    assert Less(a.path, b.path);
    var N := map[a.path := a, b.path := b];
    assert JdAdd(JdAdd(map[], a), b) == map["04.18" := b];
    assert forall n :: Holds(N, n, "04.18") ==> n == a || n == b;
  }

  /** Adding a note whose path is new keeps every id what a rebuild gives. */
  lemma AddKeepsJd(m: map<string, Note>, N: Notes, n: Note, id: string)
    requires WellKeyed(N) && n.path !in N && JdSound(m, N) && JdCanonical(m, N, id)
    ensures JdCanonical(JdAdd(m, n), N[n.path := n], id)
  {
    var m', N' := JdAdd(m, n), N[n.path := n];
    forall o
      ensures Holds(N', o, id) <==> Holds(N, o, id) || (o == n && n.jdId == id && id != "")
    {
    }
    if id in m {
      LessTotal(m[id].path, n.path);
      forall o | Holds(N, o, id) && Less(m[id].path, n.path)
        ensures Less(o.path, n.path)
      {
        if o != m[id] {
          LessTransitive(o.path, m[id].path, n.path);
        }
      }
    }
  }

  /** Changing a note keeps every id what a rebuild gives: the id is a function of the path, so it is the same id. */
  lemma ChangeKeepsJd(m: map<string, Note>, N: Notes, old': Note, n: Note, id: string)
    requires WellKeyed(N) && Has(N, old') && n.path == old'.path && n.jdId == old'.jdId
    requires JdSound(m, N) && JdCanonical(m, N, id)
    ensures JdCanonical(JdAdd(JdRemove(m, old'), n), N[n.path := n], id)
  {
    var N' := N[n.path := n];
    forall o
      ensures Holds(N', o, id) <==> (Holds(N, o, id) && o.path != n.path) || (o == n && n.jdId == id && id != "")
    {
    }
    if id == n.jdId && id != "" {
      assert Holds(N, old', id);
      var r := JdAdd(JdRemove(m, old'), n);
      LessTotal(m[id].path, n.path);
      assert r[id] == if m[id] == old' then n else m[id];
      forall o | Holds(N', o, id)
        ensures o == r[id] || Less(o.path, r[id].path)
      {
        assert o == n || Holds(N, o, id);
      }
    }
  }

  // ── Sorting ───────────────────────────────────────────────────────────────

  function InsertSorted(before: (string, string) -> bool, s: seq<Note>, n: Note): (r: seq<Note>)
    ensures |r| == |s| + 1
  {
    if s == [] || before(n.path, s[0].path) then [n] + s else [s[0]] + InsertSorted(before, s[1..], n)
  }

  /** A stable sort of notes by path under any comparison. */
  function SortNotes(before: (string, string) -> bool, s: seq<Note>): (r: seq<Note>)
    ensures |r| == |s|
  {
    if s == [] then [] else InsertSorted(before, SortNotes(before, s[..|s| - 1]), s[|s| - 1])
  }

  lemma {:induction false} InsertSortedTally(before: (string, string) -> bool, s: seq<Note>, n: Note, x: Note)
    ensures Tally(InsertSorted(before, s, n), x) == Tally(s, x) + if x == n then 1 else 0
  {
    if s == [] || before(n.path, s[0].path) {
      TallyAppend([n], s, x);
    } else {
      assert s == [s[0]] + s[1..];
      TallyAppend([s[0]], s[1..], x);
      TallyAppend([s[0]], InsertSorted(before, s[1..], n), x);
      InsertSortedTally(before, s[1..], n, x);
    }
  }

  lemma {:induction false} SortNotesTally(before: (string, string) -> bool, s: seq<Note>, x: Note)
    ensures Tally(SortNotes(before, s), x) == Tally(s, x)
  {
    if s != [] {
      SortNotesTally(before, s[..|s| - 1], x);
      InsertSortedTally(before, SortNotes(before, s[..|s| - 1]), s[|s| - 1], x);
    }
  }

  /** Ascending by path in JavaScript's own string order. */
  ghost predicate Ascending(s: seq<Note>) {
    forall i, j :: 0 <= i < j < |s| ==> Less(s[i].path, s[j].path)
  }

  lemma AscendingCons(n: Note, s: seq<Note>)
    requires Ascending(s) && forall j :: 0 <= j < |s| ==> Less(n.path, s[j].path)
    ensures Ascending([n] + s)
  {
  }

  lemma {:induction false} InsertSortedAscends(s: seq<Note>, n: Note)
    requires Ascending(s) && forall x :: x in s ==> x.path != n.path
    ensures Ascending(InsertSorted(Less, s, n))
    ensures forall x :: x in InsertSorted(Less, s, n) <==> x in s || x == n
  {
    hide Less, Ascending;
    if s == [] {
      AscendingCons(n, s);
    } else if Less(n.path, s[0].path) {
      BeforeAll(n, s);
      AscendingCons(n, s);
    } else {
      assert s == [s[0]] + s[1..];
      TailAscends(s);
      LessTotal(n.path, s[0].path);
      InsertSortedAscends(s[1..], n);
      AscendingCons(s[0], InsertSorted(Less, s[1..], n));
    }
  }

  lemma BeforeAll(n: Note, s: seq<Note>)
    requires Ascending(s) && s != [] && Less(n.path, s[0].path)
    ensures forall j :: 0 <= j < |s| ==> Less(n.path, s[j].path)
  {
    hide Less;
    forall j | 0 < j < |s|
      ensures Less(n.path, s[j].path)
    {
      LessTransitive(n.path, s[0].path, s[j].path);
    }
  }

  lemma TailAscends(s: seq<Note>)
    requires Ascending(s) && s != []
    ensures Ascending(s[1..]) && forall x :: x in s[1..] ==> Less(s[0].path, x.path)
  {
  }

  ghost predicate DistinctPaths(found: seq<Note>) {
    forall i, j :: 0 <= i < j < |found| ==> found[i].path != found[j].path
  }

  lemma {:induction false} SortNotesAscends(s: seq<Note>)
    requires DistinctPaths(s)
    ensures Ascending(SortNotes(Less, s))
    ensures forall x :: x in SortNotes(Less, s) <==> x in s
  {
    if s != [] {
      var front, last := s[..|s| - 1], s[|s| - 1];
      assert s == front + [last];
      SortNotesAscends(front);
      InsertSortedAscends(SortNotes(Less, front), last);
    }
  }
}

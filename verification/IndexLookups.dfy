/** What readers of the index see: every lookup agrees with a rebuild, and outlinks agree with backlinks. */
module IndexLookups {
  import opened JsString
  import opened IndexModel
  import opened IndexBuckets

  lemma {:induction false} TallyIsMultiplicity<T>(s: seq<T>, x: T)
    ensures multiset(s)[x] == Tally(s, x)
  {
    if s != [] {
      assert s == s[..|s| - 1] + [s[|s| - 1]];
      TallyIsMultiplicity(s[..|s| - 1], x);
    }
  }

  lemma SameTallySameMultiset<T(!new)>(s: seq<T>, t: seq<T>)
    requires forall x :: Tally(s, x) == Tally(t, x)
    ensures multiset(s) == multiset(t)
    ensures |s| == |t|
    ensures |s| == 1 ==> s == t
  {
    forall x
      ensures multiset(s)[x] == multiset(t)[x]
    {
      TallyIsMultiplicity(s, x);
      TallyIsMultiplicity(t, x);
    }
    assert multiset(s) == multiset(t);
    assert |multiset(s)| == |s| && |multiset(t)| == |t|;
    if |s| == 1 {
      assert s[0] in multiset(t);
    }
  }

  /** Resolving `t` never consults the id map, or finds there what a rebuild has. */
  ghost predicate JdSettled(v: Maps, N: Notes, t: string) {
    t in N || WithMd(t) in N || JdCanonical(v.byJdId, N, t)
  }

  ghost predicate LinksSettled(v: Maps, N: Notes, q: string) {
    q in N ==> forall t :: t in N[q].outlinks ==> JdSettled(v, N, t)
  }

  /** Path, basename, alias and frontmatter lookups agree for any two indexes of the same notes, up to bucket order. */
  lemma ForwardLookupsAgree(lower: string -> string, v: Maps, r: Maps, N: Notes, k: string, prop: string)
    requires Forward(lower, v, N) && Forward(lower, r, N)
    ensures v.byPath == r.byPath && multiset(v.notes) == multiset(r.notes)
    ensures multiset(Bucket(v.byBasename, k)) == multiset(Bucket(r.byBasename, k))
    ensures multiset(Bucket(v.byAlias, k)) == multiset(Bucket(r.byAlias, k))
    ensures multiset(SearchByFrontmatter(lower, v, prop, k)) == multiset(SearchByFrontmatter(lower, r, prop, k))
    ensures |Bucket(v.byBasename, k)| == 1 ==> Bucket(v.byBasename, k) == Bucket(r.byBasename, k)
    ensures |Bucket(v.byAlias, k)| == 1 ==> Bucket(v.byAlias, k) == Bucket(r.byAlias, k)
  {
    forall n
      ensures Tally(v.notes, n) == Tally(r.notes, n)
      ensures Tally(Bucket(v.byBasename, k), n) == Tally(Bucket(r.byBasename, k), n)
      ensures Tally(Bucket(v.byAlias, k), n) == Tally(Bucket(r.byAlias, k), n)
      ensures Tally(SearchByFrontmatter(lower, v, prop, k), n) == Tally(SearchByFrontmatter(lower, r, prop, k), n)
    {
    }
    SameTallySameMultiset(v.notes, r.notes);
    SameTallySameMultiset(Bucket(v.byBasename, k), Bucket(r.byBasename, k));
    SameTallySameMultiset(Bucket(v.byAlias, k), Bucket(r.byAlias, k));
    SameTallySameMultiset(SearchByFrontmatter(lower, v, prop, k), SearchByFrontmatter(lower, r, prop, k));
  }

  /** Two canonical id entries are the same entry. */
  lemma CanonicalIsUnique(m: map<string, Note>, r: map<string, Note>, N: Notes, id: string)
    requires JdCanonical(m, N, id) && JdCanonical(r, N, id)
    ensures id in m <==> id in r
    ensures id in m ==> m[id] == r[id]
  {
    if id in m && id in r {
      Lexical.LessTotal(m[id].path, r[id].path);
    }
  }

  /** The same answer, listing ambiguous candidates in any order. */
  ghost predicate SameResolution(a: Resolution, b: Resolution) {
    match (a, b)
    case (Ambiguous(s), Ambiguous(t)) => multiset(s) == multiset(t)
    case _ => a == b
  }

  lemma ResolutionAgrees(lower: string -> string, v: Maps, r: Maps, N: Notes, t: string)
    requires Forward(lower, v, N) && Forward(lower, r, N) && JdSettled(v, N, t) && JdSettled(r, N, t)
    ensures ResolveTargetSimple(lower, v, t) == ResolveTargetSimple(lower, r, t)
    ensures SameResolution(ResolveWorking(lower, v, t), ResolveWorking(lower, r, t))
  {
    hide NotesExact, BasenameExact, AliasExact, FrontmatterExact, JdSound;
    ForwardLookupsAgree(lower, v, r, N, lower(t), t);
    assert |multiset(Bucket(v.byBasename, lower(t)))| == |multiset(Bucket(r.byBasename, lower(t)))|;
    assert |multiset(Bucket(v.byAlias, lower(t)))| == |multiset(Bucket(r.byAlias, lower(t)))|;
    if t !in N && WithMd(t) !in N {
      CanonicalIsUnique(v.byJdId, r.byJdId, N, t);
    }
  }

  /** The backlink from `q` to `p` agrees once every link of `q` is settled. */
  lemma BacklinkAgrees(lower: string -> string, v: Maps, r: Maps, N: Notes, p: string, q: string)
    requires Represents(lower, v, N) && Represents(lower, r, N)
    requires LinksSettled(v, N, q) && LinksSettled(r, N, q)
    ensures q in GetBacklinks(v, p) <==> q in GetBacklinks(r, p)
  {
    TallyIsMembership(GetBacklinks(v, p), q);
    TallyIsMembership(GetBacklinks(r, p), q);
    if q in N {
      forall t | t in N[q].outlinks
        ensures ResolvesTo(lower, v, t, p) <==> ResolvesTo(lower, r, t, p)
      {
        ResolutionAgrees(lower, v, r, N, t);
      }
      assert LinksTo(lower, v, N[q], p) <==> LinksTo(lower, r, N[q], p);
    }
  }

  /**
   * Every reader of an index kept up incrementally (`v`) sees what it would see after a full rebuild (`r`):
   * lookups that never consult an id unconditionally, the others wherever `v` names the rebuild's holder.
   */
  lemma IncrementalAgreesWithRebuild(lower: string -> string, v: Maps, r: Maps, N: Notes)
    requires Represents(lower, v, N) && Represents(lower, r, N)
    requires forall id :: JdCanonical(r.byJdId, N, id)
    ensures v.byPath == r.byPath
    ensures forall k :: multiset(Bucket(v.byBasename, k)) == multiset(Bucket(r.byBasename, k))
    ensures forall k :: multiset(Bucket(v.byAlias, k)) == multiset(Bucket(r.byAlias, k))
    ensures forall prop, value ::
      multiset(SearchByFrontmatter(lower, v, prop, value)) == multiset(SearchByFrontmatter(lower, r, prop, value))
    ensures forall id :: JdCanonical(v.byJdId, N, id) ==>
      (id in v.byJdId <==> id in r.byJdId) && (id in v.byJdId ==> v.byJdId[id] == r.byJdId[id])
    ensures forall t :: JdSettled(v, N, t) ==>
      && ResolveTargetSimple(lower, v, t) == ResolveTargetSimple(lower, r, t)
      && SameResolution(ResolveWorking(lower, v, t), ResolveWorking(lower, r, t))
    ensures forall p, q :: LinksSettled(v, N, q) ==> (q in GetBacklinks(v, p) <==> q in GetBacklinks(r, p))
  {
    hide NotesExact, BasenameExact, AliasExact, FrontmatterExact, JdSound, BacklinksExact;
    hide JdCanonical, ResolveTargetSimple, ResolveWorking, SearchByFrontmatter;
    forall k
      ensures multiset(Bucket(v.byBasename, k)) == multiset(Bucket(r.byBasename, k))
      ensures multiset(Bucket(v.byAlias, k)) == multiset(Bucket(r.byAlias, k))
    {
      ForwardLookupsAgree(lower, v, r, N, k, k);
    }
    forall prop, value
      ensures multiset(SearchByFrontmatter(lower, v, prop, value))
           == multiset(SearchByFrontmatter(lower, r, prop, value))
    {
      ForwardLookupsAgree(lower, v, r, N, value, prop);
    }
    forall id | JdCanonical(v.byJdId, N, id) {
      CanonicalIsUnique(v.byJdId, r.byJdId, N, id);
    }
    forall t | JdSettled(v, N, t) {
      ResolutionAgrees(lower, v, r, N, t);
    }
    forall p, q | LinksSettled(v, N, q) {
      BacklinkAgrees(lower, v, r, N, p, q);
    }
  }

  // ── Outlinks against backlinks ────────────────────────────────────────────

  /** What `parseOutlinks` can return: trimmed text without a closing bracket, alias or fragment mark. */
  predicate ParsedRef(ref: string) {
    ref != "" && Trim(ref) == ref && ']' !in ref && '|' !in ref && '#' !in ref
  }

  /** The outlink resolver strips two opening brackets; the backlink resolver takes them for part of the name. */
  predicate Bracketed(ref: string) {
    At(ref, 0, "[[")
  }

  lemma PlainRefIsItsWorkingPart(ref: string)
    requires ParsedRef(ref) && !Bracketed(ref)
    ensures WorkingPart(ref) == ref
  {
  }

  /** Several notes share the basename, so the tools report an ambiguity, while one alias still makes a backlink. */
  ghost predicate AliasBehindAmbiguity(lower: string -> string, v: Maps, ref: string, p: string) {
    && ref !in v.byPath && WithMd(ref) !in v.byPath && ref !in v.byJdId
    && |Bucket(v.byBasename, lower(ref))| > 1
    && |Bucket(v.byAlias, lower(ref))| == 1 && Bucket(v.byAlias, lower(ref))[0].path == p
  }

  ghost predicate OutlinkReaches(lower: string -> string, v: Maps, ref: string, p: string) {
    var r := ResolveRef(lower, v, ref);
    r.Resolved? && r.path == p
  }

  /** The reference makes a backlink to `p`, told by its outlink where the two resolvers read it alike. */
  ghost predicate MakesBacklink(lower: string -> string, v: Maps, ref: string, p: string) {
    if Bracketed(ref) then ResolvesTo(lower, v, ref, p)
    else OutlinkReaches(lower, v, ref, p) || AliasBehindAmbiguity(lower, v, ref, p)
  }

  /**
   * `p` lists `q` as a backlink exactly when an outlink of `q` resolves to `p`, or an alias hides behind an
   * ambiguity; a bracketed reference counts by its text as it stands.
   */
  lemma BacklinksAreOutlinksReversed(lower: string -> string, v: Maps, N: Notes, p: string, q: string)
    requires Represents(lower, v, N)
    requires q in N ==> forall ref :: ref in N[q].outlinks ==> ParsedRef(ref)
    ensures q in GetBacklinks(v, p) <==> q in N && exists ref :: ref in N[q].outlinks && MakesBacklink(lower, v, ref, p)
  {
    hide NotesExact, BasenameExact, AliasExact, FrontmatterExact, ResolvesTo, OutlinkReaches, AliasBehindAmbiguity;
    hide Bracketed;
    TallyIsMembership(GetBacklinks(v, p), q);
    if q in N {
      forall ref | ref in N[q].outlinks && !Bracketed(ref) {
        OutlinkAgainstTarget(lower, v, N, ref, p);
      }
    }
  }

  lemma OutlinkAgainstTarget(lower: string -> string, v: Maps, N: Notes, ref: string, p: string)
    requires Forward(lower, v, N) && ParsedRef(ref) && !Bracketed(ref)
    ensures ResolvesTo(lower, v, ref, p) <==> OutlinkReaches(lower, v, ref, p) || AliasBehindAmbiguity(lower, v, ref, p)
  {
    hide NotesExact, BasenameExact, AliasExact, FrontmatterExact, Bracketed, WithMd;
    PlainRefIsItsWorkingPart(ref);
  }

  /** The text behind the last slash. */
  function FileName(path: string): string {
    if path == "" || path[|path| - 1] == '/' then "" else FileName(path[..|path| - 1]) + [path[|path| - 1]]
  }

  /** `path.basename(path, ".md")`. */
  function BaseName(path: string): string {
    var name := FileName(path);
    if EndsWith(name, ".md") && name != ".md" then name[..|name| - 3] else name
  }

  /** Notes go by the names of their files. */
  ghost predicate Named(N: Notes) {
    forall p :: p in N ==> N[p].basename == BaseName(p)
  }

  /** In every index the reference makes a backlink just where its outlink leads, alias behind an ambiguity aside. */
  ghost predicate ResolversAgree(ref: string) {
    forall lower, v, N, p :: Forward(lower, v, N) && Named(N) ==>
      (ResolvesTo(lower, v, ref, p) <==> OutlinkReaches(lower, v, ref, p) || AliasBehindAmbiguity(lower, v, ref, p))
  }

  /** The two resolvers agree on a reference, in every index, exactly when it does not begin with brackets. */
  lemma ResolversAgreeIff(ref: string)
    requires ParsedRef(ref)
    ensures ResolversAgree(ref) <==> !Bracketed(ref)
  {
    hide Forward, ResolvesTo, OutlinkReaches, AliasBehindAmbiguity, Bracketed, ParsedRef;
    if Bracketed(ref) {
      BracketedDisagrees(ref);
    } else {
      forall lower, v, N, p | Forward(lower, v, N)
        ensures ResolvesTo(lower, v, ref, p)
           <==> OutlinkReaches(lower, v, ref, p) || AliasBehindAmbiguity(lower, v, ref, p)
      {
        OutlinkAgainstTarget(lower, v, N, ref, p);
      }
    }
  }

  /** An index of one note, whose file is named as the reference is written. */
  function OneNote(ref: string): Note {
    Note(WithMd(ref), BaseName(WithMd(ref)), "", [], [], [])
  }

  function OneNoteIndex(ref: string): Maps {
    var n := OneNote(ref);
    Maps([n], map[n.path := n], map[n.basename := [n]], map[], map[], map[], map[])
  }

  lemma BracketedDisagrees(ref: string)
    requires ParsedRef(ref) && Bracketed(ref)
    ensures !ResolversAgree(ref)
  {
    hide Forward, ResolvesTo, OutlinkReaches, AliasBehindAmbiguity, ParsedRef, Bracketed;
    OneNoteForward(ref);
    OneNoteResolves(ref);
    assert Named(map[WithMd(ref) := OneNote(ref)]) by { hide BaseName; }
  }

  lemma OneNoteResolves(ref: string)
    requires ParsedRef(ref) && Bracketed(ref)
    ensures var lower, v, p := (s: string) => s, OneNoteIndex(ref), OneNote(ref).path;
      ResolvesTo(lower, v, ref, p) && !OutlinkReaches(lower, v, ref, p) && !AliasBehindAmbiguity(lower, v, ref, p)
  {
    hide WorkingPart, WithMd, ParsedRef, Bracketed, BaseName;
    WorkingPartIsShorter(ref);
    NamedOtherwise(ref);
  }

  lemma OneNoteForward(ref: string)
    ensures Forward((s: string) => s, OneNoteIndex(ref), map[WithMd(ref) := OneNote(ref)])
  {
    hide WithMd, BaseName;
    var n, m := OneNote(ref), OneNoteIndex(ref).byBasename;
    forall x
      ensures Tally([n], x) == if x == n then 1 else 0
    {
      assert [n][..0] == [];
    }
    assert forall k, x :: Tally(Bucket(m, k), x) == if x == n && n.basename == k then 1 else 0;
  }

  lemma {:induction false} TrimStartIsSuffix(s: string)
    ensures |TrimStart(s)| <= |s| && TrimStart(s) == s[|s| - |TrimStart(s)|..]
    ensures forall i :: 0 <= i < |s| - |TrimStart(s)| ==> IsSpace(s[i])
  {
    if s != "" && IsSpace(s[0]) {
      TrimStartIsSuffix(s[1..]);
    }
  }

  /** Trimming a tail of trimmed text gives another tail of it. */
  lemma TrimOfTail(ref: string)
    requires Trim(ref) == ref && |ref| >= 2
    ensures var w := Trim(ref[2..]); |w| <= |ref| - 2 && w == ref[|ref| - |w|..]
    ensures forall i :: 2 <= i < |ref| - |Trim(ref[2..])| ==> IsSpace(ref[i])
  {
    var tail := ref[2..];
    TrimStartIsSuffix(tail);
    hide IsSpace;
    if TrimStart(tail) != "" {
      assert TrimStart(tail)[|TrimStart(tail)| - 1] == ref[|ref| - 1];
    }
    assert Trim(tail) == TrimStart(tail);
    assert forall i :: 2 <= i < |ref| ==> ref[i] == tail[i - 2];
  }

  lemma WorkingPartOfBracketed(ref: string)
    requires ParsedRef(ref) && Bracketed(ref)
    ensures WorkingPart(ref) == Trim(ref[2..])
  {
    hide IsSpace, Trim, EndsWith, IndexOf;
    var body := ref[2..];
    NoCloser(ref);
    TrimKeepsChars(body);
    TrimTwice(body);
    assert forall c :: c in body ==> c in ref;
    Unmarked(Trim(body), '|');
    Unmarked(Trim(body), '#');
  }

  lemma Unmarked(s: string, c: char)
    requires c !in s
    ensures s[..IndexOf(s, c, 0)] == s
  {
  }

  lemma NoCloser(ref: string)
    requires ']' !in ref && |ref| >= 2
    ensures !EndsWith(ref[2..], "]]")
  {
    assert forall k :: 0 <= k < |ref[2..]| ==> ref[2..][k] == ref[k + 2];
    assert "]]"[0] == ']';
  }

  lemma TrimTwice(s: string)
    ensures Trim(Trim(s)) == Trim(s)
  {
  }

  /** Without its brackets the reference is another text, and names another file. */
  lemma WorkingPartIsShorter(ref: string)
    requires ParsedRef(ref) && Bracketed(ref)
    ensures WorkingPart(ref) != WithMd(ref) && WithMd(WorkingPart(ref)) != WithMd(ref)
  {
    hide Trim, WorkingPart;
    WorkingPartOfBracketed(ref);
    TrimOfTail(ref);
  }

  lemma {:induction false} FileNameIs(path: string) returns (k: nat)
    ensures k <= |path| && FileName(path) == path[k..] && (k > 0 ==> path[k - 1] == '/') && '/' !in path[k..]
  {
    if path == "" || path[|path| - 1] == '/' {
      k := |path|;
    } else {
      k := FileNameIs(path[..|path| - 1]);
      assert path[k..] == path[..|path| - 1][k..] + [path[|path| - 1]];
    }
  }

  lemma {:induction false} Periodic(s: string, i: nat)
    requires |s| >= 3 && i < |s| && forall k :: 0 <= k < |s| - 3 ==> s[k] == s[k + 3]
    ensures s[i] in {s[0], s[1], s[2]}
  {
    if i >= 3 {
      Periodic(s, i - 3);
      assert s[i - 3] == s[i - 3 + 3];
    }
  }

  lemma EndsInMd(path: string)
    requires EndsWith(path, ".md")
    ensures var n := |path|; path[n - 3] == '.' && path[n - 2] == 'm' && path[n - 1] == 'd'
  {
    var tail := path[|path| - 3..];
    assert tail[0] == '.' && tail[1] == 'm' && tail[2] == 'd';
  }

  lemma WithMdEnds(ref: string)
    ensures EndsWith(WithMd(ref), ".md") && WithMd(ref) == if EndsWith(ref, ".md") then ref else ref + ".md"
  {
    assert (ref + ".md")[|ref|..] == ".md";
  }

  /** The name of a Markdown file whose last slash stands before `k`. */
  lemma BaseNameIs(path: string, k: nat)
    requires EndsWith(path, ".md") && k <= |path| && FileName(path) == path[k..] && (k > 0 ==> path[k - 1] == '/')
    ensures k <= |path| - 3 && BaseName(path) == if k == |path| - 3 then ".md" else path[k..|path| - 3]
  {
    hide FileName;
    EndsInMd(path);
    assert k <= |path| - 3;
    assert path[k..][|path| - 3 - k..] == path[|path| - 3..];
  }

  /** The brackets and the blanks behind them hold no slash, and none of the letters a file's name ends in. */
  lemma NotRepeated(ref: string)
    requires |ref| > 3 && ref[0] == '[' && ref[1] == '[' && IsSpace(ref[2]) && ref[|ref| - 1] == 'd'
    ensures ref[..|ref| - 3] != ref[3..]
  {
    var n := |ref|;
    if ref[..n - 3] == ref[3..] {
      assert forall i :: 0 <= i < n - 3 ==> ref[i] == ref[..n - 3][i] && ref[i + 3] == ref[3..][i];
      Periodic(ref, n - 1);
    }
  }

  /** The file's name is not the reference without its brackets either. */
  lemma NamedOtherwise(ref: string)
    requires ParsedRef(ref) && Bracketed(ref)
    ensures BaseName(WithMd(ref)) != WorkingPart(ref)
  {
    hide Trim, WorkingPart, FileName, BaseName, WithMd;
    WorkingPartOfBracketed(ref);
    TrimOfTail(ref);
    WithMdEnds(ref);
    var path := WithMd(ref);
    var k := FileNameIs(path);
    BaseNameIs(path, k);
    EndsInMd(path);
    NamesDiffer(ref, |ref| - |WorkingPart(ref)|, path, k);
  }

  lemma NamesDiffer(ref: string, j: nat, path: string, k: nat)
    requires At(ref, 0, "[[") && 2 <= j <= |ref| && forall i :: 2 <= i < j ==> IsSpace(ref[i])
    requires path == (if EndsWith(ref, ".md") then ref else ref + ".md") && path[|path| - 1] == 'd'
    requires k <= |path| - 3 && (k > 0 ==> path[k - 1] == '/')
    ensures (if k == |path| - 3 then ".md" else path[k..|path| - 3]) != ref[j..]
  {
    assert ref[0] == '[' && ref[1] == '[' && path[0] == '[' && path[1] == '[' && !IsSpace('/');
    assert forall i :: 0 <= i < |ref| ==> path[i] == ref[i];
    assert k == 0 || j < k;
    if k == |path| - 3 && |ref| - j == 3 {
      assert ref[j..][2] == ref[|ref| - 1] && ".md"[2] == 'd';
    } else if k == 0 && j == 3 && path == ref {
      NotRepeated(ref);
    }
  }

  /** Every outlink entry that resolves to a path, unless bracketed, has its note among that path's backlinks. */
  lemma OutlinkEntriesReachBacklinks(lower: string -> string, v: Maps, N: Notes, q: string)
    requires Represents(lower, v, N)
    requires q in N ==> forall ref :: ref in N[q].outlinks ==> ParsedRef(ref)
    ensures |GetOutlinks(lower, v, q)| == if q in N then |N[q].outlinks| else 0
    ensures forall i :: 0 <= i < |GetOutlinks(lower, v, q)| ==>
      var (ref, r) := GetOutlinks(lower, v, q)[i];
      ref == N[q].outlinks[i] && (!Bracketed(ref) && r.Resolved? ==> q in GetBacklinks(v, r.path))
  {
    hide NotesExact, BasenameExact, AliasExact, FrontmatterExact, BacklinksExact, Bracketed, ParsedRef;
    forall i | 0 <= i < |GetOutlinks(lower, v, q)| && !Bracketed(N[q].outlinks[i])
      && GetOutlinks(lower, v, q)[i].1.Resolved?
      ensures q in GetBacklinks(v, GetOutlinks(lower, v, q)[i].1.path)
    {
      var p := GetOutlinks(lower, v, q)[i].1.path;
      assert MakesBacklink(lower, v, N[q].outlinks[i], p);
      BacklinksAreOutlinksReversed(lower, v, N, p, q);
    }
  }
}

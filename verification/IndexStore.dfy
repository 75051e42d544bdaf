/** The mutable index of `index-store.ts`: its single-file updates, its full rebuild, and runs of both. */
module IndexStore {
  import opened JsString
  import opened Lexical
  import opened IndexModel
  import opened IndexBuckets

  datatype Status = Indexing | Ready | Errored

  /** One operation on the mutation queue, with what the disk gave it when it ran. */
  datatype Op =
    | AddOrChange(parsed: Option<Note>)           // None: the file could not be read
    | Unlink(path: string)
    | Build(walked: Option<seq<Note>>)            // None: the walk failed as a whole

  /** The notes a walk found, keyed by path. */
  function NoteSet(found: seq<Note>): (N: Notes)
    ensures forall p :: p in N ==> N[p].path == p && N[p] in found
    ensures forall n :: n in found ==> n.path in N
  {
    if found == [] then map[]
    else
      var front := found[..|found| - 1];
      assert found == front + [found[|found| - 1]];
      NoteSet(front)[found[|found| - 1].path := found[|found| - 1]]
  }

  /** The note set and status one operation leaves. */
  function After(N: Notes, status: Status, op: Op): (Notes, Status) {
    match op
    case AddOrChange(parsed) =>
      (if status == Ready && parsed.Some? then N[parsed.value.path := parsed.value] else N, status)
    case Unlink(path) => (if status == Ready then N - {path} else N, status)
    case Build(walked) => if walked.Some? then (NoteSet(walked.value), Ready) else (map[], Errored)
  }

  function AfterRun(N: Notes, status: Status, ops: seq<Op>): (Notes, Status) {
    if ops == [] then (N, status)
    else
      var (N', status') := AfterRun(N, status, ops[..|ops| - 1]);
      After(N', status', ops[|ops| - 1])
  }

  /** The operation does not unlink the holder of a duplicated id. */
  ghost predicate JdKept(N: Notes, status: Status, op: Op, id: string) {
    op.Unlink? && status == Ready && op.path in N ==> !LeavesRunnerUp(N, N[op.path], id)
  }

  /** No operation since the last rebuild has lost the id. */
  ghost predicate JdKeptThroughout(N: Notes, status: Status, ops: seq<Op>, id: string) {
    ops != [] && !ops[|ops| - 1].Build? ==>
      var (N', status') := AfterRun(N, status, ops[..|ops| - 1]);
      JdKeptThroughout(N, status, ops[..|ops| - 1], id) && JdKept(N', status', ops[|ops| - 1], id)
  }

  /** What the disk can give: distinct paths per walk, and ids that are a function of the path. */
  ghost predicate Plausible(jdOf: string -> string, ops: seq<Op>) {
    forall op :: op in ops ==>
      && (op.AddOrChange? && op.parsed.Some? ==> op.parsed.value.jdId == jdOf(op.parsed.value.path))
      && (op.Build? && op.walked.Some? ==>
            DistinctPaths(op.walked.value) && forall n :: n in op.walked.value ==> n.jdId == jdOf(n.path))
  }

  class IndexState {
    const lower: string -> string
    /** `localeCompare(a, b) < 0`: any comparison at all, since only the set of backlinks is claimed. */
    const localeBefore: (string, string) -> bool
    /** `deriveJdIdFromPath` after `path.basename`: any function of the path. */
    const jdOf: string -> string
    var status: Status
    var notes: seq<Note>
    var byPath: map<string, Note>
    var byBasename: Buckets
    var byAlias: Buckets
    var byJdId: map<string, Note>
    var byFrontmatter: map<string, Buckets>
    var backlinks: map<string, seq<string>>

    function View(): Maps
      reads this
    {
      Maps(notes, byPath, byBasename, byAlias, byJdId, byFrontmatter, backlinks)
    }

    /** `byPath` is the abstract note set; everything else must agree with it. */
    ghost predicate Valid()
      reads this
    {
      && Represents(lower, View(), byPath)
      && (forall p :: p in byPath ==> byPath[p].jdId == jdOf(p))
      && (status != Ready ==> byPath == map[])
    }

    constructor (lower: string -> string, localeBefore: (string, string) -> bool, jdOf: string -> string)
      ensures Valid() && status == Indexing && byPath == map[] && byJdId == map[]
      ensures this.lower == lower && this.localeBefore == localeBefore && this.jdOf == jdOf
    {
      this.lower, this.localeBefore, this.jdOf := lower, localeBefore, jdOf;
      status, notes, byPath, byBasename, byAlias := Indexing, [], map[], map[], map[];
      byJdId, byFrontmatter, backlinks := map[], map[], map[];
    }

    method AddToForwardMaps(n: Note)
      requires Forward(lower, View(), byPath) && n.path !in byPath
      modifies this`notes, this`byPath, this`byBasename, this`byAlias, this`byJdId, this`byFrontmatter
      ensures Forward(lower, View(), byPath)
      ensures byPath == old(byPath)[n.path := n]
      ensures byJdId == JdAdd(old(byJdId), n)
    {
      hide NotesExact, BasenameExact, AliasExact, FrontmatterExact, JdSound;
      ghost var v := View();
      var aliases := PushAliases(lower, byAlias, n, byPath);
      var frontmatter := PushFrontmatter(lower, byFrontmatter, n, byPath);
      ForwardAdd(lower, v, n, aliases, frontmatter);
      byPath, notes := byPath[n.path := n], notes + [n];
      byBasename, byAlias := Push(byBasename, lower(n.basename), n), aliases;
      byJdId, byFrontmatter := JdAdd(byJdId, n), frontmatter;
      assert View() == Added(lower, v, n, aliases, frontmatter);
    }

    method RemoveFromForwardMaps(n: Note)
      requires Forward(lower, View(), byPath) && Has(byPath, n)
      modifies this`notes, this`byPath, this`byBasename, this`byAlias, this`byJdId, this`byFrontmatter
      ensures Forward(lower, View(), byPath)
      ensures byPath == old(byPath) - {n.path}
      ensures byJdId == JdRemove(old(byJdId), n)
    {
      hide NotesExact, BasenameExact, AliasExact, FrontmatterExact, JdSound;
      ghost var v := View();
      var aliases := DropAliases(lower, byAlias, n, byPath);
      var frontmatter := DropFrontmatter(lower, byFrontmatter, n, byPath);
      ForwardRemove(lower, v, n, aliases, frontmatter);
      byPath, notes := byPath - {n.path}, RemoveFirst(notes, n.path);
      byBasename, byAlias := Drop(byBasename, lower(n.basename), n), aliases;
      byJdId, byFrontmatter := JdRemove(byJdId, n), frontmatter;
      assert View() == Removed(lower, v, n, aliases, frontmatter);
    }

    method RecomputeAllBacklinks()
      requires Forward(lower, View(), byPath)
      modifies this`backlinks
      ensures Represents(lower, View(), byPath)
    {
      var v := View();
      forall n {
        SortNotesTally(localeBefore, notes, n);
      }
      backlinks := LinkAll(lower, v, SortNotes(localeBefore, notes), byPath);
      assert View() == v.(backlinks := backlinks);
    }

    /** `applyAddOrChange`: re-index one file as it now reads, or leave the index alone when it cannot be read. */
    method ApplyAddOrChange(parsed: Option<Note>)
      requires Valid()
      requires parsed.Some? ==> parsed.value.jdId == jdOf(parsed.value.path)
      modifies this`notes, this`byPath, this`byBasename, this`byAlias, this`byJdId, this`byFrontmatter, this`backlinks
      ensures Valid()
      ensures byPath == After(old(byPath), status, AddOrChange(parsed)).0
      ensures forall id :: old(JdCanonical(byJdId, byPath, id)) ==> JdCanonical(byJdId, byPath, id)
      ensures status != Ready || parsed.None? ==> View() == old(View())
    {
      hide NotesExact, BasenameExact, AliasExact, FrontmatterExact, JdSound, JdCanonical, BacklinksExact;
      if status != Ready {
        return;
      }
      match parsed
      case None =>
      case Some(n) =>
        ghost var ids, N := byJdId, byPath;
        forall id | JdCanonical(ids, N, id) {
          UpsertKeepsJd(ids, N, n, id);
        }
        if n.path in byPath {
          RemoveFromForwardMaps(byPath[n.path]);
        }
        AddToForwardMaps(n);
        RecomputeAllBacklinks();
    }

    /** `applyUnlink`: drop one file from the index, a no-op when it was never there. */
    method ApplyUnlink(path: string)
      requires Valid()
      modifies this`notes, this`byPath, this`byBasename, this`byAlias, this`byJdId, this`byFrontmatter, this`backlinks
      ensures Valid()
      ensures byPath == After(old(byPath), status, Unlink(path)).0
      ensures forall id :: old(JdCanonical(byJdId, byPath, id)) ==>
        (JdCanonical(byJdId, byPath, id) <==> JdKept(old(byPath), status, Unlink(path), id))
      ensures status != Ready || path !in old(byPath) ==> View() == old(View())
    {
      hide NotesExact, BasenameExact, AliasExact, FrontmatterExact, JdSound, JdCanonical, BacklinksExact;
      if status != Ready || path !in byPath {
        return;
      }
      ghost var ids, N := byJdId, byPath;
      forall id | JdCanonical(ids, N, id) {
        UnlinkKeepsJdIffNoRunnerUp(ids, N, N[path], id);
      }
      RemoveFromForwardMaps(byPath[path]);
      RecomputeAllBacklinks();
    }

    /** `_doBuildIndex`: discard everything and index the notes a walk found, or fail to the empty index. */
    method BuildIndex(walked: Option<seq<Note>>)
      requires walked.Some? ==> DistinctPaths(walked.value) && forall n :: n in walked.value ==> n.jdId == jdOf(n.path)
      modifies this
      ensures Valid()
      ensures status == if walked.Some? then Ready else Errored
      ensures byPath == if walked.Some? then NoteSet(walked.value) else map[]
      ensures forall id :: JdCanonical(byJdId, byPath, id)
    {
      hide NotesExact, BasenameExact, AliasExact, FrontmatterExact, JdSound, BacklinksExact, Ascending;
      status, notes, byPath, byBasename, byAlias := Errored, [], map[], map[], map[];
      byJdId, byFrontmatter, backlinks := map[], map[], map[];
      EmptyIsExact(lower);
      match walked
      case None =>
      case Some(found) =>
        var ordered := SortNotes(Less, found);
        SortedWalk(found, ordered);
        var paths, names, aliases, ids := BuildForward(lower, ordered);
        ghost var v := Maps(ordered, paths, names, aliases, ids, map[], map[]);
        var links := LinkAll(lower, Maps(ordered, paths, names, aliases, ids, map[], map[]), ordered, paths);
        var frontmatter := BuildFrontmatter(lower, ordered);
        status, notes, byPath, byBasename, byAlias := Ready, ordered, paths, names, aliases;
        byJdId, byFrontmatter, backlinks := ids, frontmatter, links;
        BacklinksIgnoreFrontmatter(lower, v.(backlinks := links), View(), paths);
    }

    /** A run of queued operations, each against the disk as it was when the operation ran. */
    method Run(ops: seq<Op>)
      requires Valid() && Plausible(jdOf, ops)
      modifies this
      ensures Valid()
      ensures (byPath, status) == AfterRun(old(byPath), old(status), ops)
      ensures forall id ::
        old(JdCanonical(byJdId, byPath, id)) && JdKeptThroughout(old(byPath), old(status), ops, id)
        ==> JdCanonical(byJdId, byPath, id)
    {
      for i := 0 to |ops|
        invariant Valid()
        invariant (byPath, status) == AfterRun(old(byPath), old(status), ops[..i])
        invariant forall id ::
          old(JdCanonical(byJdId, byPath, id)) && JdKeptThroughout(old(byPath), old(status), ops[..i], id)
          ==> JdCanonical(byJdId, byPath, id)
      {
        assert ops[..i + 1][..i] == ops[..i];
        match ops[i]
        case AddOrChange(parsed) => ApplyAddOrChange(parsed);
        case Unlink(path) => ApplyUnlink(path);
        case Build(walked) => BuildIndex(walked);
      }
      assert ops[..|ops|] == ops;
    }
  }

  /** First pass of a rebuild, over the walk in path order. */
  method BuildForward(lower: string -> string, ordered: seq<Note>)
    returns (paths: map<string, Note>, names: Buckets, aliases: Buckets, ids: map<string, Note>)
    requires Ascending(ordered)
    ensures paths == NoteSet(ordered)
    ensures BasenameExact(lower, names, paths) && AliasExact(lower, aliases, paths) && JdSound(ids, paths)
    ensures forall id :: JdCanonical(ids, paths, id)
  {
    hide BasenameExact, AliasExact, JdSound, JdCanonical;
    paths, names, aliases, ids := map[], map[], map[], map[];
    EmptyIsExact(lower);
    for i := 0 to |ordered|
      invariant paths == NoteSet(ordered[..i])
      invariant BasenameExact(lower, names, paths) && AliasExact(lower, aliases, paths) && JdSound(ids, paths)
      invariant forall id :: JdCanonical(ids, paths, id)
    {
      var n := ordered[i];
      NextInWalk(ordered, i);
      PushBasename(lower, names, n, paths);
      names := Push(names, lower(n.basename), n);
      aliases := PushAliases(lower, aliases, n, paths);
      LastOccurrenceWins(ids, paths, n);
      if n.jdId != "" {
        ids := ids[n.jdId := n];
      }
      paths := paths[n.path := n];
    }
    assert ordered[..|ordered|] == ordered;
  }

  /** Last pass of a rebuild: the frontmatter lookup. */
  method BuildFrontmatter(lower: string -> string, ordered: seq<Note>) returns (frontmatter: map<string, Buckets>)
    requires Ascending(ordered)
    ensures FrontmatterExact(lower, frontmatter, NoteSet(ordered))
  {
    hide FrontmatterExact;
    frontmatter := map[];
    EmptyIsExact(lower);
    for i := 0 to |ordered|
      invariant FrontmatterExact(lower, frontmatter, NoteSet(ordered[..i]))
    {
      NextInWalk(ordered, i);
      frontmatter := PushFrontmatter(lower, frontmatter, ordered[i], NoteSet(ordered[..i]));
    }
    assert ordered[..|ordered|] == ordered;
  }

  lemma EmptyIsExact(lower: string -> string)
    ensures BasenameExact(lower, map[], map[]) && AliasExact(lower, map[], map[]) && JdSound(map[], map[])
    ensures FrontmatterExact(lower, map[], map[]) && NotesExact([], map[])
    ensures forall v: Maps :: v.backlinks == map[] ==> BacklinksExact(lower, v, map[])
    ensures forall id :: JdCanonical(map[], map[], id)
  {
  }

  lemma UpsertKeepsJd(m: map<string, Note>, N: Notes, n: Note, id: string)
    requires WellKeyed(N) && JdSound(m, N) && JdCanonical(m, N, id)
    requires n.path in N ==> N[n.path].jdId == n.jdId
    ensures JdCanonical(JdAdd(if n.path in N then JdRemove(m, N[n.path]) else m, n), N[n.path := n], id)
  {
    if n.path in N {
      ChangeKeepsJd(m, N, N[n.path], n, id);
    } else {
      AddKeepsJd(m, N, n, id);
    }
  }

  /** In a walk sorted by path, overwriting unconditionally gives each id its greatest holder. */
  lemma LastOccurrenceWins(m: map<string, Note>, N: Notes, n: Note)
    requires WellKeyed(N) && JdSound(m, N) && (forall id :: JdCanonical(m, N, id))
    requires forall p :: p in N ==> Less(p, n.path)
    ensures var m' := if n.jdId == "" then m else m[n.jdId := n];
      var N' := N[n.path := n];
      JdSound(m', N') && forall id :: JdCanonical(m', N', id)
  {
    LessTotal(n.path, n.path);
    assert m[n.jdId := n] == JdAdd(m, n) || n.jdId == "";
    JdAddSound(m, n, N);
    forall id {
      AddKeepsJd(m, N, n, id);
    }
  }

  lemma {:induction false} NoteSetExact(s: seq<Note>)
    requires DistinctPaths(s)
    ensures forall n :: Has(NoteSet(s), n) <==> n in s
    ensures NotesExact(s, NoteSet(s))
  {
    if s != [] {
      var front, last := s[..|s| - 1], s[|s| - 1];
      assert s == front + [last];
      NoteSetExact(front);
      PushNote(front, last, NoteSet(front));
    }
  }

  lemma SortedWalk(found: seq<Note>, ordered: seq<Note>)
    requires DistinctPaths(found) && ordered == SortNotes(Less, found)
    ensures Ascending(ordered)
    ensures NoteSet(ordered) == NoteSet(found)
    ensures NotesExact(ordered, NoteSet(ordered))
  {
    hide Less, NotesExact;
    SortNotesAscends(found);
    AscendingIsDistinct(ordered);
    NoteSetExact(found);
    NoteSetExact(ordered);
    hide SortNotes, NoteSet, Ascending, DistinctPaths;
    SameNotes(NoteSet(ordered), NoteSet(found));
  }

  lemma AscendingIsDistinct(s: seq<Note>)
    requires Ascending(s)
    ensures DistinctPaths(s)
  {
    forall i, j | 0 <= i < j < |s| {
      LessTotal(s[i].path, s[j].path);
    }
  }

  /** Well-keyed sets that hold the same notes are the same. */
  lemma SameNotes(a: Notes, b: Notes)
    requires WellKeyed(a) && WellKeyed(b) && forall n :: Has(a, n) <==> Has(b, n)
    ensures a == b
  {
    forall p
      ensures p in a <==> p in b
      ensures p in a ==> a[p] == b[p]
    {
      assert p in a ==> Has(a, a[p]);
      assert p in b ==> Has(b, b[p]);
    }
  }

  lemma NextInWalk(ordered: seq<Note>, i: nat)
    requires i < |ordered|
    requires Ascending(ordered)
    ensures forall p :: p in NoteSet(ordered[..i]) ==> Less(p, ordered[i].path)
    ensures ordered[i].path !in NoteSet(ordered[..i])
    ensures NoteSet(ordered[..i + 1]) == NoteSet(ordered[..i])[ordered[i].path := ordered[i]]
  {
    assert ordered[..i + 1][..i] == ordered[..i];
    LessTotal(ordered[i].path, ordered[i].path);
  }

  lemma BacklinksIgnoreFrontmatter(lower: string -> string, v: Maps, v': Maps, N: Notes)
    requires v'.(byFrontmatter := v.byFrontmatter) == v && BacklinksExact(lower, v, N)
    ensures BacklinksExact(lower, v', N)
  {
    assert forall t, p :: ResolvesTo(lower, v, t, p) <==> ResolvesTo(lower, v', t, p);
    assert forall n, p :: LinksTo(lower, v, n, p) <==> LinksTo(lower, v', n, p);
  }

  function Added(lower: string -> string, v: Maps, n: Note, aliases: Buckets, frontmatter: map<string, Buckets>): Maps {
    Maps(v.notes + [n], v.byPath[n.path := n], Push(v.byBasename, lower(n.basename), n), aliases,
         JdAdd(v.byJdId, n), frontmatter, v.backlinks)
  }

  function Removed(lower: string -> string, v: Maps, n: Note, aliases: Buckets, frontmatter: map<string,
                   Buckets>): Maps {
    Maps(RemoveFirst(v.notes, n.path), v.byPath - {n.path}, Drop(v.byBasename, lower(n.basename), n), aliases,
         JdRemove(v.byJdId, n), frontmatter, v.backlinks)
  }

  lemma ForwardAdd(lower: string -> string, v: Maps, n: Note, aliases: Buckets, frontmatter: map<string, Buckets>)
    requires Forward(lower, v, v.byPath) && n.path !in v.byPath
    requires AliasExact(lower, aliases, v.byPath[n.path := n])
    requires FrontmatterExact(lower, frontmatter, v.byPath[n.path := n])
    ensures Forward(lower, Added(lower, v, n, aliases, frontmatter), v.byPath[n.path := n])
  {
    PushNote(v.notes, n, v.byPath);
    PushBasename(lower, v.byBasename, n, v.byPath);
    JdAddSound(v.byJdId, n, v.byPath);
  }

  lemma ForwardRemove(lower: string -> string, v: Maps, n: Note, aliases: Buckets, frontmatter: map<string, Buckets>)
    requires Forward(lower, v, v.byPath) && Has(v.byPath, n)
    requires AliasExact(lower, aliases, v.byPath - {n.path})
    requires FrontmatterExact(lower, frontmatter, v.byPath - {n.path})
    ensures Forward(lower, Removed(lower, v, n, aliases, frontmatter), v.byPath - {n.path})
  {
    DropNote(v.notes, n, v.byPath);
    DropBasename(lower, v.byBasename, n, v.byPath);
    JdRemoveSound(v.byJdId, n, v.byPath);
  }

  lemma PushNote(s: seq<Note>, n: Note, N: Notes)
    requires NotesExact(s, N) && n.path !in N
    ensures NotesExact(s + [n], N[n.path := n])
  {
    forall x {
      TallyAppend(s, [n], x);
    }
  }

  lemma DropNote(s: seq<Note>, n: Note, N: Notes)
    requires NotesExact(s, N) && Has(N, n)
    ensures NotesExact(RemoveFirst(s, n.path), N - {n.path})
  {
    forall x: Note {
      TallyIsMembership(s, x);
    }
    forall x {
      RemoveFirstCounts(s, n, x);
    }
  }

  lemma PushBasename(lower: string -> string, m: Buckets, n: Note, N: Notes)
    requires BasenameExact(lower, m, N) && n.path !in N
    ensures BasenameExact(lower, Push(m, lower(n.basename), n), N[n.path := n])
  {
  }

  lemma DropBasename(lower: string -> string, m: Buckets, n: Note, N: Notes)
    requires BasenameExact(lower, m, N) && Has(N, n)
    ensures BasenameExact(lower, Drop(m, lower(n.basename), n), N - {n.path})
  {
    DropCounts(m, lower(n.basename), n);
  }

  /** Resolution does not read the backlinks. */
  lemma LinksFrame(lower: string -> string, v: Maps, v': Maps, n: Note, p: string)
    requires v'.(backlinks := v.backlinks) == v
    ensures LinksTo(lower, v, n, p) <==> LinksTo(lower, v', n, p)
  {
  }

  lemma JdAddSound(m: map<string, Note>, n: Note, N: Notes)
    requires JdSound(m, N) && n.path !in N
    ensures JdSound(JdAdd(m, n), N[n.path := n])
  {
  }

  lemma JdRemoveSound(m: map<string, Note>, n: Note, N: Notes)
    requires JdSound(m, N) && Has(N, n)
    ensures JdSound(JdRemove(m, n), N - {n.path})
  {
  }

  // ── Backlinks ─────────────────────────────────────────────────────────────

  /** Record the resolved links of one note. */
  method LinkNote(lower: string -> string, v: Maps, b: map<string, seq<string>>, n: Note)
    returns (r: map<string, seq<string>>)
    requires forall p :: Tally(Bucket(b, p), n.path) <= 1
    ensures forall p, q ::
      Tally(Bucket(r, p), q) == if q == n.path && LinksTo(lower, v, n, p) then 1 else Tally(Bucket(b, p), q)
  {
    r := b;
    for i := 0 to |n.outlinks|
      invariant LinkedUpTo(lower, v, n, b, r, i)
    {
      var resolved := ResolveTargetSimple(lower, v, n.outlinks[i]);
      ghost var before := r;
      if resolved.Some? {
        var p := resolved.value.path;
        if n.path !in Bucket(r, p) {
          r := r[p := Bucket(r, p) + [n.path]];
        }
      }
      LinkStep(lower, v, n, b, before, r, i);
    }
    forall p {
      LinksWithinAll(lower, v, n, p);
    }
  }

  /** `r` is `b` with the targets of the first `i` links of `n` recorded. */
  ghost predicate LinkedUpTo(lower: string -> string, v: Maps, n: Note, b: map<string, seq<string>>, r: map<string,
                             seq<string>>, i: nat)
    requires i <= |n.outlinks|
  {
    forall p, q ::
      Tally(Bucket(r, p), q) == if q == n.path && LinksToWithin(lower, v, n, i, p) then 1 else Tally(Bucket(b, p), q)
  }

  lemma LinkStep(lower: string -> string, v: Maps, n: Note, b: map<string, seq<string>>,
                 before: map<string, seq<string>>, r: map<string, seq<string>>, i: nat)
    requires i < |n.outlinks| && LinkedUpTo(lower, v, n, b, before, i)
    requires forall p :: Tally(Bucket(b, p), n.path) <= 1
    requires var t := ResolveTargetSimple(lower, v, n.outlinks[i]);
      r == if t.None? || n.path in Bucket(before, t.value.path) then before
           else before[t.value.path := Bucket(before, t.value.path) + [n.path]]
    ensures LinkedUpTo(lower, v, n, b, r, i + 1)
  {
    hide ResolveTargetSimple, LinksToWithin, Tally;
    forall p, q
      ensures Tally(Bucket(r, p), q)
           == if q == n.path && LinksToWithin(lower, v, n, i + 1, p) then 1 else Tally(Bucket(b, p), q)
    {
      LinksWithinStep(lower, v, n, i, p);
      TallyIsMembership(Bucket(before, p), n.path);
      OneMore(Bucket(before, p), n.path, q);
    }
  }

  lemma OneMore(s: seq<string>, x: string, q: string)
    ensures Tally(s + [x], q) == Tally(s, q) + if q == x then 1 else 0
  {
  }

  /** One of the first `i` links of `n` resolves to `p`. */
  ghost predicate LinksToWithin(lower: string -> string, v: Maps, n: Note, i: nat, p: string)
    requires i <= |n.outlinks|
  {
    exists k :: 0 <= k < i && ResolvesTo(lower, v, n.outlinks[k], p)
  }

  lemma LinksWithinStep(lower: string -> string, v: Maps, n: Note, i: nat, p: string)
    requires i < |n.outlinks|
    ensures LinksToWithin(lower, v, n, i + 1, p)
       <==> LinksToWithin(lower, v, n, i, p) || ResolvesTo(lower, v, n.outlinks[i], p)
  {
  }

  lemma LinksWithinAll(lower: string -> string, v: Maps, n: Note, p: string)
    ensures LinksToWithin(lower, v, n, |n.outlinks|, p) <==> LinksTo(lower, v, n, p)
  {
  }

  /** Record the resolved links of every note, in the given order. */
  method LinkAll(lower: string -> string, v: Maps, ordered: seq<Note>, ghost N: Notes)
    returns (r: map<string, seq<string>>)
    requires WellKeyed(N) && NotesExact(ordered, N)
    ensures BacklinksExact(lower, v.(backlinks := r), N)
  {
    r := map[];
    for i := 0 to |ordered|
      invariant forall p, q ::
        Tally(Bucket(r, p), q)
        == if exists k :: 0 <= k < i && ordered[k].path == q && LinksTo(lower, v, ordered[k], p) then 1 else 0
    {
      r := LinkNote(lower, v, r, ordered[i]);
    }
    forall p, q
      ensures Tally(Bucket(r, p), q) == if q in N && LinksTo(lower, v.(backlinks := r), N[q], p) then 1 else 0
    {
      if q in N {
        LinksFrame(lower, v, v.(backlinks := r), N[q], p);
        TallyIsMembership(ordered, N[q]);
      }
      forall k | 0 <= k < |ordered|
        ensures Has(N, ordered[k])
      {
        TallyIsMembership(ordered, ordered[k]);
      }
    }
  }
}

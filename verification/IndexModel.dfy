/**
 * The in-memory vault index: seven lookup structures updated in place, one file at a time, that must
 * keep agreeing with a full rebuild of the same notes.
 *
 * `lower` stands for `toLowerCase`; everything below holds for any such function.
 * A `map<string, Note>` from path to note is the abstract set of indexed notes.
 */
module IndexModel {
  import opened JsString
  import opened Lexical

  /** `Scalar` carries the text `String(value)` gives; `List` an array value. */
  datatype FrontmatterValue = Scalar(text: string) | List(items: seq<string>)

  /** `jdId` is "" when the filename carries no id: the source tests it for truthiness only. */
  datatype Note = Note(
    path: string,
    basename: string,
    jdId: string,
    aliases: seq<string>,
    outlinks: seq<string>,
    frontmatter: seq<(string, FrontmatterValue)>)

  type Notes = map<string, Note>

  type Buckets = map<string, seq<Note>>

  /** What the index holds at one moment. */
  datatype Maps = Maps(
    notes: seq<Note>,
    byPath: map<string, Note>,
    byBasename: Buckets,
    byAlias: Buckets,
    byJdId: map<string, Note>,
    byFrontmatter: map<string, Buckets>,
    backlinks: map<string, seq<string>>)

  function Values(value: FrontmatterValue): seq<string> {
    match value
    case Scalar(text) => [text]
    case List(items) => items
  }

  function Bucket<T>(m: map<string, seq<T>>, k: string): seq<T> {
    if k in m then m[k] else []
  }

  function FrontmatterBucket(m: map<string, Buckets>, prop: string, v: string): seq<Note> {
    if prop in m then Bucket(m[prop], v) else []
  }

  /** How many times `x` occurs in `s`. */
  function Tally<T(==)>(s: seq<T>, x: T): nat {
    if s == [] then 0 else Tally(s[..|s| - 1], x) + if s[|s| - 1] == x then 1 else 0
  }

  /** `bucket` with its first note of that path spliced out. */
  function RemoveFirst(bucket: seq<Note>, path: string): seq<Note> {
    if bucket == [] then []
    else if bucket[0].path == path then bucket[1..]
    else [bucket[0]] + RemoveFirst(bucket[1..], path)
  }

  // ── What the index must hold, stated from the note set alone ──────────────

  ghost predicate WellKeyed(N: Notes) {
    forall p :: p in N ==> N[p].path == p
  }

  ghost predicate Has(N: Notes, n: Note) {
    n.path in N && N[n.path] == n
  }

  ghost predicate NotesExact(s: seq<Note>, N: Notes) {
    forall n :: Tally(s, n) == if Has(N, n) then 1 else 0
  }

  ghost predicate BasenameExact(lower: string -> string, m: Buckets, N: Notes) {
    && (forall k :: k in m ==> m[k] != [])
    && forall k, n :: Tally(Bucket(m, k), n) == if Has(N, n) && lower(n.basename) == k then 1 else 0
  }

  /** How many of the first `i` aliases fold to `k`: a note sits in a bucket once per such alias. */
  function Occurrences(lower: string -> string, aliases: seq<string>, i: nat, k: string): nat
    requires i <= |aliases|
  {
    if i == 0 then 0 else Occurrences(lower, aliases, i - 1, k) + if lower(aliases[i - 1]) == k then 1 else 0
  }

  ghost predicate AliasExact(lower: string -> string, m: Buckets, N: Notes) {
    && (forall k :: k in m ==> m[k] != [])
    && forall k, n :: Tally(Bucket(m, k), n) == if Has(N, n) then Occurrences(lower, n.aliases, |n.aliases|, k) else 0
  }

  /** Some entry of the first `upTo` carries value `v` under a property folding to `prop`. */
  ghost predicate Carries(lower: string -> string, fm: seq<(string, FrontmatterValue)>, upTo: nat, prop: string,
                          v: string)
    requires upTo <= |fm|
  {
    v != "" && exists i :: 0 <= i < upTo && lower(fm[i].0) == prop && v in Values(fm[i].1)
  }

  ghost predicate FrontmatterExact(lower: string -> string, m: map<string, Buckets>, N: Notes) {
    forall prop, v, n ::
      Tally(FrontmatterBucket(m, prop, v), n)
      == if Has(N, n) && Carries(lower, n.frontmatter, |n.frontmatter|, prop, v) then 1 else 0
  }

  ghost predicate Holds(N: Notes, n: Note, id: string) {
    Has(N, n) && n.jdId == id && id != ""
  }

  /** Every id entry names an indexed note with that id. */
  ghost predicate JdSound(m: map<string, Note>, N: Notes) {
    forall id :: id in m ==> Holds(N, m[id], id)
  }

  /** The entry for `id` is the one a rebuild gives: the holder with the greatest path, or none. */
  ghost predicate JdCanonical(m: map<string, Note>, N: Notes, id: string) {
    && (id in m ==> Holds(N, m[id], id) && forall n :: Holds(N, n, id) ==> n == m[id] || Less(n.path, m[id].path))
    && (id !in m ==> forall n :: !Holds(N, n, id))
  }

  // ── Resolution ────────────────────────────────────────────────────────────

  function WithMd(target: string): string {
    if EndsWith(target, ".md") then target else target + ".md"
  }

  /** `resolveTargetSimple`: the resolver behind backlinks. */
  function ResolveTargetSimple(lower: string -> string, v: Maps, target: string): Option<Note> {
    if target in v.byPath then Some(v.byPath[target])
    else if WithMd(target) in v.byPath then Some(v.byPath[WithMd(target)])
    else if target in v.byJdId then Some(v.byJdId[target])
    else
      var bn := lower(target);
      if |Bucket(v.byBasename, bn)| == 1 then Some(v.byBasename[bn][0])
      else if |Bucket(v.byAlias, bn)| == 1 then Some(v.byAlias[bn][0])
      else None
  }

  datatype MatchedBy = ByPath | ByJdId | ByBasename | ByAlias

  datatype Resolution = Resolved(path: string, matchedBy: MatchedBy) | Ambiguous(candidates: seq<Note>) | Unresolved

  /** `_resolveRefs` on a reference already stripped of brackets, alias and fragment. */
  function ResolveWorking(lower: string -> string, v: Maps, working: string): Resolution {
    if working == "" then Unresolved
    else if working in v.byPath then Resolved(v.byPath[working].path, ByPath)
    else if WithMd(working) in v.byPath then Resolved(v.byPath[WithMd(working)].path, ByPath)
    else if working in v.byJdId then Resolved(v.byJdId[working].path, ByJdId)
    else
      var bn := lower(working);
      var named, aliased := Bucket(v.byBasename, bn), Bucket(v.byAlias, bn);
      if |named| == 1 then Resolved(named[0].path, ByBasename)
      else if |named| > 1 then Ambiguous(named)
      else if |aliased| == 1 then Resolved(aliased[0].path, ByAlias)
      else if |aliased| > 1 then Ambiguous(aliased)
      else Unresolved
  }

  /** The part of a reference that names a note: brackets, `|alias` and `#fragment` removed. */
  function WorkingPart(ref: string): string {
    var t := Trim(ref);
    var body := if At(t, 0, "[[") then t[2..] else t;
    var closed := Trim(if EndsWith(body, "]]") then body[..|body| - 2] else body);
    var noAlias := closed[..IndexOf(closed, '|', 0)];
    Trim(noAlias[..IndexOf(noAlias, '#', 0)])
  }

  function ResolveRef(lower: string -> string, v: Maps, ref: string): Resolution {
    ResolveWorking(lower, v, WorkingPart(ref))
  }

  /** `_getOutlinks`: the note's references, each with its resolution. */
  function GetOutlinks(lower: string -> string, v: Maps, notePath: string): seq<(string, Resolution)> {
    if notePath !in v.byPath then []
    else
      var refs := v.byPath[notePath].outlinks;
      seq(|refs|, i requires 0 <= i < |refs| => (refs[i], ResolveRef(lower, v, refs[i])))
  }

  function GetBacklinks(v: Maps, notePath: string): seq<string> {
    Bucket(v.backlinks, notePath)
  }

  function SearchByFrontmatter(lower: string -> string, v: Maps, property: string, value: string): seq<Note> {
    FrontmatterBucket(v.byFrontmatter, lower(property), value)
  }

  /** `n` carries a link that the maps resolve to `p`. */
  ghost predicate LinksTo(lower: string -> string, v: Maps, n: Note, p: string) {
    exists t :: t in n.outlinks && ResolvesTo(lower, v, t, p)
  }

  predicate ResolvesTo(lower: string -> string, v: Maps, t: string, p: string) {
    var r := ResolveTargetSimple(lower, v, t);
    r.Some? && r.value.path == p
  }

  /** Backlinks are exactly the links the maps resolve, each source listed once. */
  ghost predicate BacklinksExact(lower: string -> string, v: Maps, N: Notes) {
    forall p, q ::
      Tally(Bucket(v.backlinks, p), q) == if q in N && LinksTo(lower, v, N[q], p) then 1 else 0
  }

  /** The six forward structures hold exactly the notes `N`. */
  ghost predicate Forward(lower: string -> string, v: Maps, N: Notes) {
    && WellKeyed(N)
    && NotesExact(v.notes, N)
    && v.byPath == N
    && BasenameExact(lower, v.byBasename, N)
    && AliasExact(lower, v.byAlias, N)
    && FrontmatterExact(lower, v.byFrontmatter, N)
    && JdSound(v.byJdId, N)
  }

  /** The whole index holds exactly the notes `N`: the invariant every operation keeps. */
  ghost predicate Represents(lower: string -> string, v: Maps, N: Notes) {
    Forward(lower, v, N) && BacklinksExact(lower, v, N)
  }
}

/** Any run of single-file updates and rebuilds against one fresh rebuild of the same notes. */
module IndexRuns {
  import opened JsString
  import opened IndexModel
  import opened IndexBuckets
  import opened IndexStore
  import opened IndexLookups

  /** What every caller of either index sees, bucket order aside; `settled` are the ids no unlink has lost. */
  ghost predicate SameAnswers(lower: string -> string, v: Maps, r: Maps, N: Notes, settled: iset<string>) {
    && v.byPath == r.byPath == N
    && (forall k :: multiset(Bucket(v.byBasename, k)) == multiset(Bucket(r.byBasename, k)))
    && (forall k :: multiset(Bucket(v.byAlias, k)) == multiset(Bucket(r.byAlias, k)))
    && (forall prop, value ::
          multiset(SearchByFrontmatter(lower, v, prop, value)) == multiset(SearchByFrontmatter(lower, r, prop, value)))
    && (forall id :: id in settled ==>
         (id in v.byJdId <==> id in r.byJdId) && (id in v.byJdId ==> v.byJdId[id] == r.byJdId[id]))
    && (forall t :: PathSettled(N, settled, t) ==>
          && ResolveTargetSimple(lower, v, t) == ResolveTargetSimple(lower, r, t)
          && SameResolution(ResolveWorking(lower, v, t), ResolveWorking(lower, r, t)))
    && (forall p, q :: q in N && (forall t :: t in N[q].outlinks ==> PathSettled(N, settled, t)) ==>
          (q in GetBacklinks(v, p) <==> q in GetBacklinks(r, p)))
  }

  /** Resolving `t` does not depend on an id that an unlink may have lost. */
  ghost predicate PathSettled(N: Notes, settled: iset<string>, t: string) {
    t in N || WithMd(t) in N || t in settled
  }

  /**
   * Ids a run keeps what a rebuild gives: no unlink since its last rebuild leaves a runner-up. This is enough and not
   * necessary: an id that one unlink has lost can be found again by a later add of a note that bears it.
   */
  ghost function Settled(first: Notes, ops: seq<Op>): iset<string> {
    iset id | JdKeptThroughout(first, Ready, ops, id)
  }

  /** No two indexed notes share an id. */
  ghost predicate UniqueIds(N: Notes) {
    forall m, n, id :: Holds(N, m, id) && Holds(N, n, id) ==> m == n
  }

  ghost predicate UniqueIdsThroughout(first: Notes, ops: seq<Op>) {
    ops != [] ==> UniqueIdsThroughout(first, ops[..|ops| - 1]) && UniqueIds(AfterRun(first, Ready, ops[..|ops| - 1]).0)
  }

  /** While no two notes share an id, every id stays what a rebuild gives. */
  lemma {:induction false} UniqueIdsAreSettled(first: Notes, ops: seq<Op>, id: string)
    requires UniqueIdsThroughout(first, ops)
    ensures id in Settled(first, ops)
  {
    hide AfterRun;
    if ops != [] {
      UniqueIdsAreSettled(first, ops[..|ops| - 1], id);
    }
  }

  /** Build, run any operations, and rebuild from what the vault then holds: both indexes answer alike. */
  method RunThenRebuild(lower: string -> string, localeBefore: (string, string) -> bool, jdOf: string -> string,
                        first: seq<Note>, ops: seq<Op>, now: seq<Note>)
    returns (live: IndexState, rebuilt: IndexState)
    requires DistinctPaths(first) && (forall n :: n in first ==> n.jdId == jdOf(n.path)) && Plausible(jdOf, ops)
    requires DistinctPaths(now) && (forall n :: n in now ==> n.jdId == jdOf(n.path))
    requires NoteSet(now) == AfterRun(NoteSet(first), Ready, ops).0
    ensures live.Valid() && rebuilt.Valid() && rebuilt.status == Ready
    ensures SameAnswers(lower, live.View(), rebuilt.View(), NoteSet(now), Settled(NoteSet(first), ops))
  {
    hide AfterRun, JdKeptThroughout, JdCanonical, Represents, NoteSet;
    live := new IndexState(lower, localeBefore, jdOf);
    live.BuildIndex(Some(first));
    live.Run(ops);
    rebuilt := new IndexState(lower, localeBefore, jdOf);
    rebuilt.BuildIndex(Some(now));
    Agree(lower, live.View(), rebuilt.View(), NoteSet(now), Settled(NoteSet(first), ops));
  }

  lemma Agree(lower: string -> string, v: Maps, r: Maps, N: Notes, settled: iset<string>)
    requires Represents(lower, v, N) && Represents(lower, r, N)
    requires forall id :: JdCanonical(r.byJdId, N, id)
    requires forall id :: id in settled ==> JdCanonical(v.byJdId, N, id)
    ensures SameAnswers(lower, v, r, N, settled)
  {
    hide JdCanonical, BacklinksExact, NotesExact, BasenameExact, AliasExact, FrontmatterExact, JdSound, ResolveWorking;
    hide ResolveTargetSimple;
    IncrementalAgreesWithRebuild(lower, v, r, N);
    forall t | PathSettled(N, settled, t)
      ensures JdSettled(v, N, t)
    {
    }
    forall q | q in N && forall t :: t in N[q].outlinks ==> PathSettled(N, settled, t)
      ensures LinksSettled(v, N, q)
    {
    }
  }
}

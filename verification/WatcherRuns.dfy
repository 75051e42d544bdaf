/** Once everything reported has been applied, the index is what a fresh reading of the disk would give. */
module WatcherRuns {
  import opened JsString
  import opened Splitting
  import opened IndexModel
  import opened IndexStore
  import opened WatcherModel

  /** Notes carry the path they were read from. */
  ghost predicate KeepsPaths(parse: (string, string) -> Note) {
    forall p, t :: parse(p, t).path == p
  }

  /** What reading `p` now would put in the index. */
  function Fresh(parse: (string, string) -> Note, w: World, p: string): Option<Note> {
    if p in w.outside.disk then Some(parse(p, w.outside.disk[p])) else None
  }

  /** What the index should hold for `p`: the note there now, if the walk counts the file as one. */
  function Wanted(parse: (string, string) -> Note, w: World, p: string): Option<Note> {
    if Walked(p) then Fresh(parse, w, p) else None
  }

  /** The parse of the whole disk. */
  function ParseOfDisk(parse: (string, string) -> Note, disk: map<string, string>): Notes {
    map p | p in disk && Walked(p) :: parse(p, disk[p])
  }

  function LastJob(queue: seq<Job>, p: string): Option<Event> {
    if queue == [] then None
    else
      var job := Last(queue);
      if job.Mutate? && job.path == p then Some(job.event) else LastJob(queue[..|queue| - 1], p)
  }

  /** The last event about `p` that has not yet made the index look at the disk. */
  function Pending(w: World, p: string): Option<Event> {
    if Undelivered(w, p) != [] then Some(Last(Undelivered(w, p)))
    else if p in w.outside.timers then Some(w.outside.timers[p])
    else if LastJob(w.queue, p).Some? then LastJob(w.queue, p)
    else if w.work == Opening(p) then Some(Add)
    else None
  }

  ghost predicate IndexFresh(parse: (string, string) -> Note, w: World, p: string) {
    w.store.status == Ready ==> Lookup(w.store.index, p) == Fresh(parse, w, p)
  }

  /** With nothing pending about `p`, the index is right about it, or the work in progress will make it so. */
  ghost predicate Settled(parse: (string, string) -> Note, w: World, p: string) {
    match w.work
    case Opened(q, text) =>
      if p == q then p in w.outside.disk && text == Some(w.outside.disk[p]) else IndexFresh(parse, w, p)
    case Listing(dirty) => p !in dirty && IndexFresh(parse, w, p)
    case Reading(todo, found) =>
      && IndexFresh(parse, w, p)
      && if p in todo then p in w.outside.disk else Lookup(NoteSet(found), p) == Fresh(parse, w, p)
    case _ => IndexFresh(parse, w, p)
  }

  ghost predicate Holds(parse: (string, string) -> Note, w: World, p: string) {
    match Pending(w, p)
    case Some(e) => e == Gone <==> p !in w.outside.disk
    case None => Settled(parse, w, p)
  }

  ghost predicate Inv(parse: (string, string) -> Note, w: World) {
    && (w.work.Opening? || w.work.Opened? ==> w.store.status == Ready)
    && (!w.outside.stopped ==> forall p :: Watched(p) ==> Holds(parse, w, p))
  }

  // ── Paths ─────────────────────────────────────────────────────────────────

  lemma HiddenName(path: string)
    requires path != "" && path[0] == '.'
    ensures IsIgnoredName(Split(path, '/')[0])
  {
  }

  /** A path ends in `.md` exactly when its last part does. */
  lemma MarkdownIsOfTheLastPart(path: string, last: string)
    requires Tail(path, '/', last) && Free(last, '/')
    ensures IsMarkdown(path) <==> IsMarkdown(last)
  {
  }

  /** The watcher sees exactly the walked files whose own name does not begin with a dot. */
  lemma WatchedIffWalkedAndNotDotted(path: string)
    ensures Watched(path) <==> Walked(path) && !("." <= Last(Split(path, '/')))
  {
    hide Split, IsMarkdown;
    var parts := Split(path, '/');
    SplitLast(path, '/');
    MarkdownIsOfTheLastPart(path, Last(parts));
    if path != "" && path[0] == '.' {
      HiddenName(path);
    }
    NamedMarkdown(path, Last(parts));
  }

  /** A markdown name is none of the ignored directories, and not empty. */
  lemma NamedMarkdown(path: string, last: string)
    ensures IsMarkdown(path) ==> path != ""
    ensures IsMarkdown(last) ==> (IsIgnoredName(last) <==> "." <= last)
  {
  }

  // ── Steps ─────────────────────────────────────────────────────────────────

  lemma {:induction false} LastJobBehind(queue: seq<Job>, p: string)
    requires queue != []
    ensures LastJob(queue, p) ==
      if LastJob(queue[1..], p).Some? then LastJob(queue[1..], p)
      else if queue[0].Mutate? && queue[0].path == p then Some(queue[0].event)
      else None
  {
    if |queue| > 1 {
      LastJobBehind(queue[..|queue| - 1], p);
      assert queue[1..][..|queue| - 2] == queue[..|queue| - 1][1..];
    } else {
      assert queue[..0] == [] && queue[1..] == [];
    }
  }

  lemma DiskChangeHolds(parse: (string, string) -> Note, w: World, q: string, text: Option<string>, events: seq<Event>,
                        p: string)
    requires Enabled(w, DiskChange(q, text, events)) && Holds(parse, w, p)
    ensures Holds(parse, Take(parse, w, DiskChange(q, text, events)), p)
  {
  }

  lemma DeliverHolds(parse: (string, string) -> Note, w: World, q: string, p: string)
    requires Enabled(w, Deliver(q)) && !w.outside.stopped && Watched(p) && Holds(parse, w, p)
    ensures Holds(parse, Take(parse, w, Deliver(q)), p)
  {
  }

  lemma TimerHolds(parse: (string, string) -> Note, w: World, q: string, p: string)
    requires Enabled(w, TimerFires(q)) && Holds(parse, w, p)
    ensures Holds(parse, Take(parse, w, TimerFires(q)), p)
  {
  }

  lemma RequestHolds(parse: (string, string) -> Note, w: World, p: string)
    requires Holds(parse, w, p)
    ensures Holds(parse, Take(parse, w, RequestBuild), p)
  {
  }

  lemma DequeuedFrame(w: World)
    requires w.queue != []
    ensures var w' := Dequeued(w);
      && w'.queue == w.queue[1..] && w'.outside.disk == w.outside.disk
      && w'.outside.undelivered == w.outside.undelivered && w'.outside.timers == w.outside.timers
  {
  }

  lemma DequeueHolds(parse: (string, string) -> Note, w: World, p: string)
    requires Enabled(w, Dequeue) && Holds(parse, w, p)
    ensures Holds(parse, Dequeued(w), p)
  {
    LastJobBehind(w.queue, p);
    DequeuedFrame(w);
    if LastJob(w.queue[1..], p).None? && Undelivered(w, p) == [] && p !in w.outside.timers {
      match w.queue[0]
      case Rebuild => HeadRebuild(parse, w, p);
      case Mutate(event, q) =>
        if event == Gone {
          HeadGone(parse, w, p);
        } else {
          HeadRead(parse, w, p);
        }
    }
  }

  /** The job at the head is the last word on `p`, or none is about it. */
  ghost predicate HeadDecides(parse: (string, string) -> Note, w: World, p: string)
    requires w.queue != []
  {
    && w.work.Idle? && Holds(parse, w, p)
    && LastJob(w.queue[1..], p).None? && Undelivered(w, p) == [] && p !in w.outside.timers
    && LastJob(w.queue, p) == if w.queue[0].Mutate? && w.queue[0].path == p then Some(w.queue[0].event) else None
  }

  lemma HeadRebuild(parse: (string, string) -> Note, w: World, p: string)
    requires w.queue != [] && HeadDecides(parse, w, p) && w.queue[0].Rebuild?
    ensures Holds(parse, Dequeued(w), p)
  {
  }

  lemma HeadGone(parse: (string, string) -> Note, w: World, p: string)
    requires w.queue != [] && HeadDecides(parse, w, p) && w.queue[0].Mutate? && w.queue[0].event == Gone
    ensures Holds(parse, Dequeued(w), p)
  {
  }

  lemma HeadRead(parse: (string, string) -> Note, w: World, p: string)
    requires w.queue != [] && HeadDecides(parse, w, p) && w.queue[0].Mutate? && w.queue[0].event != Gone
    ensures Holds(parse, Dequeued(w), p)
  {
  }

  lemma FileWorkHolds(parse: (string, string) -> Note, w: World, step: Step, p: string)
    requires KeepsPaths(parse) && Enabled(w, step) && Holds(parse, w, p)
    requires step.FileRead? || (step.Commit? && w.store.status == Ready)
    ensures Holds(parse, Take(parse, w, step), p)
  {
  }

  lemma ListedHolds(parse: (string, string) -> Note, w: World, paths: set<string>, p: string)
    requires Enabled(w, Listed(paths)) && Watched(p) && Holds(parse, w, p)
    ensures Holds(parse, Take(parse, w, Listed(paths)), p)
  {
    WatchedIffWalkedAndNotDotted(p);
    hide LastJob, Watched, Walked;
  }

  lemma FoundLookup(parse: (string, string) -> Note, found: seq<Note>, q: string, text: Option<string>, p: string)
    requires KeepsPaths(parse)
    ensures Lookup(NoteSet(Found(parse, found, q, text)), p)
         == if p == q && text.Some? then Some(parse(q, text.value)) else Lookup(NoteSet(found), p)
  {
    if text.Some? {
      assert (found + [parse(q, text.value)])[..|found|] == found;
    }
  }

  lemma ReadHolds(parse: (string, string) -> Note, w: World, q: string, p: string)
    requires KeepsPaths(parse) && Enabled(w, ReadOne(q)) && Holds(parse, w, p)
    ensures Holds(parse, Take(parse, w, ReadOne(q)), p)
  {
    hide LastJob, NoteSet, Found, KeepsPaths;
    FoundLookup(parse, w.work.found, q, Lookup(w.outside.disk, q), p);
  }

  lemma BuildEndHolds(parse: (string, string) -> Note, w: World, step: Step, p: string)
    requires Enabled(w, step) && Holds(parse, w, p) && (step.BuildDone? || step.BuildFails?)
    ensures Holds(parse, Take(parse, w, step), p)
  {
  }

  lemma StepKeeps(parse: (string, string) -> Note, w: World, step: Step)
    requires KeepsPaths(parse) && Inv(parse, w)
    ensures Inv(parse, Take(parse, w, step))
  {
    hide Holds, Watched;
    if Enabled(w, step) && !Take(parse, w, step).outside.stopped {
      forall p | Watched(p)
        ensures Holds(parse, Take(parse, w, step), p)
      {
        match step
        case DiskChange(q, text, events) => DiskChangeHolds(parse, w, q, text, events, p);
        case Deliver(q) => DeliverHolds(parse, w, q, p);
        case TimerFires(q) => TimerHolds(parse, w, q, p);
        case RequestBuild => RequestHolds(parse, w, p);
        case Stop =>
        case Dequeue => DequeueHolds(parse, w, p);
        case FileRead => FileWorkHolds(parse, w, step, p);
        case Commit => FileWorkHolds(parse, w, step, p);
        case Listed(paths) => ListedHolds(parse, w, paths, p);
        case ReadOne(q) => ReadHolds(parse, w, q, p);
        case BuildDone => BuildEndHolds(parse, w, step, p);
        case BuildFails => BuildEndHolds(parse, w, step, p);
      }
    }
  }

  lemma {:induction false} RunKeeps(parse: (string, string) -> Note, disk: map<string, string>, steps: seq<Step>)
    requires KeepsPaths(parse)
    ensures Inv(parse, AfterSteps(parse, disk, steps))
  {
    if steps == [] {
    } else {
      RunKeeps(parse, disk, steps[..|steps| - 1]);
      StepKeeps(parse, AfterSteps(parse, disk, steps[..|steps| - 1]), Last(steps));
    }
  }

  // ── What can be in the index ──────────────────────────────────────────────

  /** No note of the first disk, and none written later, has a name the watcher filters. */
  ghost predicate NoDottedNotes(disk: map<string, string>, steps: seq<Step>) {
    && (forall p :: p in disk && Walked(p) ==> Watched(p))
    && forall i :: 0 <= i < |steps| && steps[i].DiskChange? && steps[i].text.Some? && Walked(steps[i].path) ==>
         Watched(steps[i].path)
  }

  /** The paths that may be indexed, when notes with filtered names may be on disk and when not. */
  predicate Admitted(p: string, dotted: bool) {
    if dotted then Walked(p) else Watched(p)
  }

  ghost predicate DiskAdmitted(disk: map<string, string>, dotted: bool) {
    forall p :: p in disk && Walked(p) ==> Admitted(p, dotted)
  }

  /** Nothing but admitted paths is indexed or on its way into the index. */
  ghost predicate HoldsOnly(w: World, dotted: bool) {
    && DiskAdmitted(w.outside.disk, dotted)
    && (forall p :: p in w.store.index ==> Admitted(p, dotted))
    && (forall p :: p in w.outside.timers ==> Watched(p))
    && (forall i :: 0 <= i < |w.queue| && w.queue[i].Mutate? ==> Watched(w.queue[i].path))
    && match w.work
       case Opening(p) => Watched(p)
       case Opened(p, _) => Watched(p)
       case Reading(todo, found) =>
         (forall p :: p in todo ==> Walked(p)) && forall i :: 0 <= i < |found| ==> Admitted(found[i].path, dotted)
       case _ => true
  }

  lemma WatchedIsAdmitted(p: string, dotted: bool)
    requires Watched(p)
    ensures Admitted(p, dotted)
  {
    hide Watched, Walked;
    WatchedIffWalkedAndNotDotted(p);
  }

  lemma {:induction false} NoteSetOnly(found: seq<Note>, dotted: bool)
    requires forall i :: 0 <= i < |found| ==> Admitted(found[i].path, dotted)
    ensures forall p :: p in NoteSet(found) ==> Admitted(p, dotted)
  {
  }

  lemma QueueHoldsOnly(parse: (string, string) -> Note, w: World, step: Step, dotted: bool)
    requires HoldsOnly(w, dotted) && Enabled(w, step) && (step.Deliver? || step.TimerFires? || step.Dequeue?)
    ensures HoldsOnly(Take(parse, w, step), dotted)
  {
    hide Watched, Walked, Admitted;
  }

  lemma WorkHoldsOnly(parse: (string, string) -> Note, w: World, step: Step, dotted: bool)
    requires KeepsPaths(parse) && HoldsOnly(w, dotted) && Enabled(w, step)
    requires step.FileRead? || step.Commit? || step.Listed? || step.ReadOne? || step.BuildDone? || step.BuildFails?
    ensures HoldsOnly(Take(parse, w, step), dotted)
  {
    hide Watched, Walked, Admitted;
    if step.Commit? {
      WatchedIsAdmitted(w.work.path, dotted);
    } else if step.BuildDone? {
      NoteSetOnly(w.work.found, dotted);
    }
  }

  lemma StepHoldsOnly(parse: (string, string) -> Note, w: World, step: Step, dotted: bool)
    requires KeepsPaths(parse) && HoldsOnly(w, dotted)
    requires step.DiskChange? && step.text.Some? && Walked(step.path) ==> Admitted(step.path, dotted)
    ensures HoldsOnly(Take(parse, w, step), dotted)
  {
    hide Watched, Walked, Admitted;
    if !Enabled(w, step) {
    } else if step.Deliver? || step.TimerFires? || step.Dequeue? {
      QueueHoldsOnly(parse, w, step, dotted);
    } else if !step.DiskChange? && !step.RequestBuild? && !step.Stop? {
      WorkHoldsOnly(parse, w, step, dotted);
    }
  }

  lemma {:induction false} RunHoldsOnly(parse: (string, string) -> Note, disk: map<string, string>, steps: seq<Step>,
                                        dotted: bool)
    requires KeepsPaths(parse) && (dotted || NoDottedNotes(disk, steps))
    ensures HoldsOnly(AfterSteps(parse, disk, steps), dotted)
  {
    hide Watched, Walked, Take;
    if steps == [] {
    } else {
      var front := steps[..|steps| - 1];
      assert forall i :: 0 <= i < |front| ==> front[i] == steps[i];
      RunHoldsOnly(parse, disk, front, dotted);
      StepHoldsOnly(parse, AfterSteps(parse, disk, front), Last(steps), dotted);
    }
  }

  // ── Quiescence ────────────────────────────────────────────────────────────

  /** Nothing is left to deliver, to fire, to run or to finish, and the index serves. */
  ghost predicate Quiet(w: World) {
    && (forall p :: Undelivered(w, p) == [])
    && w.outside.timers == map[] && w.queue == [] && w.work.Idle? && !w.outside.stopped && w.store.status == Ready
  }

  /** In every quiet state the index is right about each path that, if it is walked, is watched too. */
  lemma QuietPathIsRight(parse: (string, string) -> Note, disk: map<string, string>, steps: seq<Step>, p: string)
    requires KeepsPaths(parse) && (Walked(p) ==> Watched(p)) && Quiet(AfterSteps(parse, disk, steps))
    ensures var w := AfterSteps(parse, disk, steps); Lookup(w.store.index, p) == Wanted(parse, w, p)
  {
    hide AfterSteps, Watched, Walked;
    RunKeeps(parse, disk, steps);
    RunHoldsOnly(parse, disk, steps, true);
    WatchedIffWalkedAndNotDotted(p);
    var w := AfterSteps(parse, disk, steps);
    if Watched(p) {
      assert Holds(parse, w, p);
      assert LastJob(w.queue, p).None?;
    }
  }

  /** While no walked file has a name the watcher filters, a quiet index is the parse of the disk, with nothing over. */
  lemma QuietIndexMatchesDisk(parse: (string, string) -> Note, disk: map<string, string>, steps: seq<Step>)
    requires KeepsPaths(parse) && NoDottedNotes(disk, steps) && Quiet(AfterSteps(parse, disk, steps))
    ensures var w := AfterSteps(parse, disk, steps); w.store.index == ParseOfDisk(parse, w.outside.disk)
  {
    hide AfterSteps, Watched, Walked, Quiet, NoDottedNotes;
    RunHoldsOnly(parse, disk, steps, false);
    var w := AfterSteps(parse, disk, steps);
    forall p
      ensures Lookup(w.store.index, p) == Lookup(ParseOfDisk(parse, w.outside.disk), p)
    {
      if Walked(p) ==> Watched(p) {
        QuietPathIsRight(parse, disk, steps, p);
      }
    }
    SameLookups(w.store.index, ParseOfDisk(parse, w.outside.disk));
  }

  lemma SameLookups(m: Notes, n: Notes)
    requires forall p :: Lookup(m, p) == Lookup(n, p)
    ensures m == n
  {
    forall p
      ensures p in m <==> p in n
      ensures p in m ==> m[p] == n[p]
    {
      assert Lookup(m, p) == Lookup(n, p);
    }
  }

  /** A rebuild that lists an empty vault, and then a file created and reported. */
  function CreateAfterBuild(p: string): seq<Step> {
    EMPTY_BUILD + [DiskChange(p, Some(""), [Add])] + [Deliver(p)]
  }

  const READY_AND_EMPTY: World := Start(map[]).(store := Store(map[], Ready, [Build(Some([]))]))

  const EMPTY_BUILD: seq<Step> := [RequestBuild] + [Dequeue] + [Listed({})] + [BuildDone]

  lemma Extend(parse: (string, string) -> Note, steps: seq<Step>, step: Step)
    ensures AfterSteps(parse, map[], steps + [step]) == Take(parse, AfterSteps(parse, map[], steps), step)
  {
  }

  lemma EmptyBuild(parse: (string, string) -> Note)
    ensures AfterSteps(parse, map[], EMPTY_BUILD) == READY_AND_EMPTY
  {
    hide Take;
    assert AfterSteps(parse, map[], []) == Start(map[]);
    Extend(parse, [], RequestBuild);
    assert [] + [RequestBuild] == [RequestBuild];
    Extend(parse, [RequestBuild], Dequeue);
    Extend(parse, [RequestBuild] + [Dequeue], Listed({}));
    Extend(parse, [RequestBuild] + [Dequeue] + [Listed({})], BuildDone);
    BuildSteps(parse);
  }

  lemma BuildSteps(parse: (string, string) -> Note)
    ensures Take(parse, Take(parse, Take(parse, Take(parse, Start(map[]), RequestBuild),
                 Dequeue), Listed({})), BuildDone)
         == READY_AND_EMPTY
  {
  }

  /** A walked path the watcher filters out can be on disk and missing from a quiet index. */
  lemma UnwatchedPathGoesStale(parse: (string, string) -> Note, p: string)
    requires Walked(p) && !Watched(p)
    ensures var w := AfterSteps(parse, map[], CreateAfterBuild(p));
      Quiet(w) && Lookup(w.store.index, p) != Wanted(parse, w, p)
  {
    hide AfterSteps, Watched, Walked;
    EmptyBuild(parse);
    Extend(parse, EMPTY_BUILD, DiskChange(p, Some(""), [Add]));
    Extend(parse, EMPTY_BUILD + [DiskChange(p, Some(""), [Add])], Deliver(p));
    assert [Add][1..] == [];
  }

  /** Such a path: a note whose own name begins with a dot. */
  lemma DotNoteIsNotWatched()
    ensures Walked(".a.md") && !Watched(".a.md")
  {
    assert Split(".a.md", '/') == [".a.md"] by { SplitWhole(".a.md", '/'); }
  }

  lemma DotNoteGoesStale(parse: (string, string) -> Note)
    ensures var w := AfterSteps(parse, map[], CreateAfterBuild(".a.md"));
      Quiet(w) && Lookup(w.store.index, ".a.md") != Wanted(parse, w, ".a.md")
  {
    DotNoteIsNotWatched();
    UnwatchedPathGoesStale(parse, ".a.md");
  }

  /** A path is right in every quiet state of every run exactly when it is not walked, or walked and watched. */
  lemma PathFollowsDiskIff(parse: (string, string) -> Note, p: string)
    requires KeepsPaths(parse)
    ensures (Walked(p) ==> Watched(p)) <==> forall disk, steps ::
      Quiet(AfterSteps(parse, disk, steps)) ==>
        Lookup(AfterSteps(parse, disk, steps).store.index, p) == Wanted(parse, AfterSteps(parse, disk, steps), p)
  {
    hide AfterSteps, Watched, Walked, Quiet;
    if Walked(p) ==> Watched(p) {
      forall disk, steps | Quiet(AfterSteps(parse, disk, steps))
        ensures Lookup(AfterSteps(parse, disk, steps).store.index, p)
             == Wanted(parse, AfterSteps(parse, disk, steps), p)
      {
        QuietPathIsRight(parse, disk, steps, p);
      }
    } else {
      UnwatchedPathGoesStale(parse, p);
    }
  }

  /** A step runs at most one operation on the index. */
  lemma StepRunsAnOperation(parse: (string, string) -> Note, w: World, step: Step)
    ensures var w' := Take(parse, w, step);
      (w'.store.index == w.store.index && w'.store.status == w.store.status && w'.store.ops == w.store.ops)
      || exists op ::
           w'.store.ops == w.store.ops + [op]
           && (w'.store.index, w'.store.status) == After(w.store.index, w.store.status, op)
  {
  }

  /** The index reached is the one its operations give, rebuilds and single-file updates in order. */
  lemma {:induction false} IndexIsItsOperations(parse: (string, string) -> Note, disk: map<string, string>,
                                                steps: seq<Step>)
    ensures var w := AfterSteps(parse, disk, steps);
      (w.store.index, w.store.status) == AfterRun(map[], Indexing, w.store.ops)
  {
    hide Take, After;
    if steps == [] {
    } else {
      IndexIsItsOperations(parse, disk, steps[..|steps| - 1]);
      var w, w' := AfterSteps(parse, disk, steps[..|steps| - 1]), AfterSteps(parse, disk, steps);
      StepRunsAnOperation(parse, w, Last(steps));
      assert w'.store.ops != w.store.ops ==> w'.store.ops[..|w'.store.ops| - 1] == w.store.ops;
    }
  }
}

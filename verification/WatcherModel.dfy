/**
 * The watcher and the mutation queue in front of the index: a state machine over the disk, the events not
 * yet delivered, the debounce timers, the queue, and the one piece of work in progress.
 * Paths are relative to the vault root.
 */
module WatcherModel {
  import opened JsString
  import opened Splitting
  import opened IndexModel
  import opened IndexStore

  // ── Which files count ─────────────────────────────────────────────────────

  predicate IsIgnoredName(name: string) {
    name in {".obsidian", ".trash", ".git", "node_modules"} || "." <= name
  }

  /** `.toLowerCase().endsWith(".md")`. */
  predicate IsMarkdown(name: string) {
    |name| >= 3 && name[|name| - 3] == '.' && name[|name| - 2] in {'m', 'M'} && name[|name| - 1] in {'d', 'D'}
  }

  /** What `walkVault` picks up: directories are filtered by name, files only by extension. */
  predicate Walked(path: string) {
    var parts := Split(path, '/');
    (forall i :: 0 <= i < |parts| - 1 ==> !IsIgnoredName(parts[i])) && IsMarkdown(Last(parts))
  }

  /** What the watcher lets through: every part is filtered by name. */
  predicate Watched(path: string) {
    var parts := Split(path, '/');
    path != "" && !(".." <= path) && (forall i :: 0 <= i < |parts| ==> !IsIgnoredName(parts[i])) && IsMarkdown(path)
  }

  // ── State ─────────────────────────────────────────────────────────────────

  datatype Event = Add | Change | Gone

  datatype Job = Mutate(event: Event, path: string) | Rebuild

  /** `Listing` remembers the paths touched since it began; `Reading` what is still to be read. */
  datatype Work =
    | Idle
    | Opening(path: string)
    | Opened(path: string, text: Option<string>)
    | Listing(dirty: set<string>)
    | Reading(todo: set<string>, found: seq<Note>)

  /** What is outside the queue: the disk, and what of it has been reported. */
  datatype Outside = Outside(disk: map<string, string>, undelivered: map<string, seq<Event>>,
                             timers: map<string, Event>, stopped: bool)

  /** The index, and the operations that led to it. */
  datatype Store = Store(index: Notes, status: Status, ops: seq<Op>)

  datatype World = World(outside: Outside, queue: seq<Job>, work: Work, building: bool, store: Store)

  datatype Step =
    /** A path is written or removed; `events` is all that is then still to be reported about it. */
    | DiskChange(path: string, text: Option<string>, events: seq<Event>)
    | Deliver(path: string)
    | TimerFires(path: string)
    | RequestBuild
    | Stop
    | Dequeue
    | FileRead
    | Commit
    | Listed(paths: set<string>)
    | ReadOne(path: string)
    | BuildDone
    | BuildFails

  function Start(disk: map<string, string>): World {
    World(Outside(disk, map[], map[], false), [], Idle, false, Store(map[], Indexing, []))
  }

  function Lookup<T>(m: map<string, T>, p: string): Option<T> {
    if p in m then Some(m[p]) else None
  }

  function Undelivered(w: World, p: string): seq<Event> {
    if p in w.outside.undelivered then w.outside.undelivered[p] else []
  }

  /** Run one operation against the index. */
  function Apply(s: Store, op: Op): Store {
    var (index, status) := After(s.index, s.status, op);
    Store(index, status, s.ops + [op])
  }

  /**
   * What each step needs. A change is reported at least once, and the last report says whether the file is
   * there; a walk lists exactly the notes present, save for those touched while it ran.
   */
  ghost predicate Enabled(w: World, step: Step) {
    match step
    case DiskChange(p, text, events) => events != [] && (Last(events) == Gone <==> text.None?)
    case Deliver(p) => Undelivered(w, p) != []
    case TimerFires(p) => p in w.outside.timers
    case RequestBuild => true
    case Stop => true
    case Dequeue => w.work.Idle? && w.queue != []
    case FileRead => w.work.Opening?
    case Commit => w.work.Opened?
    case Listed(paths) =>
      && w.work.Listing? && (forall p :: p in paths ==> Walked(p))
      && forall p :: p !in w.work.dirty ==> (p in paths <==> p in w.outside.disk && Walked(p))
    case ReadOne(p) => w.work.Reading? && p in w.work.todo
    case BuildDone => w.work.Reading? && w.work.todo == {}
    case BuildFails => w.work.Listing? || w.work.Reading?
  }

  /** `onEvent`: setting the timer of a path again replaces what was to be applied. */
  function Schedule(timers: map<string, Event>, stopped: bool, path: string, event: Event): map<string, Event> {
    if stopped || !Watched(path) then timers else timers[path := event]
  }

  function Delivered(o: Outside, p: string): Outside
    requires p in o.undelivered && o.undelivered[p] != []
  {
    o.(undelivered := o.undelivered[p := o.undelivered[p][1..]],
       timers := Schedule(o.timers, o.stopped, p, o.undelivered[p][0]))
  }

  /** The timer of `p` hands its latest event, and only that, to the queue. */
  function Fired(timers: map<string, Event>, queue: seq<Job>, p: string): (map<string, Event>, seq<Job>)
    requires p in timers
  {
    (timers - {p}, queue + [Mutate(timers[p], p)])
  }

  /** The first stop cancels every timer. */
  function AtStop(timers: map<string, Event>, stopped: bool): map<string, Event> {
    if stopped then timers else map[]
  }

  function Dequeued(w: World): World
    requires w.queue != []
  {
    match w.queue[0]
    case Rebuild => w.(queue := w.queue[1..], work := Listing({}))
    case Mutate(event, p) =>
      if event == Gone then w.(queue := w.queue[1..], store := Apply(w.store, Unlink(p)))
      else w.(queue := w.queue[1..], work := if w.store.status != Ready then w.work else Opening(p))
  }

  function Parsed(parse: (string, string) -> Note, p: string, text: Option<string>): Option<Note> {
    if text.Some? then Some(parse(p, text.value)) else None
  }

  function Written(disk: map<string, string>, p: string, text: Option<string>): map<string, string> {
    if text.Some? then disk[p := text.value] else disk - {p}
  }

  /** A file that cannot be read is skipped. */
  function Found(parse: (string, string) -> Note, found: seq<Note>, p: string, text: Option<string>): seq<Note> {
    if text.Some? then found + [parse(p, text.value)] else found
  }

  ghost function Take(parse: (string, string) -> Note, w: World, step: Step): World {
    if !Enabled(w, step) then w
    else
      match step
      case DiskChange(p, text, events) =>
        w.(outside := w.outside.(disk := Written(w.outside.disk, p, text),
                                 undelivered := w.outside.undelivered[p := events]),
           work := if w.work.Listing? then Listing(w.work.dirty + {p}) else w.work)
      case Deliver(p) => w.(outside := Delivered(w.outside, p))
      case TimerFires(p) =>
        var (timers, queue) := Fired(w.outside.timers, w.queue, p);
        w.(outside := w.outside.(timers := timers), queue := queue)
      case RequestBuild => if w.building then w else w.(building := true, queue := w.queue + [Rebuild])
      case Stop => w.(outside := w.outside.(stopped := true, timers := AtStop(w.outside.timers, w.outside.stopped)))
      case Dequeue => Dequeued(w)
      case FileRead => w.(work := Opened(w.work.path, Lookup(w.outside.disk, w.work.path)))
      case Commit => w.(work := Idle, store := Apply(w.store, AddOrChange(Parsed(parse, w.work.path, w.work.text))))
      case Listed(paths) => w.(work := Reading(paths, []))
      case ReadOne(p) =>
        w.(work := Reading(w.work.todo - {p}, Found(parse, w.work.found, p, Lookup(w.outside.disk, p))))
      case BuildDone => w.(work := Idle, building := false, store := Apply(w.store, Build(Some(w.work.found))))
      case BuildFails => w.(work := Idle, building := false, store := Apply(w.store, Build(None)))
  }

  ghost function AfterSteps(parse: (string, string) -> Note, disk: map<string, string>, steps: seq<Step>): World {
    if steps == [] then Start(disk)
    else Take(parse, AfterSteps(parse, disk, steps[..|steps| - 1]), steps[|steps| - 1])
  }

  // ── The watcher object ────────────────────────────────────────────────────

  /** `startVaultWatcher`'s closure: the latest event per path, and what its timers hand to the queue. */
  class VaultWatcher {
    var pathState: map<string, Event>
    var stopped: bool
    var queue: seq<Job>

    constructor ()
      ensures pathState == map[] && !stopped && queue == []
    {
      pathState, stopped, queue := map[], false, [];
    }

    method OnEvent(event: Event, path: string)
      modifies this`pathState
      ensures pathState == Schedule(old(pathState), stopped, path, event)
    {
      if ShouldIgnore(path) {
        return;
      }
      if !IsMarkdown(path) {
        return;
      }
      ScheduleMutation(event, path);
    }

    static predicate ShouldIgnore(path: string) {
      path == "" || ".." <= path || exists i :: 0 <= i < |Split(path, '/')| && IsIgnoredName(Split(path, '/')[i])
    }

    method ScheduleMutation(event: Event, path: string)
      modifies this`pathState
      ensures pathState == if stopped then old(pathState) else old(pathState)[path := event]
    {
      if stopped {
        return;
      }
      pathState := pathState[path := event];
    }

    /** What the timer of `path` runs. */
    method TimerFired(path: string)
      requires path in pathState
      modifies this`pathState, this`queue
      ensures (pathState, queue) == Fired(old(pathState), old(queue), path)
    {
      var final := pathState[path];
      pathState := pathState - {path};
      queue := queue + [Mutate(final, path)];
    }

    method StopWatching()
      modifies this`pathState, this`stopped
      ensures stopped && pathState == AtStop(old(pathState), old(stopped))
    {
      if stopped {
        return;
      }
      stopped := true;
      pathState := map[];
    }
  }
}

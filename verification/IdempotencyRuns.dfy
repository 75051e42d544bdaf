/**
 * Every interleaving of claims and settlements: who may own a key, what waiters and replays are given,
 * and when a key can be owned a second time.
 */
module IdempotencyRuns {
  import opened JsString
  import opened IdempotencyModel

  /** What happened to a key; `Stored` and `Hit` make it the most recently used. */
  datatype Event =
    | Owned(key: string, token: nat)
    | Thrown(key: string, token: nat)
    | Stored(key: string, at: int)
    | Hit(key: string)
    | TimedOut(key: string, at: int)
    | Evicted(key: string)

  type Log = seq<Event>

  datatype Ticket = Ticket(key: string, req: Request)

  /** `tickets` records every owner ever admitted; `log` everything that happened. */
  datatype World = World(store: Store, tickets: map<nat, Ticket>, log: Log)

  datatype Step = Claims(key: string, req: Request, now: int) | Settles(token: nat, end: Settlement, now: int)

  const START := World(Store([], map[], map[], 0), map[], [])

  // ── Steps ─────────────────────────────────────────────────────────────────

  function Evictions(es: Entries, max: nat): Log {
    if |es| > max then [Evicted(es[0].0)] + Evictions(es[1..], max) else []
  }

  function ClaimEvents(cfg: Config, s: Store, key: string, now: int): Log {
    if key in s.reservations then []
    else
      match Find(s.entries, key)
      case None => [Owned(key, s.next)]
      case Some(e) => if Expired(cfg, e, now) then [TimedOut(key, now), Owned(key, s.next)] else [Hit(key)]
  }

  function SettleEvents(cfg: Config, s: Store, key: string, req: Request, token: nat, end: Settlement, now: int): Log {
    if key !in s.reservations || s.reservations[key].token != token then []
    else if end.Threw? then [Thrown(key, token)]
    else [Stored(key, now)] + Evictions(Put(s.entries, key, Entry(req, end.result, end.ts, now)), cfg.max)
  }

  function Take(cfg: Config, w: World, step: Step): World {
    match step
    case Claims(key, req, now) =>
      var (s, claim) := Present(cfg, w.store, key, req, now);
      World(s, if claim.Owner? then w.tickets[claim.token := Ticket(key, req)] else w.tickets,
            w.log + ClaimEvents(cfg, w.store, key, now))
    case Settles(token, end, now) =>
      if token !in w.tickets then w
      else
        var t := w.tickets[token];
        World(Settle(cfg, w.store, t.key, t.req, token, end, now), w.tickets,
              w.log + SettleEvents(cfg, w.store, t.key, t.req, token, end, now))
  }

  function After(cfg: Config, steps: seq<Step>): World {
    if steps == [] then START else Take(cfg, After(cfg, steps[..|steps| - 1]), steps[|steps| - 1])
  }

  // ── Reading the log ───────────────────────────────────────────────────────

  predicate Releases(e: Event, key: string) {
    e.key == key && (e.Thrown? || e.TimedOut? || e.Evicted?)
  }

  predicate Touches(e: Event) {
    e.Stored? || e.Hit?
  }

  /** `key` has an owner whose claim or outcome nothing has released since. */
  predicate Held(log: Log, key: string) {
    log != [] &&
    var e := log[|log| - 1];
    if e.Owned? && e.key == key then true
    else if Releases(e, key) then false
    else Held(log[..|log| - 1], key)
  }

  /** The keys stored or hit since `key` last was. */
  function Since(log: Log, key: string): (r: set<string>)
    ensures key !in r
  {
    if log == [] then {}
    else
      var e := log[|log| - 1];
      if !Touches(e) then Since(log[..|log| - 1], key)
      else if e.key == key then {}
      else Since(log[..|log| - 1], key) + {e.key}
  }

  /** When `key` was last stored. */
  function StoredAt(log: Log, key: string): Option<int> {
    if log == [] then None
    else
      var e := log[|log| - 1];
      if e.Stored? && e.key == key then Some(e.at) else StoredAt(log[..|log| - 1], key)
  }

  /** What each event needs of the log before it. */
  predicate Justified(cfg: Config, log: Log, e: Event) {
    match e
    case Owned(key, _) => !Held(log, key)
    case TimedOut(key, at) => StoredAt(log, key).Some? && at - StoredAt(log, key).value >= cfg.ttl
    case Evicted(key) => |Since(log, key)| >= cfg.max
    case _ => true
  }

  predicate Fair(cfg: Config, log: Log) {
    log == [] || (Fair(cfg, log[..|log| - 1]) && Justified(cfg, log[..|log| - 1], log[|log| - 1]))
  }

  lemma LogStep(log: Log, e: Event)
    ensures (log + [e])[..|log|] == log && (log + [e])[|log|] == e
  {
  }

  // ── The invariant ─────────────────────────────────────────────────────────

  /** Entries stand in the order of their last use. */
  ghost predicate InOrder(es: Entries, log: Log) {
    forall i, j :: 0 <= i < j < |es| ==> es[j].0 in Since(log, es[i].0)
  }

  ghost predicate Dated(es: Entries, log: Log) {
    forall i :: 0 <= i < |es| ==> StoredAt(log, es[i].0) == Some(es[i].1.storedAt)
  }

  /** Some owner of this key and request returned exactly this. */
  ghost predicate HasOrigin(w: World, key: string, e: Entry) {
    exists t :: t in w.tickets && t in w.store.promises && w.tickets[t] == Ticket(key, e.req)
             && w.store.promises[t] == Returned(e.result, e.ts)
  }

  ghost predicate Originated(w: World) {
    forall i :: 0 <= i < |w.store.entries| ==> HasOrigin(w, w.store.entries[i].0, w.store.entries[i].1)
  }

  predicate Unsettled(w: World, t: nat) {
    t in w.tickets && t !in w.store.promises
  }

  /** The reservation table is exactly the unsettled owners. */
  ghost predicate Reserved(w: World) {
    && (forall k :: k in w.store.reservations ==>
          var r := w.store.reservations[k]; Unsettled(w, r.token) && w.tickets[r.token] == Ticket(k, r.req))
    && (forall t :: Unsettled(w, t) ==>
          var k := w.tickets[t].key; k in w.store.reservations && w.store.reservations[k].token == t)
    && (forall t: nat :: t in w.tickets <==> t < w.store.next)
    && w.store.promises.Keys <= w.tickets.Keys
  }

  ghost predicate Occupied(s: Store, log: Log) {
    && (forall k :: k in s.reservations ==> Find(s.entries, k).None?)
    && (forall k :: Held(log, k) <==> k in s.reservations || Find(s.entries, k).Some?)
  }

  /** A key is let go without a result only by an owner whose call threw. */
  ghost predicate ThrewIndeed(w: World) {
    forall p :: 0 <= p < |w.log| && w.log[p].Thrown? ==> OwnerThrew(w, w.log[p].key, w.log[p].token)
  }

  predicate OwnerThrew(w: World, key: string, t: nat) {
    t in w.tickets && t in w.store.promises && w.tickets[t].key == key && w.store.promises[t].Threw?
  }

  ghost predicate Consistent(w: World) {
    && InOrder(w.store.entries, w.log)
    && Dated(w.store.entries, w.log)
    && Originated(w)
    && Reserved(w)
    && Occupied(w.store, w.log)
    && ThrewIndeed(w)
  }

  ghost predicate Inv(cfg: Config, w: World) {
    |w.store.entries| <= cfg.max && Consistent(w) && Fair(cfg, w.log)
  }

  // ── Lists of entries ──────────────────────────────────────────────────────

  ghost predicate Distinct(es: Entries) {
    forall i, j :: 0 <= i < j < |es| ==> es[i].0 != es[j].0
  }

  lemma OrderIsDistinct(es: Entries, log: Log)
    requires InOrder(es, log)
    ensures Distinct(es)
  {
  }

  lemma {:induction false} FindAbsent(es: Entries, key: string)
    ensures Find(es, key).None? <==> forall i :: 0 <= i < |es| ==> es[i].0 != key
    ensures Find(es, key).None? ==> Delete(es, key) == es
  {
    if es != [] {
      FindAbsent(es[1..], key);
      if Find(es, key).None? {
        forall i | 0 <= i < |es|
          ensures es[i].0 != key
        {
          assert i == 0 || es[i] == es[1..][i - 1];
        }
      }
    }
  }

  lemma {:induction false} FindAt(es: Entries, key: string, i: nat)
    requires Distinct(es) && i < |es| && es[i].0 == key
    ensures Find(es, key) == Some(es[i].1) && Delete(es, key) == es[..i] + es[i + 1..]
  {
    if i > 0 {
      FindAt(es[1..], key, i - 1);
      assert es[..i] + es[i + 1..] == [es[0]] + (es[1..][..i - 1] + es[1..][i..]);
    }
  }

  lemma {:induction false} FoundAt(es: Entries, key: string) returns (i: nat)
    requires Find(es, key).Some?
    ensures i < |es| && es[i] == (key, Find(es, key).value)
  {
    if es[0].0 == key {
      i := 0;
    } else {
      i := FoundAt(es[1..], key);
      i := i + 1;
    }
  }

  lemma {:induction false} FindDeleted(es: Entries, key: string, k: string)
    requires Distinct(es)
    ensures Find(Delete(es, key), k) == if k == key then None else Find(es, k)
  {
    if es != [] {
      FindDeleted(es[1..], key, k);
      if es[0].0 == key && k == key {
        FindAbsent(es[1..], k);
      }
    }
  }

  lemma {:induction false} FindAppended(es: Entries, key: string, e: Entry, k: string)
    ensures Find(es + [(key, e)], k)
         == if Find(es, k).Some? then Find(es, k) else if k == key then Some(e) else None
  {
    if es != [] {
      assert (es + [(key, e)])[1..] == es[1..] + [(key, e)];
      FindAppended(es[1..], key, e, k);
    }
  }

  lemma FindPut(es: Entries, key: string, e: Entry, k: string)
    requires Distinct(es)
    ensures Find(Put(es, key, e), k) == if k == key then Some(e) else Find(es, k)
  {
    FindAppended(Delete(es, key), key, e, k);
    FindDeleted(es, key, k);
  }

  /** Deleting keeps the others, in their order. */
  lemma DeleteKeeps(es: Entries, key: string)
    requires Distinct(es)
    ensures |Delete(es, key)| <= |es|
    ensures forall i :: 0 <= i < |Delete(es, key)| ==> Delete(es, key)[i] in es && Delete(es, key)[i].0 != key
    ensures forall i, j :: 0 <= i < j < |Delete(es, key)| ==> Before(es, Delete(es, key)[i], Delete(es, key)[j])
  {
  }

  ghost predicate Before(es: Entries, x: (string, Entry), y: (string, Entry)) {
    exists a, b :: 0 <= a < b < |es| && es[a] == x && es[b] == y
  }

  lemma {:induction false} DistinctCount(es: Entries, s: set<string>)
    requires Distinct(es) && forall i :: 0 <= i < |es| ==> es[i].0 in s
    ensures |s| >= |es|
  {
    if es != [] {
      DistinctCount(es[1..], s - {es[0].0});
    }
  }

  // ── The order of use ──────────────────────────────────────────────────────

  lemma QuietOrder(es: Entries, log: Log, e: Event)
    requires !Touches(e)
    ensures InOrder(es, log) ==> InOrder(es, log + [e])
    ensures Dated(es, log) ==> Dated(es, log + [e])
  {
  }

  lemma OrderDeleted(es: Entries, log: Log, key: string)
    requires InOrder(es, log)
    ensures InOrder(Delete(es, key), log)
    ensures Dated(es, log) ==> Dated(Delete(es, key), log)
  {
    hide Delete, Since, StoredAt;
    OrderIsDistinct(es, log);
    DeleteKeeps(es, key);
    var d := Delete(es, key);
    forall i, j | 0 <= i < j < |d|
      ensures d[j].0 in Since(log, d[i].0)
    {
      var a, b :| 0 <= a < b < |es| && es[a] == d[i] && es[b] == d[j];
    }
    if Dated(es, log) {
      forall i | 0 <= i < |d|
        ensures StoredAt(log, d[i].0) == Some(d[i].1.storedAt)
      {
        var a :| 0 <= a < |es| && es[a] == d[i];
      }
    }
  }

  /** A touched key moves to the end, and everything before it has now seen it. */
  lemma OrderPut(es: Entries, log: Log, key: string, e: Entry, touch: Event)
    requires InOrder(es, log) && Dated(es, log)
    requires touch.key == key && (touch == Stored(key, e.storedAt) || (touch.Hit? && Find(es, key) == Some(e)))
    ensures InOrder(Put(es, key, e), log + [touch]) && Dated(Put(es, key, e), log + [touch])
  {
    hide Delete;
    OrderDeleted(es, log, key);
    OrderIsDistinct(es, log);
    DeleteKeeps(es, key);
    LogStep(log, touch);
    var d, log' := Delete(es, key), log + [touch];
    forall i | 0 <= i < |d|
      ensures Since(log', d[i].0) == Since(log, d[i].0) + {key} && StoredAt(log', d[i].0) == StoredAt(log, d[i].0)
    {
    }
    if touch.Hit? {
      var p := FoundAt(es, key);
      assert StoredAt(log', key) == StoredAt(log, key);
    }
    assert StoredAt(log', key) == Some(e.storedAt);
  }

  /** Keys used since `key`, one per entry after it. */
  lemma OldestIsUnused(es: Entries, log: Log)
    requires es != [] && InOrder(es, log)
    ensures |Since(log, es[0].0)| >= |es| - 1
  {
    hide Since;
    OrderIsDistinct(es, log);
    forall i | 0 <= i < |es[1..]|
      ensures es[1..][i].0 in Since(log, es[0].0)
    {
      assert es[1..][i] == es[i + 1];
    }
    DistinctCount(es[1..], Since(log, es[0].0));
  }

  // ── Every step keeps the invariant ────────────────────────────────────────

  lemma HeldStep(log: Log, e: Event)
    ensures forall k ::
      Held(log + [e], k) == if e.key != k then Held(log, k) else e.Owned? || (!Releases(e, k) && Held(log, k))
  {
  }

  lemma FairStep(cfg: Config, log: Log, e: Event)
    requires Fair(cfg, log) && Justified(cfg, log, e)
    ensures Fair(cfg, log + [e])
  {
  }

  lemma PutSize(es: Entries, key: string, e: Entry)
    requires Distinct(es)
    ensures |Put(es, key, e)| == if Find(es, key).Some? then |es| else |es| + 1
    ensures forall i :: 0 <= i < |Put(es, key, e)| ==> Put(es, key, e)[i] in es || Put(es, key, e)[i] == (key, e)
  {
    hide Find, Delete;
    FindAbsent(es, key);
    DeleteKeeps(es, key);
    if Find(es, key).Some? {
      var p := FoundAt(es, key);
      FindAt(es, key, p);
    }
  }

  /** Owners and outcomes are only ever added to. */
  ghost predicate Grows(w: World, w': World) {
    && (forall t :: t in w.tickets ==> t in w'.tickets && w'.tickets[t] == w.tickets[t])
    && (forall t :: t in w.store.promises ==> t in w'.store.promises && w'.store.promises[t] == w.store.promises[t])
  }

  lemma OriginsKept(w: World, w': World)
    requires Originated(w) && Grows(w, w')
    requires forall i :: 0 <= i < |w'.store.entries| ==>
      w'.store.entries[i] in w.store.entries || HasOrigin(w', w'.store.entries[i].0, w'.store.entries[i].1)
    ensures Originated(w')
  {
  }

  lemma HitKeeps(cfg: Config, w: World, key: string, req: Request, now: int)
    requires Inv(cfg, w) && key !in w.store.reservations
    requires Find(w.store.entries, key).Some? && !Expired(cfg, Find(w.store.entries, key).value, now)
    ensures Inv(cfg, Take(cfg, w, Claims(key, req, now)))
  {
    hide Held, Since, StoredAt, Fair, Find, Delete, Distinct, HasOrigin;
    var es := w.store.entries;
    var e := Find(es, key).value;
    OrderIsDistinct(es, w.log);
    OrderPut(es, w.log, key, e, Hit(key));
    FairStep(cfg, w.log, Hit(key));
    HeldStep(w.log, Hit(key));
    PutSize(es, key, e);
    var p := FoundAt(es, key);
    forall k
      ensures Find(Put(es, key, e), k).Some? == Find(es, k).Some?
    {
      FindPut(es, key, e, k);
    }
    OriginsKept(w, Take(cfg, w, Claims(key, req, now)));
  }

  /** A key whose entry has run out of time is free. */
  lemma TimeoutKeeps(cfg: Config, w: World, key: string, now: int)
    requires Inv(cfg, w) && key !in w.store.reservations
    requires Find(w.store.entries, key).Some? && Expired(cfg, Find(w.store.entries, key).value, now)
    ensures Inv(cfg, w.(store := w.store.(entries := Delete(w.store.entries, key)),
                       log := w.log + [TimedOut(key, now)]))
  {
    hide Held, Since, StoredAt, Fair, Find, Delete, Distinct, HasOrigin;
    var es := w.store.entries;
    var p := FoundAt(es, key);
    OrderIsDistinct(es, w.log);
    OrderDeleted(es, w.log, key);
    DeleteKeeps(es, key);
    QuietOrder(Delete(es, key), w.log, TimedOut(key, now));
    FairStep(cfg, w.log, TimedOut(key, now));
    HeldStep(w.log, TimedOut(key, now));
    forall k
      ensures Find(Delete(es, key), k) == if k == key then None else Find(es, k)
    {
      FindDeleted(es, key, k);
    }
    var w' := w.(store := w.store.(entries := Delete(es, key)), log := w.log + [TimedOut(key, now)]);
    OriginsKept(w, w');
    ReservedIgnoresLog(w, w');
    assert StoredAt(w.log, key) == Some(es[p].1.storedAt);
  }

  /** The state once `key` has a new owner, nothing logged yet. */
  function Admit(w: World, key: string, req: Request): World {
    w.(store := w.store.(reservations := w.store.reservations[key := Reservation(req, w.store.next)],
                         next := w.store.next + 1),
       tickets := w.tickets[w.store.next := Ticket(key, req)])
  }

  lemma AdmitTable(w: World, key: string, req: Request)
    requires Reserved(w) && key !in w.store.reservations
    ensures Reserved(Admit(w, key, req)) && Grows(w, Admit(w, key, req))
  {
  }

  /** A free key gets an owner. */
  lemma OwnKeeps(cfg: Config, w: World, key: string, req: Request)
    requires Inv(cfg, w) && key !in w.store.reservations && Find(w.store.entries, key).None?
    ensures Inv(cfg, Admit(w, key, req).(log := w.log + [Owned(key, w.store.next)]))
  {
    hide Held, Since, StoredAt, Fair, Find, HasOrigin, InOrder, Dated, Originated, Reserved;
    var own := Owned(key, w.store.next);
    var w' := Admit(w, key, req).(log := w.log + [own]);
    QuietOrder(w.store.entries, w.log, own);
    FairStep(cfg, w.log, own);
    HeldStep(w.log, own);
    AdmitTable(w, key, req);
    OriginsKept(w, w');
    ReservedIgnoresLog(Admit(w, key, req), w');
  }

  lemma ClaimKeeps(cfg: Config, w: World, key: string, req: Request, now: int)
    requires Inv(cfg, w)
    ensures Inv(cfg, Take(cfg, w, Claims(key, req, now)))
  {
    hide Inv, Find, Delete;
    var w' := Take(cfg, w, Claims(key, req, now));
    if key in w.store.reservations {
      assert w' == w by { assert w.log + [] == w.log; }
    } else if Find(w.store.entries, key).None? {
      OwnKeeps(cfg, w, key, req);
    } else if Expired(cfg, Find(w.store.entries, key).value, now) {
      var mid := w.(store := w.store.(entries := Delete(w.store.entries, key)), log := w.log + [TimedOut(key, now)]);
      TimeoutKeeps(cfg, w, key, now);
      OrderedWorld(cfg, w);
      FindDeleted(w.store.entries, key, key);
      OwnKeeps(cfg, mid, key, req);
      assert w.log + [TimedOut(key, now), Owned(key, w.store.next)] == mid.log + [Owned(key, w.store.next)];
    } else {
      HitKeeps(cfg, w, key, req, now);
    }
  }

  lemma OrderedWorld(cfg: Config, w: World)
    requires Inv(cfg, w)
    ensures Distinct(w.store.entries)
  {
  }

  /** The state once the owner `token` of `key` has let go and its promise holds `end`, its key still held. */
  function Released(w: World, key: string, token: nat, end: Settlement): World {
    w.(store := w.store.(reservations := w.store.reservations - {key}, promises := w.store.promises[token := end]))
  }

  lemma ReleaseTable(w: World, token: nat, end: Settlement)
    requires Reserved(w) && Unsettled(w, token)
    ensures Reserved(Released(w, w.tickets[token].key, token, end))
  {
  }

  lemma ThrowKeeps(cfg: Config, w: World, token: nat, end: Settlement, now: int)
    requires Inv(cfg, w) && Unsettled(w, token) && end.Threw?
    ensures Inv(cfg, Take(cfg, w, Settles(token, end, now)))
  {
    hide Held, Since, StoredAt, Fair, Find, HasOrigin;
    var key := w.tickets[token].key;
    ReleaseTable(w, token, end);
    QuietOrder(w.store.entries, w.log, Thrown(key, token));
    FairStep(cfg, w.log, Thrown(key, token));
    HeldStep(w.log, Thrown(key, token));
    OriginsKept(w, Take(cfg, w, Settles(token, end, now)));
    ReservedIgnoresLog(Released(w, key, token, end), Take(cfg, w, Settles(token, end, now)));
  }

  lemma ReservedIgnoresLog(w: World, w': World)
    requires Reserved(w) && w.tickets == w'.tickets && w.store.promises == w'.store.promises
    requires w.store.reservations == w'.store.reservations && w.store.next == w'.store.next
    ensures Reserved(w')
  {
    forall t
      ensures Unsettled(w, t) == Unsettled(w', t)
    {
    }
  }

  /** An owner that returned has its result stored as the most recent entry, before any eviction. */
  function Kept(w: World, token: nat, end: Settlement, now: int): World
    requires Unsettled(w, token) && end.Returned?
  {
    var t := w.tickets[token];
    var r := Released(w, t.key, token, end);
    r.(store := r.store.(entries := Put(w.store.entries, t.key, Entry(t.req, end.result, end.ts, now))),
       log := w.log + [Stored(t.key, now)])
  }

  lemma StoreKeeps(cfg: Config, w: World, token: nat, end: Settlement, now: int)
    requires Inv(cfg, w) && Unsettled(w, token) && end.Returned?
    ensures Consistent(Kept(w, token, end, now)) && Fair(cfg, Kept(w, token, end, now).log)
    ensures |Kept(w, token, end, now).store.entries| <= cfg.max + 1
  {
    hide Held, Since, StoredAt, Fair, Find, Delete, Distinct, HasOrigin;
    var t := w.tickets[token];
    var es, e, put := w.store.entries, Entry(t.req, end.result, end.ts, now), Stored(t.key, now);
    var w' := Kept(w, token, end, now);
    OrderIsDistinct(es, w.log);
    OrderPut(es, w.log, t.key, e, put);
    PutSize(es, t.key, e);
    FairStep(cfg, w.log, put);
    HeldStep(w.log, put);
    forall k
      ensures Find(Put(es, t.key, e), k) == if k == t.key then Some(e) else Find(es, k)
    {
      FindPut(es, t.key, e, k);
    }
    ReleaseTable(w, token, end);
    ReservedIgnoresLog(Released(w, t.key, token, end), w');
    NewOrigin(w', token, e);
    OriginsKept(w, w');
  }

  lemma NewOrigin(w: World, token: nat, e: Entry)
    requires token in w.tickets && token in w.store.promises
    requires w.tickets[token].req == e.req && w.store.promises[token] == Returned(e.result, e.ts)
    ensures HasOrigin(w, w.tickets[token].key, e)
  {
  }

  /** What no longer fits is dropped from the front, and had gone unused while `max` other keys were used. */
  lemma EvictKeeps(cfg: Config, w: World)
    requires Consistent(w) && Fair(cfg, w.log) && |w.store.entries| <= cfg.max + 1
    ensures Inv(cfg, w.(store := w.store.(entries := Evict(w.store.entries, cfg.max)),
                        log := w.log + Evictions(w.store.entries, cfg.max)))
  {
    hide Held, Since, StoredAt, Fair, Find, HasOrigin;
    var es := w.store.entries;
    var w' := w.(store := w.store.(entries := Evict(es, cfg.max)), log := w.log + Evictions(es, cfg.max));
    if |es| <= cfg.max {
      assert w' == w by { assert w.log + [] == w.log; }
    } else {
      var out := Evicted(es[0].0);
      assert w'.log == w.log + [out] && w'.store.entries == es[1..];
      OldestIsUnused(es, w.log);
      OrderIsDistinct(es, w.log);
      FindAt(es, es[0].0, 0);
      TailOrder(es, w.log, out);
      FairStep(cfg, w.log, out);
      HeldStep(w.log, out);
      forall k
        ensures Find(es[1..], k) == if k == es[0].0 then None else Find(es, k)
      {
        FindTail(es, k);
      }
      OriginsKept(w, w');
      ReservedIgnoresLog(w, w');
    }
  }

  lemma FindTail(es: Entries, k: string)
    requires es != [] && Distinct(es)
    ensures Find(es[1..], k) == if k == es[0].0 then None else Find(es, k)
  {
    FindAbsent(es[1..], k);
  }

  lemma TailOrder(es: Entries, log: Log, e: Event)
    requires es != [] && InOrder(es, log) && Dated(es, log) && !Touches(e)
    ensures InOrder(es[1..], log + [e]) && Dated(es[1..], log + [e])
  {
    hide Since, StoredAt;
    QuietOrder(es, log, e);
    forall i | 0 <= i < |es| - 1
      ensures es[1..][i] == es[i + 1]
    {
    }
  }

  /** A settlement that is not the first of its owner changes nothing at all. */
  lemma StaleSettleChangesNothing(cfg: Config, w: World, token: nat, end: Settlement, now: int)
    requires Inv(cfg, w) && !Unsettled(w, token)
    ensures Take(cfg, w, Settles(token, end, now)) == w
  {
    hide Fair, InOrder, Dated, Originated, Occupied;
    assert w.log + [] == w.log;
  }

  lemma SettleKeeps(cfg: Config, w: World, token: nat, end: Settlement, now: int)
    requires Inv(cfg, w)
    ensures Inv(cfg, Take(cfg, w, Settles(token, end, now)))
  {
    hide Find, Delete, Evict, Evictions, InOrder, Dated, Originated, Occupied, Fair, HasOrigin;
    if !Unsettled(w, token) {
      StaleSettleChangesNothing(cfg, w, token, end, now);
    } else if end.Threw? {
      ThrowKeeps(cfg, w, token, end, now);
    } else {
      StoreKeeps(cfg, w, token, end, now);
      var kept := Kept(w, token, end, now);
      EvictKeeps(cfg, kept);
      var put := [Stored(w.tickets[token].key, now)];
      var out := Evictions(kept.store.entries, cfg.max);
      assert w.log + (put + out) == w.log + put + out;
    }
  }

  lemma StartConsistent()
    ensures Consistent(START) && START.store.entries == [] && START.log == []
  {
  }

  lemma {:induction false} RunKeeps(cfg: Config, steps: seq<Step>)
    ensures Inv(cfg, After(cfg, steps))
  {
    hide Take;
    if steps == [] {
      StartConsistent();
    } else {
      var before := After(cfg, steps[..|steps| - 1]);
      RunKeeps(cfg, steps[..|steps| - 1]);
      match steps[|steps| - 1]
      case Claims(key, req, now) => ClaimKeeps(cfg, before, key, req, now);
      case Settles(token, end, now) => SettleKeeps(cfg, before, token, end, now);
    }
  }

  // ── What every run guarantees ─────────────────────────────────────────────

  /** In no run do two owners of one key stand unsettled together. */
  lemma OneOwnerAtATime(cfg: Config, steps: seq<Step>, t: nat, u: nat)
    requires var w := After(cfg, steps); Unsettled(w, t) && Unsettled(w, u) && w.tickets[t].key == w.tickets[u].key
    ensures t == u
  {
    hide After;
    RunKeeps(cfg, steps);
  }

  lemma ReplyFits(cfg: Config, w: World, key: string, req: Request, now: int)
    requires Inv(cfg, w)
    ensures Fits(cfg, w, key, req, now, Present(cfg, w.store, key, req, now).1)
  {
    hide Held, Since, StoredAt, Fair, Delete;
    if key in w.store.reservations {
      assert Unsettled(w, w.store.reservations[key].token);
    } else if Find(w.store.entries, key).Some? {
      var i := FoundAt(w.store.entries, key);
      assert HasOrigin(w, key, w.store.entries[i].1);
    }
  }

  /**
   * Whoever is told to wait, or given a stored result, asked exactly what that owner asked; a new owner is
   * the only one in flight; a refusal means some owner of the key asked something else.
   */
  ghost predicate Fits(cfg: Config, w: World, key: string, req: Request, now: int, claim: Claim) {
    match claim
    case Wait(t) => Unsettled(w, t) && w.tickets[t] == Ticket(key, req)
    case Replay(e) => e.req == req && !Expired(cfg, e, now) && HasOrigin(w, key, e)
    case Owner(t) => t !in w.tickets && forall u :: Unsettled(w, u) ==> w.tickets[u].key != key
    case Mismatch(first, _) => exists t :: t in w.tickets && w.tickets[t].key == key && w.tickets[t].req != req
  }

  lemma SharedOutcomeIsOfTheSameRequest(cfg: Config, steps: seq<Step>, key: string, req: Request, now: int)
    ensures var w := After(cfg, steps); Fits(cfg, w, key, req, now, Present(cfg, w.store, key, req, now).1)
  {
    hide After;
    RunKeeps(cfg, steps);
    ReplyFits(cfg, After(cfg, steps), key, req, now);
  }

  /** The first settlement of an owner is the one its waiters get, whatever happens later. */
  lemma {:induction false} FirstSettlementStands(cfg: Config, steps: seq<Step>, more: seq<Step>, t: nat)
    requires t in After(cfg, steps).store.promises
    ensures t in After(cfg, steps + more).store.promises
    ensures After(cfg, steps + more).store.promises[t] == After(cfg, steps).store.promises[t]
  {
    if more == [] {
      assert steps + more == steps;
    } else {
      FirstSettlementStands(cfg, steps, more[..|more| - 1], t);
      assert (steps + more)[..|steps + more| - 1] == steps + more[..|more| - 1];
    }
  }

  /** A key gets a second owner only after its owner threw, or its result timed out or was evicted. */
  lemma SecondOwnerFollowsARelease(cfg: Config, steps: seq<Step>, p: nat, r: nat) returns (q: nat)
    requires var log := After(cfg, steps).log;
      p < r < |log| && log[p].Owned? && log[r].Owned? && log[p].key == log[r].key
    ensures p < q < r && Releases(After(cfg, steps).log[q], After(cfg, steps).log[p].key)
  {
    hide After;
    RunKeeps(cfg, steps);
    var log := After(cfg, steps).log;
    FairAt(cfg, log, r);
    assert log[..r][p] == log[p];
    q := LetGo(log[..r], log[p].key, p);
    assert log[..r][q] == log[q];
  }

  /** Each release was due: the owner threw, the result was old enough, or `max` other keys were used since. */
  lemma ReleasesAreDue(cfg: Config, steps: seq<Step>, p: nat)
    requires p < |After(cfg, steps).log|
    ensures var w := After(cfg, steps);
      match w.log[p]
      case Thrown(key, t) => OwnerThrew(w, key, t)
      case TimedOut(key, at) => StoredAt(w.log[..p], key).Some? && at - StoredAt(w.log[..p], key).value >= cfg.ttl
      case Evicted(key) => |Since(w.log[..p], key)| >= cfg.max
      case _ => true
  {
    hide After, Held, StoredAt, Since;
    RunKeeps(cfg, steps);
    FairAt(cfg, After(cfg, steps).log, p);
  }

  lemma {:induction false} FairAt(cfg: Config, log: Log, p: nat)
    requires Fair(cfg, log) && p < |log|
    ensures Justified(cfg, log[..p], log[p])
  {
    hide Justified;
    var init := log[..|log| - 1];
    if p < |log| - 1 {
      FairAt(cfg, init, p);
      assert init[..p] == log[..p] && init[p] == log[p];
    }
  }

  lemma {:induction false} LetGo(log: Log, key: string, p: nat) returns (q: nat)
    requires p < |log| && log[p].Owned? && log[p].key == key && !Held(log, key)
    ensures p < q < |log| && Releases(log[q], key)
  {
    q := |log| - 1;
    if !Releases(log[q], key) {
      q := LetGo(log[..|log| - 1], key, p);
    }
  }
}

/**
 * The idempotency store: reservations for keys in flight, and an LRU of completed calls kept for a time.
 * Time is a number handed to each operation; a token stands for the identity of a reservation object and
 * of the promise it carries.
 */
module IdempotencyModel {
  import opened JsString

  /** The identity of a call beside its key. */
  datatype Request = Request(op: string, args: string, ifRev: Option<int>)

  /** How an owner's call ended, and the `ts` of its journal record. */
  datatype Settlement = Returned(result: string, ts: string) | Threw(error: string, ts: string)

  datatype Entry = Entry(req: Request, result: string, ts: string, storedAt: int)

  datatype Reservation = Reservation(req: Request, token: nat)

  datatype Config = Config(ttl: int, max: nat)

  /** Completed calls from least to most recently used. */
  type Entries = seq<(string, Entry)>

  datatype Store = Store(
    entries: Entries,
    reservations: map<string, Reservation>,
    promises: map<nat, Settlement>,
    next: nat)

  datatype Reason = Op | Args | IfRev

  datatype Claim =
    | Owner(token: nat)
    | Wait(on: nat)
    | Replay(entry: Entry)
    | Mismatch(firstOp: string, reason: Reason)

  function Find(es: Entries, key: string): Option<Entry> {
    if es == [] then None else if es[0].0 == key then Some(es[0].1) else Find(es[1..], key)
  }

  function Delete(es: Entries, key: string): Entries {
    if es == [] then [] else if es[0].0 == key then es[1..] else [es[0]] + Delete(es[1..], key)
  }

  /** Delete and set again: the entry moves to the most recent end. */
  function Put(es: Entries, key: string, e: Entry): Entries {
    Delete(es, key) + [(key, e)]
  }

  function Evict(es: Entries, max: nat): Entries {
    if |es| > max then es[|es| - max..] else es
  }

  predicate Expired(cfg: Config, e: Entry, now: int) {
    now - e.storedAt >= cfg.ttl
  }

  /** `get`: the entries afterwards, and the hit. */
  function Get(cfg: Config, es: Entries, key: string, now: int): (Entries, Option<Entry>) {
    match Find(es, key)
    case None => (es, None)
    case Some(e) => if Expired(cfg, e, now) then (Delete(es, key), None) else (Put(es, key, e), Some(e))
  }

  /** What presenting `req` gets when the key is already bound to `first`. */
  function Against(first: Request, req: Request, same: Claim): Claim {
    if first.op != req.op then Mismatch(first.op, Op)
    else if first.args != req.args then Mismatch(first.op, Args)
    else if first.ifRev != req.ifRev then Mismatch(first.op, IfRev)
    else same
  }

  /** `claim`: the store afterwards and the reply. */
  function Present(cfg: Config, s: Store, key: string, req: Request, now: int): (Store, Claim) {
    if key in s.reservations then
      (s, Against(s.reservations[key].req, req, Wait(s.reservations[key].token)))
    else
      var (es, hit) := Get(cfg, s.entries, key, now);
      if hit.Some? then (s.(entries := es), Against(hit.value.req, req, Replay(hit.value)))
      else
        (s.(entries := es, reservations := s.reservations[key := Reservation(req, s.next)], next := s.next + 1),
         Owner(s.next))
  }

  /** The `settle` of the owner that claimed `key` for `req` under `token`. */
  function Settle(cfg: Config, s: Store, key: string, req: Request, token: nat, end: Settlement, now: int): Store {
    var resolved := s.(promises := if token in s.promises then s.promises else s.promises[token := end]);
    if key !in s.reservations || s.reservations[key].token != token then resolved
    else
      var released := resolved.(reservations := s.reservations - {key});
      if end.Threw? then released
      else released.(entries := Evict(Put(s.entries, key, Entry(req, end.result, end.ts, now)), cfg.max))
  }
}

/** The store as the source keeps it. */
module IdempotencyObjects {
  import opened JsString
  import opened IdempotencyModel

  class IdempotencyStore {
    const cfg: Config
    var entries: Entries
    var reservations: map<string, Reservation>
    var promises: map<nat, Settlement>
    var next: nat

    constructor (ttl: int, max: nat)
      ensures cfg == Config(ttl, max) && View() == Store([], map[], map[], 0)
    {
      cfg := Config(ttl, max);
      entries, reservations, promises, next := [], map[], map[], 0;
    }

    ghost function View(): Store
      reads this
    {
      Store(entries, reservations, promises, next)
    }

    method Get(key: string, now: int) returns (hit: Option<Entry>)
      modifies this`entries
      ensures (entries, hit) == IdempotencyModel.Get(cfg, old(entries), key, now)
    {
      hit := Find(entries, key);
      if hit.None? {
        return;
      }
      if now - hit.value.storedAt >= cfg.ttl {
        entries := Delete(entries, key);
        return None;
      }
      entries := Delete(entries, key);
      entries := entries + [(key, hit.value)];
    }

    method Set(key: string, e: Entry)
      modifies this`entries
      ensures entries == Evict(Put(old(entries), key, e), cfg.max)
    {
      entries := Delete(entries, key);
      entries := entries + [(key, e)];
      ghost var full := entries;
      while |entries| > cfg.max
        invariant |entries| >= |Evict(full, cfg.max)|
        invariant |entries| <= |full| && entries == full[|full| - |entries|..]
      {
        entries := entries[1..];
      }
    }

    /** `claim`: one uninterruptible step. */
    method Claim(key: string, req: Request, now: int) returns (claim: Claim)
      modifies this
      ensures (View(), claim) == Present(cfg, old(View()), key, req, now)
    {
      if key in reservations {
        var held := reservations[key];
        claim := Compare(held.req, req, Wait(held.token));
        return;
      }
      var done := Get(key, now);
      if done.Some? {
        claim := Compare(done.value.req, req, Replay(done.value));
        return;
      }
      var token := next;
      next := next + 1;
      reservations := reservations[key := Reservation(req, token)];
      claim := Owner(token);
    }

    static method Compare(first: Request, req: Request, same: Claim) returns (claim: Claim)
      ensures claim == Against(first, req, same)
    {
      if first.op != req.op {
        return Mismatch(first.op, Op);
      }
      if first.args != req.args {
        return Mismatch(first.op, Args);
      }
      if first.ifRev != req.ifRev {
        return Mismatch(first.op, IfRev);
      }
      return same;
    }

    /** A settlement that no longer owns the key only settles its own promise, if that is still open. */
    method Settle(key: string, req: Request, token: nat, end: Settlement, now: int)
      modifies this
      ensures View() == IdempotencyModel.Settle(cfg, old(View()), key, req, token, end, now)
    {
      var mine := key in reservations && reservations[key].token == token;
      if mine {
        reservations := reservations - {key};
        if end.Returned? {
          Set(key, Entry(req, end.result, end.ts, now));
        }
      }
      if token !in promises {
        promises := promises[token := end];
      }
    }
  }
}

/** How the relay's building blocks move request ids between the queue, the outstanding map and the client. */
module RelayLemmas {
  import opened JsString
  import opened RelayModel

  function Ids(s: Entries): set<Id> {
    if s == [] then {} else {s[0].0} + Ids(s[1..])
  }

  /** A Map holds each key once. */
  ghost predicate Unique(s: Entries) {
    s != [] ==> s[0].0 !in Ids(s[1..]) && Unique(s[1..])
  }

  function Elems(s: seq<Id>): set<Id> {
    set x | x in s
  }

  ghost predicate Distinct(s: seq<Id>) {
    forall i, j :: 0 <= i < j < |s| ==> s[i] != s[j]
  }

  lemma DistinctConcat(s: seq<Id>, t: seq<Id>)
    ensures Elems(s + t) == Elems(s) + Elems(t)
    ensures Distinct(s + t) <==> Distinct(s) && Distinct(t) && Elems(s) !! Elems(t)
  {
    var r := s + t;
    if Distinct(r) {
      assert forall i :: 0 <= i < |s| ==> r[i] == s[i];
      assert forall i :: 0 <= i < |t| ==> r[|s| + i] == t[i];
      forall i, j | 0 <= i < |s| && 0 <= j < |t|
        ensures s[i] != t[j]
      {
        assert r[i] != r[|s| + j];
      }
    }
    if Distinct(s) && Distinct(t) && Elems(s) !! Elems(t) {
      forall i, j | 0 <= i < j < |r|
        ensures r[i] != r[j]
      {
        if i < |s| <= j {
          assert r[i] in Elems(s) && r[j] in Elems(t);
        }
      }
    }
  }

  lemma DistinctSingle(x: Id)
    ensures Distinct([x]) && Elems([x]) == {x}
    ensures Distinct([]) && Elems([]) == {}
  {
  }

  lemma {:induction false} PutIds(s: Entries, id: Id, verb: string)
    ensures Ids(Put(s, id, verb)) == Ids(s) + {id}
    ensures Unique(s) ==> Unique(Put(s, id, verb))
  {
    if s != [] && s[0].0 != id {
      PutIds(s[1..], id, verb);
    }
  }

  lemma {:induction false} DelIds(s: Entries, id: Id)
    ensures Ids(Del(s, id)) == Ids(s) - {id}
    ensures Unique(s) ==> Unique(Del(s, id))
  {
    if s != [] {
      DelIds(s[1..], id);
    }
  }

  lemma {:induction false} TrackIds(o: Entries, ms: seq<Msg>)
    ensures Ids(Track(o, ms)) == Ids(o) + Elems(RequestIds(ms))
    ensures Unique(o) ==> Unique(Track(o, ms))
  {
    if ms != [] {
      var front, m := ms[..|ms| - 1], ms[|ms| - 1];
      TrackIds(o, front);
      if IsRequest(m) {
        PutIds(Track(o, front), m.id.value, m.verb.value);
      }
    }
  }

  lemma {:induction false} UntrackIds(o: Entries, ms: seq<Msg>)
    ensures Ids(Untrack(o, ms)) == Ids(o) - Elems(ResponseIds(ms))
    ensures Unique(o) ==> Unique(Untrack(o, ms))
  {
    if ms != [] {
      var front, m := ms[..|ms| - 1], ms[|ms| - 1];
      UntrackIds(o, front);
      if IsResponse(m) {
        DelIds(Untrack(o, front), m.id.value);
      }
    }
  }

  // ── What the client is told ───────────────────────────────────────────────

  function ReplyIds(replies: seq<ErrorReply>): seq<Id> {
    seq(|replies|, i requires 0 <= i < |replies| => replies[i].id)
  }

  function RepliedIds(out: Out): seq<Id> {
    match out
    case Forwarded(f) => ResponseIds(Messages(f))
    case Errors(replies, _) => ReplyIds(replies)
  }

  /** The id of every response written to the client, in order. */
  function Answers(outs: seq<Out>): seq<Id> {
    if outs == [] then [] else Answers(outs[..|outs| - 1]) + RepliedIds(outs[|outs| - 1])
  }

  lemma {:induction false} AnswersConcat(s: seq<Out>, t: seq<Out>)
    ensures Answers(s + t) == Answers(s) + Answers(t)
  {
    hide RepliedIds;
    if t == [] {
      assert s + t == s;
    } else {
      assert (s + t)[..|s + t| - 1] == s + t[..|t| - 1];
      AnswersConcat(s, t[..|t| - 1]);
    }
  }

  /** The ids `FailOutstanding` and `FailRequest` must leave alone. */
  function ExemptIds(s: Relay): set<Id> {
    if s.initializeId.Some? && !s.initResponseSeen then {s.initializeId.value} else {}
  }

  lemma AnswersSnoc(outs: seq<Out>, out: Out)
    ensures Answers(outs + [out]) == Answers(outs) + RepliedIds(out)
  {
  }

  /**
   * Of the distinct ids `seen`, those outside `exempt` have been answered (`told`) and forgotten (`left`),
   * and the others are kept.
   */
  ghost predicate Split(all: set<Id>, exempt: set<Id>, seen: seq<Id>, left: Entries, told: seq<Id>, kept: seq<Id>) {
    && Unique(left) && Ids(left) == all - (Elems(seen) - exempt)
    && Distinct(told) && Elems(told) == Elems(seen) - exempt
    && Distinct(kept) && Elems(kept) == Elems(seen) * exempt
  }

  lemma SplitMore(all: set<Id>, exempt: set<Id>, seen: seq<Id>, left: Entries, told: seq<Id>, kept: seq<Id>,
                  own: seq<Id>, left': Entries, fail: seq<Id>, stay: seq<Id>)
    requires Split(all, exempt, seen, left, told, kept) && Distinct(seen + own)
    requires Split(Ids(left), exempt, own, left', fail, stay)
    ensures Split(all, exempt, seen + own, left', told + fail, kept + stay)
  {
    hide Distinct, Elems, Unique, Ids;
    DistinctConcat(seen, own);
    DistinctConcat(told, fail);
    DistinctConcat(kept, stay);
  }

  function EntryKeys(s: Entries): seq<Id> {
    seq(|s|, i requires 0 <= i < |s| => s[i].0)
  }

  lemma {:induction false} EntryKeysIds(s: Entries)
    ensures Elems(EntryKeys(s)) == Ids(s)
    ensures Unique(s) ==> Distinct(EntryKeys(s))
  {
    if s != [] {
      EntryKeysIds(s[1..]);
      assert EntryKeys(s) == [s[0].0] + EntryKeys(s[1..]);
      DistinctSingle(s[0].0);
      DistinctConcat([s[0].0], EntryKeys(s[1..]));
    }
  }

  lemma PrefixKeys(s: Entries, k: nat)
    requires 0 < k <= |s| && Unique(s)
    ensures EntryKeys(s[..k]) == EntryKeys(s[..k - 1]) + [s[k - 1].0]
    ensures Distinct(EntryKeys(s[..k]))
  {
    hide Unique, Distinct;
    EntryKeysIds(s);
    assert EntryKeys(s) == EntryKeys(s[..k]) + EntryKeys(s[k..]);
    DistinctConcat(EntryKeys(s[..k]), EntryKeys(s[k..]));
  }

  lemma FailFirstStep(s: Relay, k: nat)
    requires 0 < k <= |s.outstanding|
    ensures var r := FailFirst(s, k - 1); var (id, verb) := s.outstanding[k - 1];
      FailFirst(s, k) == if Exempt(s, id) then r else (Del(r.0, id), r.1 + [Errors([ErrorReply(id, verb)], false)])
  {
  }

  lemma {:induction false} FailFirstIds(s: Relay, k: nat) returns (kept: seq<Id>)
    requires k <= |s.outstanding| && Unique(s.outstanding)
    ensures Split(Ids(s.outstanding), ExemptIds(s), EntryKeys(s.outstanding[..k]),
                  FailFirst(s, k).0, Answers(FailFirst(s, k).1), kept)
  {
    hide Distinct, Elems, Unique, Ids, Del, Split, RepliedIds, Answers, FailFirst, Exempt, EntryKeys;
    var all, exempt := Ids(s.outstanding), ExemptIds(s);
    if k == 0 {
      kept := [];
      NoneFailed(s, all);
    } else {
      var before := FailFirstIds(s, k - 1);
      var r := FailFirst(s, k - 1);
      var (id, verb) := s.outstanding[k - 1];
      var earlier := EntryKeys(s.outstanding[..k - 1]);
      FailFirstStep(s, k);
      PrefixKeys(s.outstanding, k);
      SplitOne(s, r.0, id, all, earlier, Answers(r.1), before);
      if Exempt(s, id) {
        kept := before + [id];
        SplitMore(all, exempt, earlier, r.0, Answers(r.1), before, [id], r.0, [], [id]);
        assert Answers(r.1) + [] == Answers(r.1);
      } else {
        kept := before;
        AnswersOneError(r.1, ErrorReply(id, verb));
        SplitMore(all, exempt, earlier, r.0, Answers(r.1), before, [id], Del(r.0, id), [id], []);
        assert before + [] == before;
      }
    }
  }

  lemma NoneFailed(s: Relay, all: set<Id>)
    requires Unique(s.outstanding) && all == Ids(s.outstanding)
    ensures Split(all, ExemptIds(s), EntryKeys(s.outstanding[..0]), FailFirst(s, 0).0, Answers(FailFirst(s, 0).1), [])
  {
  }

  lemma AnswersOneError(outs: seq<Out>, e: ErrorReply)
    ensures Answers(outs + [Errors([e], false)]) == Answers(outs) + [e.id]
  {
  }

  /** Failing or sparing one id. */
  lemma SplitOne(s: Relay, left: Entries, id: Id, all: set<Id>, seen: seq<Id>, told: seq<Id>, kept: seq<Id>)
    requires Split(all, ExemptIds(s), seen, left, told, kept)
    ensures if Exempt(s, id) then Split(Ids(left), ExemptIds(s), [id], left, [], [id])
            else Split(Ids(left), ExemptIds(s), [id], Del(left, id), [id], [])
    ensures Split(Ids(left), ExemptIds(s), [], left, [], [])
  {
    DelIds(left, id);
    assert Elems([id]) == {id};
  }

  /** On a disconnect every outstanding request but an unanswered `initialize` is answered once and forgotten. */
  lemma FailOutstandingIds(s: Relay)
    requires Unique(s.outstanding)
    ensures var (s', out) := FailOutstanding(s);
      && s' == s.(outstanding := s'.outstanding) && Unique(s'.outstanding)
      && Ids(s'.outstanding) == Ids(s.outstanding) * ExemptIds(s)
      && Distinct(Answers(out))
      && Elems(Answers(out)) == Ids(s.outstanding) - ExemptIds(s)
  {
    var _ := FailFirstIds(s, |s.outstanding|);
    assert s.outstanding[..|s.outstanding|] == s.outstanding;
    EntryKeysIds(s.outstanding);
  }

  // ── Failing queued lines ──────────────────────────────────────────────────

  lemma {:induction false} ObjectsOf(kept: seq<Msg>)
    ensures Messages(Rebatch(kept)) == kept
  {
    if kept != [] {
      var front := kept[..|kept| - 1];
      ObjectsOf(front);
      assert Rebatch(kept).items[..|kept| - 1] == Rebatch(front).items;
    }
  }

  function FailableOf(s: Relay, ms: seq<Msg>): seq<Msg> {
    if ms == [] then []
    else FailableOf(s, ms[..|ms| - 1]) + if Failable(s, ms[|ms| - 1]) then [ms[|ms| - 1]] else []
  }

  function KeepableOf(s: Relay, ms: seq<Msg>): seq<Msg> {
    if ms == [] then []
    else KeepableOf(s, ms[..|ms| - 1]) + if Failable(s, ms[|ms| - 1]) then [] else [ms[|ms| - 1]]
  }

  /** The disconnect error each failed request gets. */
  function RepliesTo(ms: seq<Msg>): seq<ErrorReply> {
    if ms == [] then []
    else
      var m := ms[|ms| - 1];
      RepliesTo(ms[..|ms| - 1]) + if IsRequest(m) then [ErrorReply(m.id.value, m.verb.value)] else []
  }

  lemma RepliesToSnoc(ms: seq<Msg>, m: Msg)
    requires IsRequest(m)
    ensures RepliesTo(ms + [m]) == RepliesTo(ms) + [ErrorReply(m.id.value, m.verb.value)]
  {
  }

  /** What fails and what is kept are two parts of a batch that share no message and miss none. */
  lemma {:induction false} PartsOfBatch(s: Relay, ms: seq<Msg>)
    ensures multiset(FailableOf(s, ms)) + multiset(KeepableOf(s, ms)) == multiset(ms)
    ensures forall m :: m in FailableOf(s, ms) ==> Failable(s, m)
    ensures forall m :: m in KeepableOf(s, ms) ==> !Failable(s, m)
  {
    hide Failable;
    if ms != [] {
      assert ms == ms[..|ms| - 1] + [ms[|ms| - 1]];
      PartsOfBatch(s, ms[..|ms| - 1]);
    }
  }

  lemma {:induction false} FailItemsAre(s: Relay, ms: seq<Msg>)
    ensures FailItems(s, ms).1 == RepliesTo(FailableOf(s, ms))
    ensures FailItems(s, ms).2 == KeepableOf(s, ms)
  {
    hide Del, RepliesTo;
    if ms == [] {
      NoReplies();
    } else {
      var front, last := ms[..|ms| - 1], ms[|ms| - 1];
      FailItemsAre(s, front);
      var failed, kept := FailableOf(s, front), KeepableOf(s, front);
      if Failable(s, last) {
        assert FailableOf(s, ms) == failed + [last];
        assert KeepableOf(s, ms) == kept + [] == kept;
        RepliesToSnoc(failed, last);
      } else {
        assert FailableOf(s, ms) == failed + [] == failed;
      }
    }
  }

  lemma NoReplies()
    ensures RepliesTo([]) == []
  {
  }

  /** A split batch loses nothing: each message is answered with an error or kept, in order, and never both. */
  lemma BatchSplits(s: Relay, ms: seq<Msg>)
    ensures FailItems(s, ms).1 == RepliesTo(FailableOf(s, ms))
    ensures FailItems(s, ms).2 == KeepableOf(s, ms)
    ensures multiset(FailableOf(s, ms)) + multiset(KeepableOf(s, ms)) == multiset(ms)
    ensures forall m :: m in FailableOf(s, ms) ==> Failable(s, m)
    ensures forall m :: m in KeepableOf(s, ms) ==> !Failable(s, m)
  {
    hide FailItems, RepliesTo, FailableOf, KeepableOf, Failable;
    PartsOfBatch(s, ms);
    FailItemsAre(s, ms);
  }

  lemma {:induction false} FailItemsIds(s: Relay, ms: seq<Msg>)
    requires Distinct(RequestIds(ms)) && Unique(s.outstanding)
    ensures var r := FailItems(s, ms);
      Split(Ids(s.outstanding), ExemptIds(s), RequestIds(ms), r.0, ReplyIds(r.1), RequestIds(r.2))
  {
    var all, exempt := Ids(s.outstanding), ExemptIds(s);
    if ms != [] {
      hide Distinct, Elems, Unique, Ids, Del, Split;
      var front, m := ms[..|ms| - 1], ms[|ms| - 1];
      var own := if IsRequest(m) then [m.id.value] else [];
      var r, r', seen := FailItems(s, front), FailItems(s, ms), RequestIds(front);
      assert RequestIds(ms) == seen + own;
      DistinctConcat(seen, own);
      FailItemsIds(s, front);
      SplitOne(s, r.0, if m.id.Some? then m.id.value else NumberId(0), all, seen, ReplyIds(r.1), RequestIds(r.2));
      if Failable(s, m) {
        var id, e := m.id.value, ErrorReply(m.id.value, m.verb.value);
        assert r' == (Del(r.0, id), r.1 + [e], r.2);
        assert ReplyIds(r.1 + [e]) == ReplyIds(r.1) + [id];
        hide FailItems, RequestIds, ReplyIds;
        SplitMore(all, exempt, seen, r.0, ReplyIds(r.1), RequestIds(r.2), own, Del(r.0, id), [id], []);
        assert RequestIds(r.2) + [] == RequestIds(r.2);
      } else {
        assert r' == (r.0, r.1, r.2 + [m]);
        assert (r.2 + [m])[..|r.2|] == r.2;
        assert RequestIds(r.2 + [m]) == RequestIds(r.2) + own;
        hide FailItems, RequestIds, ReplyIds;
        SplitMore(all, exempt, seen, r.0, ReplyIds(r.1), RequestIds(r.2), own, r.0, [], own);
        assert ReplyIds(r.1) + [] == ReplyIds(r.1);
      }
    }
  }

  /** The requests of what a failed line keeps. */
  function KeptIds(keep: Option<Frame>): seq<Id> {
    if keep.Some? then RequestIds(Messages(keep.value)) else []
  }

  /** A failed line answers its requests except an unanswered `initialize`, and keeps exactly that one. */
  lemma FailRequestIds(s: Relay, f: Frame)
    requires Unique(s.outstanding) && Distinct(RequestIds(Messages(f)))
    ensures var (s', r) := FailRequest(s, f);
      && s' == s.(outstanding := s'.outstanding)
      && Split(Ids(s.outstanding), ExemptIds(s), RequestIds(Messages(f)), s'.outstanding,
               Answers(Opt(r.error)), KeptIds(r.keep))
  {
    hide Distinct, Elems, Unique, Ids, Del, Split;
    SplitNone(s, Ids(s.outstanding));
    if f.Single? {
      FailSingleIds(s, f.msg);
    } else if Messages(f) != [] {
      var ms := Messages(f);
      var (o, errors, kept) := FailItems(s, ms);
      FailItemsIds(s, ms);
      AnswersSnoc([], Errors(errors, true));
      assert [] + [Errors(errors, true)] == [Errors(errors, true)];
      assert Answers([Errors(errors, true)]) == ReplyIds(errors);
      ObjectsOf(kept);
      var r := FailRequest(s, f).1;
      assert r.error == if errors == [] then None else Some(Errors(errors, true));
      assert r.keep == if kept == [] then None else Some(Rebatch(kept));
      assert Answers(Opt(r.error)) == ReplyIds(errors);
      assert KeptIds(r.keep) == RequestIds(kept);
    }
  }

  lemma FailSingleIds(s: Relay, m: Msg)
    requires Unique(s.outstanding)
    ensures var (s', r) := FailRequest(s, Single(m));
      && s' == s.(outstanding := s'.outstanding)
      && Split(Ids(s.outstanding), ExemptIds(s), RequestIds([m]), s'.outstanding,
               Answers(Opt(r.error)), KeptIds(r.keep))
  {
    hide Distinct, Elems, Unique, Ids, Del, Split;
    SplitNone(s, Ids(s.outstanding));
    assert RequestIds([m]) == if IsRequest(m) then [m.id.value] else [];
    if IsRequest(m) {
      SplitOne(s, s.outstanding, m.id.value, Ids(s.outstanding), [], [], []);
      var e := Errors([ErrorReply(m.id.value, m.verb.value)], false);
      AnswersSnoc([], e);
      assert [] + [e] == [e] && RepliedIds(e) == [m.id.value];
    }
  }

  lemma SplitNone(s: Relay, all: set<Id>)
    requires Unique(s.outstanding)
    ensures all == Ids(s.outstanding) ==> Split(all, ExemptIds(s), [], s.outstanding, [], [])
  {
  }

  function PendingIds(q: seq<Queued>): seq<Id> {
    if q == [] then [] else PendingIds(q[..|q| - 1]) + RequestIds(Messages(q[|q| - 1].frame))
  }

  lemma PendingSnoc(q: seq<Queued>, last: Queued)
    ensures PendingIds(q + [last]) == PendingIds(q) + RequestIds(Messages(last.frame))
  {
  }

  /** What a failed line keeps goes back to the end of the queue. */
  lemma KeptSnoc(q: seq<Queued>, n: nat, keep: Option<Frame>)
    ensures PendingIds(if keep.Some? then q + [Queued(n, keep.value)] else q) == PendingIds(q) + KeptIds(keep)
    ensures q + [] == q
  {
  }

  /** Failing the whole queue answers each of its requests once, sparing an unanswered `initialize`. */
  lemma {:induction false} FailAllIds(s: Relay, q: seq<Queued>)
    requires Unique(s.outstanding) && Distinct(PendingIds(q))
    ensures var r := FailAll(s, q);
      && r.0 == s.(outstanding := r.0.outstanding)
      && Split(Ids(s.outstanding), ExemptIds(s), PendingIds(q), r.0.outstanding, Answers(r.1), PendingIds(r.2))
  {
    if q != [] {
      var front, last := q[..|q| - 1], q[|q| - 1];
      assert q == front + [last];
      PendingSnoc(front, last);
      hide Distinct, Elems, FailRequest, Unique, Ids, PendingIds, Answers, RequestIds, Messages;
      var own := RequestIds(Messages(last.frame));
      DistinctConcat(PendingIds(front), own);
      FailAllIds(s, front);
      var r := FailAll(s, front);
      hide Split;
      FailRequestIds(r.0, last.frame);
      var (s', f) := FailRequest(r.0, last.frame);
      AnswersConcat(r.1, Opt(f.error));
      SplitMore(Ids(s.outstanding), ExemptIds(s), PendingIds(front), r.0.outstanding, Answers(r.1), PendingIds(r.2),
                own, s'.outstanding, Answers(Opt(f.error)), KeptIds(f.keep));
      KeptSnoc(r.2, last.n, f.keep);
    }
  }
}

/**
  The fetch-and-deliver round of `PushoverClient._fetch_and_deliver`
  (linkover/client.py:82-117) as a function of the client's two fields and
  the outcome of the fetch, and what it guarantees over many rounds.

  The client keeps its watermark `_last_seen_id` in memory only: it starts at
  0 for every new client and is never written to the configuration.
 */
module Delivery {
  import opened Messages

  /** The two fields the round reads and writes. */
  datatype Snapshot = Snapshot(isFirstFetch: bool, lastSeenId: int)

  /** A fresh client (linkover/client.py:31-32). */
  const Start := Snapshot(true, 0)

  /**
    What one round hands out: the `is_initial` flag it used, the batch passed
    to the `on_messages` callback (if the callback is called at all) and the
    argument of the purge call `delete_messages` (if it is made).
   */
  datatype Round = Round(isInitial: bool, batch: Option<seq<Msg>>, purge: Option<int>)

  datatype Transition = Transition(next: Snapshot, round: Round)

  /** `max(m["id"] for m in messages)`. */
  function MaxId(ms: seq<Msg>): (r: int)
    requires ms != []
    ensures forall i :: 0 <= i < |ms| ==> ms[i].id <= r
    ensures exists i :: 0 <= i < |ms| && ms[i].id == r
  {
    if |ms| == 1 then ms[0].id
    else
      var rest := MaxId(ms[1..]);
      assert forall i :: 1 <= i < |ms| ==> ms[i] == ms[1..][i - 1];
      if ms[0].id >= rest then ms[0].id else rest
  }

  /** `[m for m in messages if m["id"] > watermark]`. */
  function Unseen(ms: seq<Msg>, watermark: int): (r: seq<Msg>)
    ensures |r| <= |ms|
    ensures forall i :: 0 <= i < |r| ==> r[i].id > watermark
  {
    if ms == [] then []
    else (if ms[0].id > watermark then [ms[0]] else []) + Unseen(ms[1..], watermark)
  }

  function Max(a: int, b: int): int
  {
    if a >= b then a else b
  }

  /** One call of `_fetch_and_deliver` with the given fetch outcome. */
  function Step(s: Snapshot, f: Fetch): Transition
  {
    var isInitial := s.isFirstFetch;
    match f
    case FetchFailed =>
      Transition(Snapshot(false, s.lastSeenId), Round(isInitial, None, None))
    case Fetched(ms) =>
      if ms == [] then
        Transition(Snapshot(false, s.lastSeenId), Round(isInitial, None, None))
      else
        var highest := MaxId(ms);
        var toDeliver := if isInitial then ms else Unseen(ms, s.lastSeenId);
        var watermark := if isInitial then highest else Max(s.lastSeenId, highest);
        Transition(
          Snapshot(false, watermark),
          Round(isInitial, if toDeliver == [] then None else Some(toDeliver), Some(highest)))
  }

  /** The messages a round hands to the callback (none when it is not called). */
  function Delivered(r: Round): seq<Msg>
  {
    if r.batch.Some? then r.batch.value else []
  }

  /** The rounds a client in state `s` goes through when its fetches return `fs`. */
  function Replay(s: Snapshot, fs: seq<Fetch>): (rounds: seq<Round>)
    ensures |rounds| == |fs|
    decreases |fs|
  {
    if fs == [] then [] else [Step(s, fs[0]).round] + Replay(Step(s, fs[0]).next, fs[1..])
  }

  /** The state after those rounds. */
  function After(s: Snapshot, fs: seq<Fetch>): Snapshot
    decreases |fs|
  {
    if fs == [] then s else After(Step(s, fs[0]).next, fs[1..])
  }

  /** `a` is `b` with some elements left out, the rest in their original order. */
  predicate Embeds(a: seq<Msg>, b: seq<Msg>)
  {
    if a == [] then true
    else if b == [] then false
    else (a[0] == b[0] && Embeds(a[1..], b[1..])) || Embeds(a, b[1..])
  }

  // ----- one round ---------------------------------------------------------

  /**
    The flag is consumed by every round, whatever the fetch does: the round
    reports the old flag as `is_initial` and leaves it false.
   */
  lemma FlagConsumed(s: Snapshot, f: Fetch)
    ensures Step(s, f).round.isInitial == s.isFirstFetch
    ensures !Step(s, f).next.isFirstFetch
  {
  }

  /** A failed or empty fetch leaves the watermark alone, calls nobody and purges nothing. */
  lemma NothingFetched(s: Snapshot, f: Fetch)
    requires f.FetchFailed? || f.messages == []
    ensures Step(s, f).next == Snapshot(false, s.lastSeenId)
    ensures Step(s, f).round.batch == None && Step(s, f).round.purge == None
  {
  }

  /**
    The initial round delivers the whole fetch, unfiltered and in fetched
    order, and moves the watermark to the largest id fetched.
   */
  lemma InitialRound(s: Snapshot, ms: seq<Msg>)
    requires s.isFirstFetch && ms != []
    ensures var t := Step(s, Fetched(ms));
      t.round.batch == Some(ms) && t.round.isInitial
      && (forall m :: m in ms ==> m.id <= t.next.lastSeenId)
      && (exists m :: m in ms && m.id == t.next.lastSeenId)
  {
    var w := Step(s, Fetched(ms)).next.lastSeenId;
    var i :| 0 <= i < |ms| && ms[i].id == w;
    assert ms[i] in ms;
  }

  /**
    A later round delivers exactly the fetched messages whose id is above the
    old watermark, in fetched order and with their multiplicities, and the new
    watermark is the larger of the old one and the largest id fetched.
   */
  lemma LaterRound(s: Snapshot, ms: seq<Msg>)
    requires !s.isFirstFetch && ms != []
    ensures var t := Step(s, Fetched(ms));
      Delivered(t.round) == Unseen(ms, s.lastSeenId)
      && t.next.lastSeenId == Max(s.lastSeenId, MaxId(ms))
      && t.next.lastSeenId >= s.lastSeenId
      && !t.round.isInitial
    ensures var d := Delivered(Step(s, Fetched(ms)).round);
      Embeds(d, ms) && forall m :: multiset(d)[m] == if m.id > s.lastSeenId then multiset(ms)[m] else 0
  {
    UnseenIsFilter(ms, s.lastSeenId);
  }

  /** `Unseen` is a filter: it keeps the messages above the watermark, in order, and nothing else. */
  lemma UnseenIsFilter(ms: seq<Msg>, w: int)
    ensures Embeds(Unseen(ms, w), ms)
    ensures forall m :: multiset(Unseen(ms, w))[m] == if m.id > w then multiset(ms)[m] else 0
  {
    UnseenEmbeds(ms, w);
    UnseenCounts(ms, w);
  }

  lemma {:induction false} UnseenEmbeds(ms: seq<Msg>, w: int)
    ensures Embeds(Unseen(ms, w), ms)
  {
    if ms != [] {
      UnseenEmbeds(ms[1..], w);
      var rest := Unseen(ms[1..], w);
      if ms[0].id > w {
        assert Unseen(ms, w) == [ms[0]] + rest;
        assert Unseen(ms, w)[1..] == rest;
      } else {
        assert Unseen(ms, w) == rest;
        EmbedsSkip(rest, ms);
      }
    }
  }

  lemma {:induction false} UnseenCounts(ms: seq<Msg>, w: int)
    ensures forall m :: multiset(Unseen(ms, w))[m] == if m.id > w then multiset(ms)[m] else 0
  {
    if ms != [] {
      UnseenCounts(ms[1..], w);
      assert ms == [ms[0]] + ms[1..];
      assert multiset(ms) == multiset{ms[0]} + multiset(ms[1..]);
      var head := if ms[0].id > w then [ms[0]] else [];
      assert multiset(Unseen(ms, w)) == multiset(head) + multiset(Unseen(ms[1..], w));
    }
  }

  /** Nothing is unseen when every id is at or below the watermark. */
  lemma {:induction false} NothingUnseen(ms: seq<Msg>, w: int)
    requires forall m :: m in ms ==> m.id <= w
    ensures Unseen(ms, w) == []
  {
    if ms != [] {
      assert ms[0] in ms;
      assert forall m :: m in ms[1..] ==> m in ms;
      NothingUnseen(ms[1..], w);
    }
  }

  /** Leaving out the first element of the longer sequence keeps an embedding. */
  lemma {:induction false} EmbedsSkip(a: seq<Msg>, b: seq<Msg>)
    requires b != [] && Embeds(a, b[1..])
    ensures Embeds(a, b)
  {
  }

  /**
    The callback is called at most once per round, never with an empty batch,
    and with that round's `is_initial`; nothing it does can change the
    watermark or the purge, which are fixed by the fetch alone.
   */
  lemma CallbackOnlyWithMessages(s: Snapshot, f: Fetch)
    ensures var r := Step(s, f).round;
      (r.batch.Some? ==> r.batch.value != [] && r.isInitial == s.isFirstFetch)
      && (r.batch.Some? ==> f.Fetched?)
  {
  }

  /**
    After any non-empty fetch the purge is requested exactly once, with the
    largest id fetched, even when that is below the watermark.
   */
  lemma PurgeNamesHighest(s: Snapshot, ms: seq<Msg>)
    requires ms != []
    ensures Step(s, Fetched(ms)).round.purge == Some(MaxId(ms))
    ensures Step(s, Fetched(ms)).next.lastSeenId >= MaxId(ms)
  {
  }

  /**
    Every message a round delivers has an id at most the watermark it leaves
    behind, so no later round delivers it again.
   */
  lemma {:induction false} DeliveredBelowWatermark(s: Snapshot, f: Fetch, m: Msg)
    requires m in Delivered(Step(s, f).round)
    ensures m.id <= Step(s, f).next.lastSeenId
  {
    var ms := f.messages;
    if !s.isFirstFetch {
      UnseenFrom(ms, s.lastSeenId, m);
    }
    var i :| 0 <= i < |ms| && ms[i] == m;
  }

  /** Everything `Unseen` keeps comes from the fetch. */
  lemma {:induction false} UnseenFrom(ms: seq<Msg>, w: int, m: Msg)
    requires m in Unseen(ms, w)
    ensures m in ms
  {
    if ms[0] != m {
      assert m in Unseen(ms[1..], w);
      UnseenFrom(ms[1..], w, m);
    }
  }

  /**
    A failed purge leaves the provider's queue as it was, so the next fetch
    returns the same messages again (perhaps with fewer of them): that round
    delivers nothing and leaves the watermark where it was. It still asks for
    the purge again.
   */
  lemma {:induction false} RefetchDeliversNothing(s: Snapshot, ms: seq<Msg>, again: seq<Msg>)
    requires ms != [] && again != []
    requires forall m :: m in again ==> m in ms
    ensures var s1 := Step(s, Fetched(ms)).next;
      var t := Step(s1, Fetched(again));
      t.round.batch == None && t.next == s1 && t.round.purge == Some(MaxId(again))
  {
    var s1 := Step(s, Fetched(ms)).next;
    assert forall m :: m in again ==> m.id <= s1.lastSeenId by {
      forall m | m in again
        ensures m.id <= s1.lastSeenId
      {
        var i :| 0 <= i < |ms| && ms[i] == m;
      }
    }
    NothingUnseen(again, s1.lastSeenId);
    var j :| 0 <= j < |again| && again[j].id == MaxId(again);
    assert again[j] in again;
  }

  // ----- many rounds -------------------------------------------------------

  lemma {:induction false} ReplaySnoc(s: Snapshot, fs: seq<Fetch>, f: Fetch)
    ensures After(s, fs + [f]) == Step(After(s, fs), f).next
    ensures Replay(s, fs + [f]) == Replay(s, fs) + [Step(After(s, fs), f).round]
    decreases |fs|
  {
    if fs != [] {
      assert (fs + [f])[1..] == fs[1..] + [f];
      ReplaySnoc(Step(s, fs[0]).next, fs[1..], f);
    } else {
      assert fs + [f] == [f];
    }
  }

  /** Replaying two histories one after the other is replaying their concatenation. */
  lemma {:induction false} AfterConcat(s: Snapshot, a: seq<Fetch>, b: seq<Fetch>)
    ensures After(s, a + b) == After(After(s, a), b)
    ensures Replay(s, a + b) == Replay(s, a) + Replay(After(s, a), b)
    decreases |a|
  {
    if a == [] {
      assert a + b == b;
    } else {
      assert (a + b)[0] == a[0];
      assert (a + b)[1..] == a[1..] + b;
      AfterConcat(Step(s, a[0]).next, a[1..], b);
    }
  }

  /**
    `is_initial` is true for the first round of a client and for no other round,
    whatever the earlier rounds fetched (a failed or empty first round uses it up).
   */
  lemma {:induction false} InitialExactlyOnce(fs: seq<Fetch>, i: nat)
    requires i < |fs|
    ensures Replay(Start, fs)[i].isInitial <==> i == 0
  {
    if i > 0 {
      LaterRoundsNotInitial(Step(Start, fs[0]).next, fs[1..], i - 1);
    }
  }

  lemma {:induction false} LaterRoundsNotInitial(s: Snapshot, fs: seq<Fetch>, i: nat)
    requires !s.isFirstFetch && i < |fs|
    ensures !Replay(s, fs)[i].isInitial
    decreases |fs|
  {
    if i > 0 {
      LaterRoundsNotInitial(Step(s, fs[0]).next, fs[1..], i - 1);
    }
  }

  /** From the first round on, the watermark never moves backwards. */
  lemma {:induction false} WatermarkNeverDecreases(s: Snapshot, fs: seq<Fetch>)
    requires !s.isFirstFetch
    ensures !After(s, fs).isFirstFetch
    ensures After(s, fs).lastSeenId >= s.lastSeenId
    decreases |fs|
  {
    if fs != [] {
      WatermarkNeverDecreases(Step(s, fs[0]).next, fs[1..]);
    }
  }

  /** Every message a later round delivers is above the watermark the rounds started from. */
  lemma {:induction false} LaterDeliveriesAbove(s: Snapshot, fs: seq<Fetch>, j: nat, m: Msg)
    requires !s.isFirstFetch && j < |fs|
    requires m in Delivered(Replay(s, fs)[j])
    ensures m.id > s.lastSeenId
    decreases |fs|
  {
    var s1 := Step(s, fs[0]).next;
    if j == 0 {
      var ms := fs[0].messages;
      var d := Unseen(ms, s.lastSeenId);
      var k :| 0 <= k < |d| && d[k] == m;
    } else {
      LaterDeliveriesAbove(s1, fs[1..], j - 1, m);
    }
  }

  /**
    At most once, across rounds: every id delivered in a later round is
    strictly above every id delivered in an earlier one, so no message is
    handed to the callback in two rounds of the same client.
   */
  lemma {:induction false} DeliveredIdsIncrease(s: Snapshot, fs: seq<Fetch>, i: nat, j: nat, a: Msg, b: Msg)
    requires i < j < |fs|
    requires a in Delivered(Replay(s, fs)[i]) && b in Delivered(Replay(s, fs)[j])
    ensures a.id < b.id
    decreases |fs|
  {
    var s1 := Step(s, fs[0]).next;
    if i == 0 {
      DeliveredBelowWatermark(s, fs[0], a);
      LaterDeliveriesAbove(s1, fs[1..], j - 1, b);
    } else {
      DeliveredIdsIncrease(s1, fs[1..], i - 1, j - 1, a, b);
    }
  }

  // ----- scenarios ---------------------------------------------------------

  /**
    A fresh client first fetches ids 1 and 2 and delivers both as the initial
    batch; the next fetch returns ids 2 and 3 and delivers only id 3.
   */
  lemma {:induction false} TwoRoundScenario(a: Msg, b: Msg, c: Msg)
    requires a.id == 1 && b.id == 2 && c.id == 3
    ensures var t1 := Step(Start, Fetched([a, b]));
      var t2 := Step(t1.next, Fetched([b, c]));
      t1.round == Round(true, Some([a, b]), Some(2)) && t1.next.lastSeenId == 2
      && t2.round == Round(false, Some([c]), Some(3)) && t2.next.lastSeenId == 3
  {
    assert MaxId([a, b]) == 2;
    assert MaxId([b, c]) == 3;
    assert Unseen([b, c], 2) == [c];
  }
}

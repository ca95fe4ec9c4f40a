/** The development rate limiter (src/app/core/rate_limit.py).

    The limiter keeps one trimmed queue per key and deletes whole queues from
    time to time. The reference below keeps every accepted call for ever. The
    class is proved to take the reference's decision on every call.
  */
module RateLimit {
  import Invariants

  type Time = real
  datatype Key = Key(name: string)
  type Span = t: Time | 0.0 <= t

  datatype Accept = Accept(key: Key, at: Time)
  datatype Call = Call(key: Key, limit: int, now: Time)

  // ----- The reference: an unbounded history of accepted calls -----

  /** The accepted calls of one key, oldest first. */
  ghost function History(log: seq<Accept>, key: Key): seq<Time> {
    if log == [] then []
    else
      var last := log[|log| - 1];
      History(log[..|log| - 1], key) + (if last.key == key then [last.at] else [])
  }

  /** How many accepted calls of `key` lie in the half-open interval (after, upTo]. */
  ghost function Between(log: seq<Accept>, key: Key, after: Time, upTo: Time): nat {
    if log == [] then 0
    else
      var last := log[|log| - 1];
      Between(log[..|log| - 1], key, after, upTo)
      + (if last.key == key && after < last.at <= upTo then 1 else 0)
  }

  /** The sliding-window rule: fewer than `limit` accepts in the window that ends now. */
  ghost predicate Admits(log: seq<Accept>, call: Call, window: Span) {
    Between(log, call.key, call.now - window, call.now) < call.limit
  }

  /** A call is admitted exactly when fewer accepted calls of its key than the limit lie in its window. */
  lemma {:induction false} AdmitsMeans(log: seq<Accept>, call: Call, window: Span)
    ensures Admits(log, call, window) <==>
            |Invariants.Places(log, (a: Accept) => a.key == call.key && call.now - window < a.at <= call.now)|
            < call.limit
    ensures Between(log, call.key, call.now - window, call.now) ==
            |Invariants.Places(log, (a: Accept) => a.key == call.key && call.now - window < a.at <= call.now)|
  {
    if log != [] {
      AdmitsMeans(log[..|log| - 1], call, window);
      Invariants.OneMorePlace(log, (a: Accept) => a.key == call.key && call.now - window < a.at <= call.now);
    }
  }

  ghost function Logged(log: seq<Accept>, call: Call, window: Span): seq<Accept> {
    if Admits(log, call, window) then log + [Accept(call.key, call.now)] else log
  }

  /** The history after a whole sequence of calls. */
  ghost function LogAfter(calls: seq<Call>, window: Span): seq<Accept> {
    if calls == [] then []
    else Logged(LogAfter(calls[..|calls| - 1], window), calls[|calls| - 1], window)
  }

  ghost predicate ClockMonotone(calls: seq<Call>) {
    forall i, j :: 0 <= i < j < |calls| ==> calls[i].now <= calls[j].now
  }

  // ----- What the reference promises -----

  lemma {:induction false} LogBefore(calls: seq<Call>, window: Span, t: Time)
    requires ClockMonotone(calls)
    requires calls != [] ==> calls[|calls| - 1].now <= t
    ensures forall a :: a in LogAfter(calls, window) ==> a.at <= t
  {
    if calls != [] {
      LogBefore(calls[..|calls| - 1], window, t);
    }
  }

  /** Moving the window's end later can only lose accepts once all of them are in the past. */
  lemma {:induction false} BetweenShrinks(log: seq<Accept>, key: Key, now: Time, t: Time, window: Span)
    requires forall a :: a in log ==> a.at <= now
    requires now <= t
    ensures Between(log, key, t - window, t) <= Between(log, key, now - window, now)
  {
    if log != [] {
      assert log[|log| - 1] in log;
      BetweenShrinks(log[..|log| - 1], key, now, t, window);
    }
  }

  lemma BetweenOfAppend(log: seq<Accept>, a: Accept, key: Key, after: Time, upTo: Time)
    ensures Between(log + [a], key, after, upTo) ==
            Between(log, key, after, upTo) + if a.key == key && after < a.at <= upTo then 1 else 0
  {
    assert (log + [a])[..|log|] == log;
  }

  lemma CallKeepsWindows(log: seq<Accept>, c: Call, window: Span, key: Key, limit: nat, t: Time)
    requires forall a :: a in log ==> a.at <= c.now
    requires Between(log, key, t - window, t) <= limit && (c.key == key ==> c.limit == limit)
    ensures Between(Logged(log, c, window), key, t - window, t) <= limit
  {
    if Admits(log, c, window) {
      BetweenOfAppend(log, Accept(c.key, c.now), key, t - window, t);
      if c.key == key && c.now <= t {
        BetweenShrinks(log, key, c.now, t, window);
      }
    }
  }

  /** No window of the given length, wherever it ends, ever holds more than `limit` accepts of a
      key whose calls all use that limit. */
  lemma {:induction false} NoWindowOverflows(calls: seq<Call>, window: Span, key: Key, limit: nat, t: Time)
    requires ClockMonotone(calls)
    requires forall c :: c in calls && c.key == key ==> c.limit == limit
    ensures Between(LogAfter(calls, window), key, t - window, t) <= limit
  {
    if calls != [] {
      var rest, c := calls[..|calls| - 1], calls[|calls| - 1];
      assert c in calls;
      NoWindowOverflows(rest, window, key, limit, t);
      LogBefore(rest, window, c.now);
      CallKeepsWindows(LogAfter(rest, window), c, window, key, limit, t);
    }
  }

  // ----- The trimmed queue of one key -----

  /** `bucket` is ascending and is what is left of `history` after dropping entries no later than
      `cutoff`. */
  ghost predicate Keeps(bucket: seq<Time>, history: seq<Time>, cutoff: Time) {
    && |bucket| <= |history|
    && (forall i :: 0 <= i < |bucket| ==> bucket[i] == history[|history| - |bucket| + i])
    && (forall i :: 0 <= i < |history| - |bucket| ==> history[i] <= cutoff)
    && (forall i, j :: 0 <= i < j < |bucket| ==> bucket[i] <= bucket[j])
  }

  lemma KeepsDrop(bucket: seq<Time>, history: seq<Time>, cutoff: Time)
    requires Keeps(bucket, history, cutoff) && bucket != [] && bucket[0] <= cutoff
    ensures Keeps(bucket[1..], history, cutoff)
  {
  }

  lemma KeepsNothing(bucket: seq<Time>, history: seq<Time>, cutoff: Time)
    requires Keeps(bucket, history, cutoff)
    requires bucket != [] ==> bucket[|bucket| - 1] <= cutoff
    ensures Keeps([], history, cutoff)
  {
    var n := |history| - |bucket|;
    forall i | 0 <= i < |history| ensures history[i] <= cutoff {
      if i >= n {
        assert bucket[i - n] == history[i];
      }
    }
  }

  lemma KeepsPush(bucket: seq<Time>, history: seq<Time>, cutoff: Time, t: Time)
    requires Keeps(bucket, history, cutoff)
    requires forall u :: u in history ==> u <= t
    ensures Keeps(bucket + [t], history + [t], cutoff)
  {
    forall i | 0 <= i < |bucket| ensures bucket[i] <= t {
      assert bucket[i] in history;
    }
  }

  ghost function CountAfter(ts: seq<Time>, cutoff: Time): nat {
    if ts == [] then 0
    else CountAfter(ts[..|ts| - 1], cutoff) + (if ts[|ts| - 1] > cutoff then 1 else 0)
  }

  lemma {:induction false} CountNone(ts: seq<Time>, cutoff: Time)
    requires forall i :: 0 <= i < |ts| ==> ts[i] <= cutoff
    ensures CountAfter(ts, cutoff) == 0
  {
    if ts != [] {
      CountNone(ts[..|ts| - 1], cutoff);
    }
  }

  lemma {:induction false} CountOfKept(bucket: seq<Time>, history: seq<Time>, cutoff: Time)
    requires Keeps(bucket, history, cutoff)
    requires forall i :: 0 <= i < |bucket| ==> bucket[i] > cutoff
    ensures CountAfter(history, cutoff) == |bucket|
  {
    if bucket == [] {
      CountNone(history, cutoff);
    } else {
      var h, b := history[..|history| - 1], bucket[..|bucket| - 1];
      assert bucket[|bucket| - 1] == history[|history| - 1];
      CountOfKept(b, h, cutoff);
    }
  }

  lemma {:induction false} BetweenIsCount(log: seq<Accept>, key: Key, after: Time, upTo: Time)
    requires forall a :: a in log ==> a.at <= upTo
    ensures Between(log, key, after, upTo) == CountAfter(History(log, key), after)
    ensures forall t :: t in History(log, key) ==> t <= upTo
  {
    if log != [] {
      var front, last := log[..|log| - 1], log[|log| - 1];
      assert last in log;
      BetweenIsCount(front, key, after, upTo);
      if last.key == key {
        var h := History(log, key);
        assert h[..|h| - 1] == History(front, key);
      } else {
        assert History(log, key) == History(front, key);
      }
    }
  }

  lemma HistoryOfAppend(log: seq<Accept>, a: Accept, key: Key)
    ensures History(log + [a], key) == History(log, key) + (if a.key == key then [a.at] else [])
  {
    assert (log + [a])[..|log|] == log;
  }

  // ----- All the queues together -----

  type Queues = map<Key, seq<Time>>

  function Bucket(queues: Queues, key: Key): seq<Time> {
    if key in queues then queues[key] else []
  }

  /** Every queue is its key's history less entries that have left the window ending now. */
  ghost predicate Faithful(queues: Queues, log: seq<Accept>, now: Time, window: Span) {
    forall key :: Keeps(Bucket(queues, key), History(log, key), now - window)
  }

  /** Every non-empty queue's newest entry is at `oldest` or later. */
  ghost predicate NoneIdleSince(queues: Queues, oldest: Time) {
    forall key :: key in queues && queues[key] != [] ==> queues[key][|queues[key]| - 1] >= oldest
  }

  lemma FaithfulLater(queues: Queues, log: seq<Accept>, now: Time, later: Time, window: Span)
    requires Faithful(queues, log, now, window) && now <= later
    ensures Faithful(queues, log, later, window)
  {
    forall key ensures Keeps(Bucket(queues, key), History(log, key), later - window) {
      assert Keeps(Bucket(queues, key), History(log, key), now - window);
    }
  }

  lemma FaithfulWithout(queues: Queues, log: seq<Accept>, now: Time, window: Span, expired: set<Key>)
    requires Faithful(queues, log, now, window)
    requires forall k :: k in expired ==>
               k in queues && (queues[k] == [] || queues[k][|queues[k]| - 1] <= now - window)
    ensures Faithful(queues - expired, log, now, window)
  {
    forall key ensures Keeps(Bucket(queues - expired, key), History(log, key), now - window) {
      assert Keeps(Bucket(queues, key), History(log, key), now - window);
      if key in expired {
        KeepsNothing(queues[key], History(log, key), now - window);
      }
    }
  }

  lemma FaithfulWith(queues: Queues, log: seq<Accept>, now: Time, window: Span, key: Key, bucket: seq<Time>)
    requires Faithful(queues, log, now, window) && Keeps(bucket, History(log, key), now - window)
    ensures Faithful(queues[key := bucket], log, now, window)
  {
    forall k ensures Keeps(Bucket(queues[key := bucket], k), History(log, k), now - window) {
      assert Keeps(Bucket(queues, k), History(log, k), now - window);
    }
  }

  lemma FaithfulFor(queues: Queues, log: seq<Accept>, now: Time, window: Span, key: Key, bucket: seq<Time>, k: Key)
    requires Faithful(queues, log, now, window) && Keeps(bucket, History(log, key), now - window)
    requires forall t :: t in History(log, key) ==> t <= now
    ensures Keeps(Bucket(queues[key := bucket + [now]], k), History(log + [Accept(key, now)], k), now - window)
  {
    assert Keeps(Bucket(queues, k), History(log, k), now - window);
    HistoryOfAppend(log, Accept(key, now), k);
    if k == key {
      KeepsPush(bucket, History(log, k), now - window, now);
    } else {
      assert History(log, k) + [] == History(log, k);
    }
  }

  lemma FaithfulAccepting(queues: Queues, log: seq<Accept>, now: Time, window: Span, key: Key, bucket: seq<Time>)
    requires Faithful(queues, log, now, window) && Keeps(bucket, History(log, key), now - window)
    requires forall t :: t in History(log, key) ==> t <= now
    ensures Faithful(queues[key := bucket + [now]], log + [Accept(key, now)], now, window)
  {
    forall k
      ensures Keeps(Bucket(queues[key := bucket + [now]], k), History(log + [Accept(key, now)], k), now - window)
    {
      FaithfulFor(queues, log, now, window, key, bucket, k);
    }
  }

  lemma IdleWithout(queues: Queues, oldest: Time, expired: set<Key>)
    requires forall k :: k in queues && k !in expired ==>
               queues[k] != [] && queues[k][|queues[k]| - 1] >= oldest
    ensures NoneIdleSince(queues - expired, oldest)
  {
  }

  lemma IdleWith(queues: Queues, oldest: Time, key: Key, bucket: seq<Time>)
    requires NoneIdleSince(queues, oldest)
    requires bucket != [] ==> bucket[|bucket| - 1] >= oldest
    ensures NoneIdleSince(queues[key := bucket], oldest)
  {
  }

  /** Counting the trimmed queue is counting the accepts in the window. */
  lemma BucketDecides(log: seq<Accept>, key: Key, limit: int, window: Span, now: Time, bucket: seq<Time>)
    requires Keeps(bucket, History(log, key), now - window)
    requires forall i :: 0 <= i < |bucket| ==> bucket[i] > now - window
    requires forall a :: a in log ==> a.at <= now
    ensures |bucket| < limit <==> Admits(log, Call(key, limit, now), window)
    ensures forall t :: t in History(log, key) ==> t <= now
  {
    BetweenIsCount(log, key, now - window, now);
    CountOfKept(bucket, History(log, key), now - window);
  }

  // ----- The limiter -----

  class InMemoryRateLimiter {
    var requests: Queues
    var nextSweep: Time
    ghost var log: seq<Accept>   // every call accepted so far
    ghost var clock: Time        // the latest time seen

    ghost predicate Valid(window: Span)
      reads this
    {
      && 0.0 <= clock && nextSweep <= clock + window
      && (forall a :: a in log ==> a.at <= clock)
      && Faithful(requests, log, clock, window)
      && NoneIdleSince(requests, nextSweep - 2.0 * window)
    }

    constructor (ghost start: Time)
      requires 0.0 <= start
      ensures forall window: Span :: Valid(window)
      ensures log == [] && clock == start
    {
      requests, nextSweep := map[], 0.0;
      log, clock := [], start;
    }

    /** Decides one call exactly as the full history would, and keeps no queue that has been
        silent for two windows. */
    method Allow(key: Key, limit: int, window: Span, now: Time) returns (allowed: bool)
      requires Valid(window) && clock <= now
      modifies this
      ensures Valid(window) && clock == now
      ensures allowed <==> Admits(old(log), Call(key, limit, now), window)
      ensures log == Logged(old(log), Call(key, limit, now), window)
      ensures NoneIdleSince(requests, now - 2.0 * window)
    {
      EvictExpired(now, window);
      assert Keeps(Bucket(requests, key), History(log, key), now - window);
      var bucket := DropElapsed(Bucket(requests, key), now - window, History(log, key));
      BucketDecides(log, key, limit, window, now, bucket);
      allowed := |bucket| < limit;
      Remember(key, bucket, allowed, window, now);
    }

    /** Puts the trimmed queue back, with the call itself if it was accepted. */
    method Remember(key: Key, bucket: seq<Time>, accepted: bool, window: Span, now: Time)
      requires Valid(window) && clock == now && nextSweep >= now
      requires Keeps(bucket, History(log, key), now - window)
      requires forall t :: t in History(log, key) ==> t <= now
      requires bucket != [] ==> bucket[|bucket| - 1] >= nextSweep - 2.0 * window
      modifies `requests, `log
      ensures Valid(window)
      ensures log == if accepted then old(log) + [Accept(key, now)] else old(log)
    {
      if accepted {
        FaithfulAccepting(requests, log, now, window, key, bucket);
        IdleWith(requests, nextSweep - 2.0 * window, key, bucket + [now]);
        requests := requests[key := bucket + [now]];
        log := log + [Accept(key, now)];
      } else {
        FaithfulWith(requests, log, now, window, key, bucket);
        IdleWith(requests, nextSweep - 2.0 * window, key, bucket);
        requests := requests[key := bucket];
      }
    }

    /** Pops the entries that have left the window off the front of one queue. */
    method DropElapsed(queue: seq<Time>, cutoff: Time, ghost history: seq<Time>) returns (bucket: seq<Time>)
      requires Keeps(queue, history, cutoff)
      ensures Keeps(bucket, history, cutoff)
      ensures forall i :: 0 <= i < |bucket| ==> bucket[i] > cutoff
      ensures bucket != [] ==> queue != [] && bucket[|bucket| - 1] == queue[|queue| - 1]
    {
      bucket := queue;
      while bucket != [] && bucket[0] <= cutoff
        invariant Keeps(bucket, history, cutoff)
        invariant bucket != [] ==> queue != [] && bucket[|bucket| - 1] == queue[|queue| - 1]
      {
        KeepsDrop(bucket, history, cutoff);
        bucket := bucket[1..];
      }
    }

    /** Deletes queues whose window has fully elapsed; no later decision can tell. */
    method EvictExpired(now: Time, window: Span)
      requires Valid(window) && clock <= now
      modifies this
      ensures Valid(window) && clock == now && log == old(log)
      ensures nextSweep >= now
    {
      clock := now;
      var cutoff := now - window;
      FaithfulLater(requests, log, old(clock), now, window);
      if now < nextSweep {
        return;
      }
      nextSweep := now + window;
      var expired := set k | k in requests
                             && (requests[k] == [] || requests[k][|requests[k]| - 1] <= cutoff);
      FaithfulWithout(requests, log, now, window, expired);
      IdleWithout(requests, cutoff - window, expired);
      ghost var queues, all := requests, expired;
      while expired != {}
        invariant expired <= all
        invariant requests == queues - (all - expired)
        invariant clock == now && log == old(log) && nextSweep == now + window
      {
        var k :| k in expired;
        requests := requests - {k};
        expired := expired - {k};
      }
      assert requests == queues - all;
    }
  }

  /** What the reference says about the call at `i`, knowing the calls before it. */
  ghost predicate Accepted(calls: seq<Call>, window: Span, i: nat)
    requires i < |calls|
  {
    Admits(LogAfter(calls[..i], window), calls[i], window)
  }

  lemma LogAfterNext(calls: seq<Call>, window: Span, i: nat)
    requires i < |calls|
    ensures LogAfter(calls[..i + 1], window) == Logged(LogAfter(calls[..i], window), calls[i], window)
  {
    assert calls[..i + 1][..i] == calls[..i];
  }

  /** A limiter serving a whole sequence of calls answers like the reference throughout. */
  method Serve(calls: seq<Call>, window: Span) returns (decisions: seq<bool>)
    requires ClockMonotone(calls)
    requires forall c :: c in calls ==> 0.0 <= c.now
    ensures |decisions| == |calls|
    ensures forall i :: 0 <= i < |calls| ==> (decisions[i] <==> Accepted(calls, window, i))
  {
    var limiter := new InMemoryRateLimiter(0.0);
    decisions := [];
    for i := 0 to |calls|
      invariant limiter.Valid(window) && fresh(limiter)
      invariant limiter.log == LogAfter(calls[..i], window)
      invariant limiter.clock == if i == 0 then 0.0 else calls[i - 1].now
      invariant |decisions| == i
      invariant forall j :: 0 <= j < i ==> (decisions[j] <==> Accepted(calls, window, j))
    {
      LogAfterNext(calls, window, i);
      var d := limiter.Allow(calls[i].key, calls[i].limit, window, calls[i].now);
      assert d <==> Accepted(calls, window, i);
      decisions := decisions + [d];
    }
  }
}

/** The fixed-window rate limiter: its bucket map with a sweeper, against a limiter of one key that never sweeps. */
module RateLimit {
  import opened Options

  type Key = string

  datatype Bucket = Bucket(count: nat, resetAt: nat)

  datatype Outcome = Admitted | Refused(retryAfter: nat)

  datatype Limits = Limits(windowMs: nat, max: nat)

  function CeilSeconds(ms: nat): nat { (ms + 999) / 1000 }

  // ---------------------------------------------------------------------------------------------
  // One key alone
  // ---------------------------------------------------------------------------------------------

  /** The bucket a request counts in: the one there is unless it has expired. */
  function Current(l: Limits, b: Option<Bucket>, now: nat): Bucket {
    if b.None? || b.value.resetAt <= now then Bucket(0, now + l.windowMs) else b.value
  }

  function Counted(l: Limits, b: Option<Bucket>, now: nat): (c: Bucket)
    ensures c.resetAt >= now && c.count >= 1
  {
    var c := Current(l, b, now);
    c.(count := c.count + 1)
  }

  function Verdict(l: Limits, b: Option<Bucket>, now: nat): Outcome {
    var c := Counted(l, b, now);
    if c.count > l.max then Refused(CeilSeconds(c.resetAt - now)) else Admitted
  }

  /** The outcomes of one key's requests at `times`, with no sweeper and nobody else. */
  function Alone(l: Limits, b: Option<Bucket>, times: seq<nat>): seq<Outcome>
    decreases |times|
  {
    if times == [] then []
    else [Verdict(l, b, times[0])] + Alone(l, Some(Counted(l, b, times[0])), times[1..])
  }

  predicate Rising(times: seq<nat>, from: nat) {
    times == [] || (from <= times[0] && Rising(times[1..], times[0]))
  }

  /** How many requests are admitted at a time in `[x, y)`. */
  function AdmittedIn(l: Limits, b: Option<Bucket>, times: seq<nat>, x: nat, y: nat): nat
    decreases |times|
  {
    if times == [] then 0
    else
      (if Verdict(l, b, times[0]).Admitted? && x <= times[0] < y then 1 else 0)
      + AdmittedIn(l, Some(Counted(l, b, times[0])), times[1..], x, y)
  }

  function Room(l: Limits, b: Bucket): nat { if b.count < l.max then l.max - b.count else 0 }

  /** From a bucket that outlives the interval, only what room it has left can be admitted. */
  lemma {:induction false} BucketAdmitsItsRoom(l: Limits, b: Bucket, times: seq<nat>, x: nat, y: nat, from: nat)
    requires Rising(times, from) && y <= b.resetAt
    ensures AdmittedIn(l, Some(b), times, x, y) <= Room(l, b)
    decreases |times|
  {
    if times != [] {
      if times[0] < y {
        BucketAdmitsItsRoom(l, Counted(l, Some(b), times[0]), times[1..], x, y, times[0]);
      } else {
        NoneAfter(l, Some(Counted(l, Some(b), times[0])), times[1..], x, y, times[0]);
      }
    }
  }

  lemma {:induction false} NoneAfter(l: Limits, b: Option<Bucket>, times: seq<nat>, x: nat, y: nat, from: nat)
    requires Rising(times, from) && y <= from
    ensures AdmittedIn(l, b, times, x, y) == 0
    decreases |times|
  {
    if times != [] {
      NoneAfter(l, Some(Counted(l, b, times[0])), times[1..], x, y, times[0]);
    }
  }

  /** Each bucket admits at most `max`: so many requests are admitted from its opening until it expires. */
  lemma BucketAdmitsAtMostMax(l: Limits, b: Option<Bucket>, times: seq<nat>, from: nat)
    requires Rising(times, from) && times != [] && (b.None? || b.value.resetAt <= times[0])
    ensures AdmittedIn(l, b, times, times[0], times[0] + l.windowMs) <= l.max
  {
    var c := Counted(l, b, times[0]);
    BucketAdmitsItsRoom(l, c, times[1..], times[0], times[0] + l.windowMs, times[0]);
    if l.max == 0 {
      assert Room(l, c) == 0;
    }
  }

  /** A bucket that expires inside the interval leaves room for itself and one more. */
  lemma {:induction false} TwoBuckets(l: Limits, b: Bucket, times: seq<nat>, x: nat, from: nat)
    requires Rising(times, from) && x < b.resetAt
    ensures AdmittedIn(l, Some(b), times, x, x + l.windowMs) <= Room(l, b) + l.max
    decreases |times|
  {
    if times != [] {
      var c := Counted(l, Some(b), times[0]);
      if times[0] < b.resetAt {
        TwoBuckets(l, c, times[1..], x, times[0]);
      } else {
        BucketAdmitsItsRoom(l, c, times[1..], x, x + l.windowMs, times[0]);
      }
    }
  }

  /**
   Any half-open interval one window long, wherever it starts, admits at most `2 * max - 1` requests of a
   key: the request that opened the first of the two buckets it can meet came before it.
   */
  lemma {:induction false} WindowAdmitsLessThanTwiceMax(l: Limits, b: Option<Bucket>, times: seq<nat>, x: nat,
      from: nat)
    requires Rising(times, from) && (b.None? || b.value.resetAt <= x) && l.max >= 1
    ensures AdmittedIn(l, b, times, x, x + l.windowMs) <= 2 * l.max - 1
    decreases |times|
  {
    if times != [] {
      var c := Counted(l, b, times[0]);
      if c.resetAt <= x {
        WindowAdmitsLessThanTwiceMax(l, Some(c), times[1..], x, times[0]);
      } else {
        TwoBuckets(l, c, times[1..], x, times[0]);
        if x + l.windowMs <= c.resetAt {
          BucketAdmitsItsRoom(l, c, times[1..], x, x + l.windowMs, times[0]);
        }
      }
    }
  }

  lemma {:induction false} NothingAdmitsNothing(l: Limits, b: Option<Bucket>, times: seq<nat>, x: nat, y: nat,
      from: nat)
    requires Rising(times, from) && l.max == 0 && l.windowMs >= 1
    ensures AdmittedIn(l, b, times, x, y) == 0
    decreases |times|
  {
    if times != [] {
      NothingAdmitsNothing(l, Some(Counted(l, b, times[0])), times[1..], x, y, times[0]);
    }
  }

  function Copies(t: nat, n: nat): seq<nat> {
    if n == 0 then [] else [t] + Copies(t, n - 1)
  }

  /** `n` requests at once, inside the interval and with room for all of them, are all admitted. */
  lemma {:induction false} BurstAdmitted(l: Limits, b: Bucket, t: nat, n: nat, rest: seq<nat>, x: nat, y: nat)
    requires x <= t < y && t < b.resetAt && b.count + n <= l.max
    ensures AdmittedIn(l, Some(b), Copies(t, n) + rest, x, y)
         == n + AdmittedIn(l, Some(b.(count := b.count + n)), rest, x, y)
    decreases n
  {
    if n == 0 {
      assert Copies(t, 0) + rest == rest;
    } else {
      var times := Copies(t, n) + rest;
      assert times[0] == t && times[1..] == Copies(t, n - 1) + rest;
      BurstAdmitted(l, b.(count := b.count + 1), t, n - 1, rest, x, y);
    }
  }

  /** The bound is exact: for every `max` and every window some requests reach it. */
  lemma BoundIsReached(l: Limits)
    requires l.max >= 1 && l.windowMs >= 2
    ensures
      var w := l.windowMs;
      AdmittedIn(l, None, [0] + (Copies(w - 1, l.max - 1) + Copies(w, l.max)), w - 1, w - 1 + w) == 2 * l.max - 1
  {
    var w := l.windowMs;
    var late := Copies(w, l.max);
    var times := [0] + (Copies(w - 1, l.max - 1) + late);
    assert times[1..] == Copies(w - 1, l.max - 1) + late;
    BurstAdmitted(l, Bucket(1, w), w - 1, l.max - 1, late, w - 1, w - 1 + w);
    assert late[0] == w && late[1..] == Copies(w, l.max - 1);
    var second := Bucket(1, w + w);
    assert Counted(l, Some(Bucket(l.max, w)), w) == second;
    BurstAdmitted(l, second, w, l.max - 1, [], w - 1, w - 1 + w);
    assert Copies(w, l.max - 1) + [] == Copies(w, l.max - 1);
  }

  // ---------------------------------------------------------------------------------------------
  // Retry-After
  // ---------------------------------------------------------------------------------------------

  /**
   Every refusal asks for at least one second, for all buckets and times, if and only if the limiter has a window
   or a quota.
   */
  lemma RetryAfterAtLeastOne(l: Limits)
    ensures (forall b: Option<Bucket>, now: nat | Verdict(l, b, now).Refused? :: Verdict(l, b, now).retryAfter >= 1)
       <==> l.windowMs >= 1 || l.max >= 1
  {
    if l.windowMs == 0 && l.max == 0 {
      assert Verdict(l, None, 0) == Refused(0);
    }
  }

  /** Requests before a full bucket expires are all refused and leave it as full. */
  lemma {:induction false} FullUntilReset(l: Limits, b: Bucket, times: seq<nat>, from: nat)
    requires Rising(times, from) && b.count >= l.max && forall t | t in times :: t < b.resetAt
    ensures forall o | o in Alone(l, Some(b), times) :: o.Refused?
    ensures After(l, Some(b), times) == Some(b.(count := b.count + |times|))
    decreases |times|
  {
    if times != [] {
      assert times[0] in times && forall t | t in times[1..] :: t in times;
      FullUntilReset(l, Counted(l, Some(b), times[0]), times[1..], times[0]);
    }
  }

  /** The key's bucket after its requests at `times`. */
  function After(l: Limits, b: Option<Bucket>, times: seq<nat>): Option<Bucket>
    decreases |times|
  {
    if times == [] then b else After(l, Some(Counted(l, b, times[0])), times[1..])
  }

  /**
   A refused client that waits the time it was told: whatever other requests of the key come before the
   bucket expires, the first one from then on is admitted.
   */
  lemma WaitingIsRewarded(l: Limits, b: Option<Bucket>, now: nat, between: seq<nat>, later: nat)
    requires l.max >= 1 && Verdict(l, b, now).Refused? && Rising(between, now)
    requires forall t | t in between :: t < Counted(l, b, now).resetAt
    requires later >= now + 1000 * Verdict(l, b, now).retryAfter
    ensures later >= Counted(l, b, now).resetAt
    ensures Verdict(l, After(l, Some(Counted(l, b, now)), between), later).Admitted?
  {
    FullUntilReset(l, Counted(l, b, now), between, now);
  }

  /** It is told no second too many: a second earlier the bucket has not expired, and it is refused again. */
  lemma NoSecondTooMany(l: Limits, b: Option<Bucket>, now: nat, between: seq<nat>, early: nat)
    requires Verdict(l, b, now).Refused? && Rising(between, now) && forall t | t in between :: t <= early
    requires now <= early && early + 1000 <= now + 1000 * Verdict(l, b, now).retryAfter
    ensures early < Counted(l, b, now).resetAt
    ensures Verdict(l, After(l, Some(Counted(l, b, now)), between), early).Refused?
  {
    FullUntilReset(l, Counted(l, b, now), between, now);
  }

  // ---------------------------------------------------------------------------------------------
  // The map of buckets, with sweeps
  // ---------------------------------------------------------------------------------------------

  datatype Event = Request(key: Key, at: nat) | Sweep(at: nat)

  function Swept(buckets: map<Key, Bucket>, now: nat): map<Key, Bucket> {
    map k | k in buckets && buckets[k].resetAt > now :: buckets[k]
  }

  function Step(l: Limits, buckets: map<Key, Bucket>, e: Event): map<Key, Bucket> {
    match e
    case Request(k, now) => buckets[k := Counted(l, Lookup(buckets, k), now)]
    case Sweep(now) => Swept(buckets, now)
  }

  /** The outcomes, in order, of the requests of `key`. */
  function Outcomes(l: Limits, buckets: map<Key, Bucket>, es: seq<Event>, key: Key): seq<Outcome>
    decreases |es|
  {
    if es == [] then []
    else
      (if es[0].Request? && es[0].key == key then [Verdict(l, Lookup(buckets, key), es[0].at)] else [])
      + Outcomes(l, Step(l, buckets, es[0]), es[1..], key)
  }

  function TimesOf(es: seq<Event>, key: Key): seq<nat>
    decreases |es|
  {
    if es == [] then []
    else (if es[0].Request? && es[0].key == key then [es[0].at] else []) + TimesOf(es[1..], key)
  }

  predicate InOrder(es: seq<Event>, from: nat)
    decreases |es|
  {
    es == [] || (from <= es[0].at && InOrder(es[1..], es[0].at))
  }

  /** Two entries no request at or after `now` can tell apart. */
  predicate Alike(a: Option<Bucket>, b: Option<Bucket>, now: nat) {
    a == b || ((a.None? || a.value.resetAt <= now) && (b.None? || b.value.resetAt <= now))
  }

  /**
   With sweeps at arbitrary times and any requests of other keys, every request of a key has the outcome it
   would have if the key's own requests were the only ones and nothing were ever swept.
   */
  lemma {:induction false} SweepsAndOthersDoNotMatter(l: Limits, buckets: map<Key, Bucket>, b: Option<Bucket>,
      es: seq<Event>, key: Key, now: nat)
    requires InOrder(es, now) && Alike(Lookup(buckets, key), b, now)
    ensures Outcomes(l, buckets, es, key) == Alone(l, b, TimesOf(es, key))
    decreases |es|
  {
    if es != [] {
      var e := es[0];
      var rest := if e.Request? && e.key == key then Some(Counted(l, b, e.at)) else b;
      SweepsAndOthersDoNotMatter(l, Step(l, buckets, e), rest, es[1..], key, e.at);
      if e.Request? && e.key == key {
        assert TimesOf(es, key)[1..] == TimesOf(es[1..], key);
      } else {
        assert TimesOf(es, key) == TimesOf(es[1..], key);
      }
    }
  }

  /** Sweeps come every window, the next one due at `next`, and nothing happens after a due sweep before it. */
  predicate OnSchedule(l: Limits, es: seq<Event>, next: nat)
    decreases |es|
  {
    es == [] ||
    if es[0].Sweep? then es[0].at == next && OnSchedule(l, es[1..], next + l.windowMs)
    else es[0].at <= next && OnSchedule(l, es[1..], next)
  }

  function MapAfter(l: Limits, buckets: map<Key, Bucket>, es: seq<Event>): map<Key, Bucket>
    decreases |es|
  {
    if es == [] then buckets else MapAfter(l, Step(l, buckets, es[0]), es[1..])
  }

  /** With sweeps on schedule every stored bucket was opened less than two windows ago, so idle keys do not pile up. */
  lemma {:induction false} StoredBucketsAreRecent(l: Limits, buckets: map<Key, Bucket>, es: seq<Event>, from: nat,
      next: nat)
    requires l.windowMs >= 1 && InOrder(es, from) && OnSchedule(l, es, next) && from <= next <= from + l.windowMs
    requires forall k | k in buckets :: next < buckets[k].resetAt + l.windowMs
    ensures
      var last := if es == [] then from else es[|es| - 1].at;
      forall k | k in MapAfter(l, buckets, es) ::
        last < MapAfter(l, buckets, es)[k].resetAt - l.windowMs + 2 * l.windowMs
    decreases |es|
  {
    if es != [] {
      var e := es[0];
      var due := if e.Sweep? then next + l.windowMs else next;
      var b := Step(l, buckets, e);
      forall k | k in b
        ensures due < b[k].resetAt + l.windowMs
      {
        if e.Request? && k == e.key {
          assert next <= from + l.windowMs <= e.at + l.windowMs;
        }
      }
      StoredBucketsAreRecent(l, b, es[1..], e.at, due);
    }
  }

  // ---------------------------------------------------------------------------------------------
  // The middleware
  // ---------------------------------------------------------------------------------------------

  class RateLimiter {
    const limits: Limits
    var buckets: map<Key, Bucket>

    constructor (limits: Limits)
      ensures this.limits == limits && buckets == map[]
    {
      this.limits := limits;
      buckets := map[];
    }

    /** The sweeper's interval callback. */
    method OnSweep(now: nat)
      modifies this`buckets
      ensures buckets == Step(limits, old(buckets), Sweep(now))
    {
      var todo := buckets.Keys;
      while todo != {}
        invariant todo <= old(buckets).Keys
        invariant buckets == map k | k in old(buckets) && (k in todo || old(buckets)[k].resetAt > now) ::
          old(buckets)[k]
      {
        var k :| k in todo;
        if buckets[k].resetAt <= now {
          buckets := buckets - {k};
        }
        todo := todo - {k};
      }
    }

    /** The middleware itself, at time `now` for a request with `key`. */
    method OnRequest(key: Key, now: nat) returns (o: Outcome)
      modifies this`buckets
      ensures buckets == Step(limits, old(buckets), Request(key, now))
      ensures o == Verdict(limits, Lookup(old(buckets), key), now)
    {
      if key !in buckets || buckets[key].resetAt <= now {
        buckets := buckets[key := Bucket(0, now + limits.windowMs)];
      }
      buckets := buckets[key := buckets[key].(count := buckets[key].count + 1)];
      var bucket := buckets[key];
      if bucket.count > limits.max {
        return Refused(CeilSeconds(bucket.resetAt - now));
      }
      return Admitted;
    }
  }
}

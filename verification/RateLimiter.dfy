/** The in-memory fixed-window rate limiter and the full history it stands for. */
module RateLimiter {
  import opened Common

  datatype Hit = Hit(id: string, at: real)

  datatype Decision = Decision(allowed: bool, remaining: int, retryAfter: int)

  function Bucket(at: real, window: nat): int
    requires window > 0
  {
    at.Floor / window
  }

  predicate InBucket(h: Hit, id: string, bucket: int, window: nat)
    requires window > 0
  {
    h.id == id && Bucket(h.at, window) == bucket
  }

  /** Hits of one identifier in one aligned window, over the whole history. */
  function CountIn(history: seq<Hit>, id: string, bucket: int, window: nat): nat
    requires window > 0
  {
    if history == [] then 0
    else
      var n := |history| - 1;
      CountIn(history[..n], id, bucket, window) + (if InBucket(history[n], id, bucket, window) then 1 else 0)
  }

  function Answer(current: int, capacity: int, window: nat): Decision {
    Decision(current <= capacity,
             if capacity - current > 0 then capacity - current else 0,
             if current <= capacity then 0 else window)
  }

  /** What a limiter that remembers everything would say to the next hit. */
  function Judge(history: seq<Hit>, h: Hit, capacity: int, window: nat): Decision
    requires window > 0
  {
    Answer(CountIn(history, h.id, Bucket(h.at, window), window) + 1, capacity, window)
  }

  /** Windows are aligned: the `k`-th one is the `k`-th stretch of `window` seconds. */
  lemma BucketIsWindow(at: real, window: nat, k: int)
    requires window > 0
    ensures Bucket(at, window) == k <==> (k * window) as real <= at && at < (k * window + window) as real
  {
    var x := at.Floor;
    var q, r := x / window, x % window;
    assert x == window * q + r;
    var gap := k - q;
    assert k * window == window * q + window * gap;
    assert gap >= 1 ==> window * gap >= window;
    assert gap <= -1 ==> window * gap <= 0 - window;
  }

  lemma {:induction false} CountMore(history: seq<Hit>, more: seq<Hit>, id: string, bucket: int, window: nat)
    requires window > 0 && forall k :: 0 <= k < |more| ==> InBucket(more[k], id, bucket, window)
    ensures CountIn(history + more, id, bucket, window) == CountIn(history, id, bucket, window) + |more|
  {
    if more == [] {
      assert history + more == history;
    } else {
      var n := |more| - 1;
      CountMore(history, more[..n], id, bucket, window);
      assert (history + more)[..|history + more| - 1] == history + more[..n];
    }
  }

  /** The answer to a hit: it is allowed while fewer than `capacity` came before it in its window; exactly
      `remaining` of those that follow in the window are allowed; and a refused caller who waits as long
      as told lands in the next window. */
  lemma AnswerIsRight(history: seq<Hit>, h: Hit, capacity: int, window: nat, more: seq<Hit>, next: Hit)
    requires window > 0
    requires forall k :: 0 <= k < |more| ==> InBucket(more[k], h.id, Bucket(h.at, window), window)
    requires InBucket(next, h.id, Bucket(h.at, window), window)
    ensures var d := Judge(history, h, capacity, window);
      && (d.allowed <==> CountIn(history, h.id, Bucket(h.at, window), window) < capacity)
      && d.remaining >= 0
      && (Judge(history + [h] + more, next, capacity, window).allowed <==> |more| < d.remaining)
      && (d.allowed ==> d.retryAfter == 0)
      && (!d.allowed ==> Bucket(h.at + d.retryAfter as real, window) == Bucket(h.at, window) + 1)
  {
    CountMore(history, [h], h.id, Bucket(h.at, window), window);
    CountMore(history + [h], more, h.id, Bucket(h.at, window), window);
    NextBucket(h.at, window);
  }

  lemma NextBucket(at: real, window: nat)
    requires window > 0
    ensures Bucket(at + window as real, window) == Bucket(at, window) + 1
  {
    var k := Bucket(at, window);
    BucketIsWindow(at, window, k);
    assert (k + 1) * window == k * window + window;
    BucketIsWindow(at + window as real, window, k + 1);
  }

  // ----- how many hits get through

  /** The hits of `id` that were allowed and satisfy `where`. */
  function AllowedWhere(history: seq<Hit>, id: string, capacity: int, window: nat, where: Hit -> bool): nat
    requires window > 0
  {
    if history == [] then 0
    else
      var n := |history| - 1;
      AllowedWhere(history[..n], id, capacity, window, where)
      + (if history[n].id == id && where(history[n]) && Judge(history[..n], history[n], capacity, window).allowed
         then 1 else 0)
  }

  function InWindow(bucket: int, window: nat): Hit -> bool
    requires window > 0
  {
    (h: Hit) => Bucket(h.at, window) == bucket
  }

  function InSpan(from: real, window: nat): Hit -> bool {
    (h: Hit) => from <= h.at < from + window as real
  }

  /** In an aligned window exactly the first `capacity` hits are allowed, none when it is negative. */
  lemma {:induction false} AllowedPerWindow(history: seq<Hit>, id: string, capacity: int, window: nat, bucket: int)
    requires window > 0
    ensures AllowedWhere(history, id, capacity, window, InWindow(bucket, window))
         == Min(CountIn(history, id, bucket, window), Max(capacity, 0))
  {
    if history == [] {
    } else {
      AllowedPerWindow(history[..|history| - 1], id, capacity, window, bucket);
    }
  }

  lemma SpanTouchesTwoBuckets(from: real, at: real, window: nat)
    requires window > 0 && from <= at < from + window as real
    ensures Bucket(at, window) == Bucket(from, window) || Bucket(at, window) == Bucket(from, window) + 1
  {
    var x, y := from.Floor, at.Floor;
    assert x <= y <= x + window;
    var q, r := x / window, x % window;
    assert x == window * q + r;
    var q', r' := y / window, y % window;
    assert y == window * q' + r';
    assert q' < q ==> window * q' <= window * (q - 1);
    assert q' > q + 1 ==> window * q' >= window * (q + 2);
  }

  lemma {:induction false} SpanSplits(history: seq<Hit>, id: string, capacity: int, window: nat, from: real)
    requires window > 0
    ensures AllowedWhere(history, id, capacity, window, InSpan(from, window))
         <= AllowedWhere(history, id, capacity, window, InWindow(Bucket(from, window), window))
          + AllowedWhere(history, id, capacity, window, InWindow(Bucket(from, window) + 1, window))
  {
    if history == [] {
    } else {
      var n := |history| - 1;
      SpanSplits(history[..n], id, capacity, window, from);
      if InSpan(from, window)(history[n]) {
        SpanTouchesTwoBuckets(from, history[n].at, window);
      }
    }
  }

  /** No span of `window` seconds, aligned or not, lets more than twice the capacity through. */
  lemma AllowedPerSpan(history: seq<Hit>, id: string, capacity: int, window: nat, from: real)
    requires window > 0
    ensures AllowedWhere(history, id, capacity, window, InSpan(from, window)) <= 2 * Max(capacity, 0)
  {
    SpanSplits(history, id, capacity, window, from);
    AllowedPerWindow(history, id, capacity, window, Bucket(from, window));
    AllowedPerWindow(history, id, capacity, window, Bucket(from, window) + 1);
  }

  // ----- the pruned table

  ghost predicate Ordered(history: seq<Hit>) {
    forall i, j :: 0 <= i < j < |history| ==> history[i].at <= history[j].at
  }

  /** True counts, and all of those from the window before `bucket` on. */
  ghost predicate Remembers(counters: map<(string, int), nat>, history: seq<Hit>, window: nat, bucket: int)
    requires window > 0
  {
    && (forall k :: k in counters ==> counters[k] == CountIn(history, k.0, k.1, window))
    && (forall k: (string, int) :: k !in counters && k.1 >= bucket - 1 ==> CountIn(history, k.0, k.1, window) == 0)
  }

  /** The table holds true counts, and every count that can still matter. */
  ghost predicate Faithful(counters: map<(string, int), nat>, history: seq<Hit>, window: nat)
    requires window > 0
  {
    && (forall k :: k in counters ==> counters[k] == CountIn(history, k.0, k.1, window))
    && (history != [] ==> Remembers(counters, history, window, Bucket(history[|history| - 1].at, window)))
  }

  lemma BucketsGrow(from: real, to: real, window: nat)
    requires window > 0 && from <= to
    ensures Bucket(from, window) <= Bucket(to, window)
  {
    var q, q' := from.Floor / window, to.Floor / window;
    assert q' < q ==> window * q' <= window * (q - 1);
  }

  class InMemoryRateLimiter {
    const capacity: int
    const window: nat
    var counters: map<(string, int), nat>
    ghost var history: seq<Hit>

    ghost predicate Valid()
      reads this
    {
      window > 0 && Ordered(history) && Faithful(counters, history, window)
    }

    constructor (capacity: int, window: nat)
      requires window > 0
      ensures Valid() && history == [] && this.capacity == capacity && this.window == window
    {
      this.capacity, this.window, counters, history := capacity, window, map[], [];
    }

    /** Drop the counters of windows before the previous one. */
    method Prune(bucket: int)
      modifies this`counters
      ensures counters == Pruned(old(counters), bucket)
    {
      ghost var before := counters;
      var keys := counters.Keys;
      while keys != {}
        invariant keys <= before.Keys
        invariant forall k :: k in before ==> (k in counters <==> k in keys || k.1 >= bucket - 1)
        invariant forall k :: k in counters ==> k in before && counters[k] == before[k]
        decreases |keys|
      {
        var k :| k in keys;
        keys := keys - {k};
        if k.1 < bucket - 1 {
          counters := counters - {k};
        }
      }
    }

    /** Under a clock that does not go back, the answer is the one the full history gives. */
    method HitNow(id: string, at: real) returns (d: Decision)
      requires Valid() && (history != [] ==> history[|history| - 1].at <= at)
      modifies this
      ensures Valid() && history == old(history) + [Hit(id, at)]
      ensures d == Judge(old(history), Hit(id, at), capacity, window)
    {
      var bucket := Bucket(at, window);
      HitSafe(counters, history, capacity, window, Hit(id, at), bucket);
      Prune(bucket);
      var key := (id, bucket);
      var current := NextCount(counters, key);
      counters := counters[key := current];
      history := history + [Hit(id, at)];
      d := Answer(current, capacity, window);
    }
  }

  function Pruned(counters: map<(string, int), nat>, bucket: int): map<(string, int), nat> {
    map k | k in counters && k.1 >= bucket - 1 :: counters[k]
  }

  function NextCount(counters: map<(string, int), nat>, key: (string, int)): nat {
    (if key in counters then counters[key] else 0) + 1
  }

  lemma HitSafe(counters: map<(string, int), nat>, history: seq<Hit>, capacity: int, window: nat, h: Hit, bucket: int)
    requires window > 0 && Ordered(history) && Faithful(counters, history, window) && bucket == Bucket(h.at, window)
    requires history != [] ==> history[|history| - 1].at <= h.at
    ensures var table, key := Pruned(counters, bucket), (h.id, bucket);
            && Answer(NextCount(table, key), capacity, window) == Judge(history, h, capacity, window)
            && Ordered(history + [h])
            && Faithful(table[key := NextCount(table, key)], history + [h], window)
  {
    PruneSafe(counters, history, window, h.at);
    RecordSafe(Pruned(counters, bucket), history, window, h);
  }

  /** Pruning forgets nothing that a later hit can ask for. */
  lemma PruneSafe(counters: map<(string, int), nat>, history: seq<Hit>, window: nat, at: real)
    requires window > 0 && Ordered(history) && Faithful(counters, history, window)
    requires history != [] ==> history[|history| - 1].at <= at
    ensures Remembers(Pruned(counters, Bucket(at, window)), history, window, Bucket(at, window))
  {
    if history != [] {
      BucketsGrow(history[|history| - 1].at, at, window);
    }
  }

  lemma RecordSafe(counters: map<(string, int), nat>, history: seq<Hit>, window: nat, h: Hit)
    requires window > 0 && Remembers(counters, history, window, Bucket(h.at, window))
    ensures var key := (h.id, Bucket(h.at, window));
            var current := NextCount(counters, key);
            && current == CountIn(history, h.id, Bucket(h.at, window), window) + 1
            && Faithful(counters[key := current], history + [h], window)
  {
  }
}

/**
  * Requests-per-interval series of one session (parse_log.py:61-77): a bucket
  * opens at the session's first timestamp; a timestamp at least `interval`
  * seconds after the bucket's start closes it and opens the next one, in which
  * it is counted; the last timestamp emits the open bucket, divided by the
  * nominal interval whatever time it actually spans.
  */
module RequestRate {
  import opened Common

  /**
    * The bucket counts still to be emitted when the loop reaches index `i` with
    * the current bucket started at `start` and holding `reqs` requests.
    */
  function BucketsFrom(s: seq<int>, i: nat, start: int, reqs: nat, interval: int): seq<nat>
    requires i < |s|
    decreases |s| - i
  {
    var crossing := s[i] - start >= interval;
    var emitted: seq<nat> := if crossing then [reqs] else [];
    var start', reqs' := if crossing then s[i] else start, if crossing then 1 else reqs + 1;
    if i == |s| - 1 then emitted + [reqs'] else emitted + BucketsFrom(s, i + 1, start', reqs', interval)
  }

  /** The number of requests in each bucket of a non-empty session. */
  function BucketCounts(s: seq<int>, interval: int): seq<nat>
    requires |s| > 0
  {
    BucketsFrom(s, 0, s[0], 0, interval)
  }

  /** The RPI series of a session: each bucket's count divided by the interval. */
  function SessionRates(s: seq<int>, interval: int): seq<real>
    requires |s| > 0 && interval != 0
  {
    Rates(BucketCounts(s, interval), interval)
  }

  /**
    * The inner loop of parse_log.py:64-76. `ts is session[-1]` is an identity
    * test that, for epoch-sized integers, holds on the last iteration only; it
    * is modelled as `i == |session| - 1`.
    */
  method SessionRpi(session: seq<int>, interval: int) returns (speed: seq<real>)
    requires |session| > 0 && interval != 0
    ensures speed == SessionRates(session, interval)
  {
    hide Rates;
    speed := [];
    ghost var counts: seq<nat> := [];
    RatesEmpty(interval);
    var startTs := session[0];
    var intervalReqs: nat := 0;
    for i := 0 to |session|
      invariant speed == Rates(counts, interval)
      invariant i < |session| ==> counts + BucketsFrom(session, i, startTs, intervalReqs, interval) == BucketCounts(session, interval)
      invariant i == |session| ==> counts == BucketCounts(session, interval)
    {
      var ts := session[i];
      ghost var rest := BucketsFrom(session, i, startTs, intervalReqs, interval);
      if ts - startTs >= interval {
        RatesSnoc(counts, intervalReqs, interval);
        speed := speed + [intervalReqs as real / interval as real];
        counts := counts + [intervalReqs];
        startTs := ts;
        intervalReqs := 0;
      }
      intervalReqs := intervalReqs + 1;
      if i == |session| - 1 {
        RatesSnoc(counts, intervalReqs, interval);
        speed := speed + [intervalReqs as real / interval as real];
        counts := counts + [intervalReqs];
      }
    }
  }

  /** The RPI series of every session of one client. */
  function ClientRates(sessions: seq<seq<int>>, interval: int): (rates: seq<seq<real>>)
    requires interval != 0 && forall k :: 0 <= k < |sessions| ==> |sessions[k]| > 0
    ensures |rates| == |sessions|
  {
    seq(|sessions|, k requires 0 <= k < |sessions| => SessionRates(sessions[k], interval))
  }

  /** parse_log.py:63-76 for one client: one RPI series per session, in order. */
  method ClientRpi(sessions: seq<seq<int>>, interval: int) returns (requestSpeed: seq<seq<real>>)
    requires interval != 0 && forall k :: 0 <= k < |sessions| ==> |sessions[k]| > 0
    ensures requestSpeed == ClientRates(sessions, interval)
  {
    requestSpeed := [];
    for k := 0 to |sessions|
      invariant requestSpeed == ClientRates(sessions, interval)[..k]
    {
      var sessionSpeed := SessionRpi(sessions[k], interval);
      requestSpeed := requestSpeed + [sessionSpeed];
    }
  }

  /**
    * With a positive interval, the buckets from index `i` on are all non-empty,
    * and they hold the open bucket's requests plus every remaining timestamp.
    */
  lemma {:induction false} BucketsFromFacts(s: seq<int>, i: nat, start: int, reqs: nat, interval: int)
    requires i < |s| && interval > 0
    requires reqs >= 1 || s[i] - start < interval
    ensures var b := BucketsFrom(s, i, start, reqs, interval);
      |b| >= 1 && (forall k :: 0 <= k < |b| ==> b[k] >= 1) && Sum(b) == reqs + (|s| - i)
    decreases |s| - i
  {
    var crossing := s[i] - start >= interval;
    var emitted: seq<nat> := if crossing then [reqs] else [];
    var start', reqs' := if crossing then s[i] else start, if crossing then 1 else reqs + 1;
    var b := BucketsFrom(s, i, start, reqs, interval);
    if i == |s| - 1 {
      assert b == emitted + [reqs'];
      SumConcat(emitted, [reqs']);
    } else {
      BucketsFromFacts(s, i + 1, start', reqs', interval);
      var rest := BucketsFrom(s, i + 1, start', reqs', interval);
      assert b == emitted + rest;
      SumConcat(emitted, rest);
    }
  }

  /**
    * For a positive interval and a non-empty session: at least one bucket,
    * every bucket holds at least one request, and the buckets hold exactly the
    * session's requests; so the rates times the interval sum to the session's length.
    */
  lemma BucketsPartitionSession(s: seq<int>, interval: int)
    requires |s| > 0 && interval > 0
    ensures var b := BucketCounts(s, interval);
      |b| >= 1 && (forall k :: 0 <= k < |b| ==> b[k] >= 1) && Sum(b) == |s|
    ensures SumReal(SessionRates(s, interval)) * interval as real == |s| as real
  {
    BucketsFromFacts(s, 0, s[0], 0, interval);
    RatesConserveCounts(BucketCounts(s, interval), interval);
  }

  // ---------------------------------------------------------------------------
  // Where each bucket ends
  // ---------------------------------------------------------------------------

  /** The index of the first timestamp of bucket `k`: the requests of the buckets before it. */
  function Start(b: seq<nat>, k: nat): int
    requires k <= |b|
  {
    Sum(b[..k])
  }

  /**
    * The timestamps at indices `lo` up to `hi` (excluded) form a non-empty
    * bucket opened at `s[lo]`: none after the first is `interval` or more
    * seconds after it.
    */
  ghost predicate InBucket(s: seq<int>, interval: int, lo: int, hi: int)
  {
    0 <= lo < hi <= |s| && forall j :: lo < j < hi ==> s[j] - s[lo] < interval
  }

  /** The timestamp at `hi` is the first of the next bucket: `interval` or more seconds after `s[lo]`. */
  ghost predicate Crosses(s: seq<int>, interval: int, lo: int, hi: int)
  {
    0 <= lo < hi < |s| && s[hi] - s[lo] >= interval
  }

  /**
    * `b` splits the timestamps from index `q` on into buckets, each closed
    * exactly at the first timestamp `interval` or more seconds after its own
    * first one.
    */
  ghost predicate Bucketed(s: seq<int>, interval: int, q: int, b: seq<nat>)
  {
    Sum(b) == |s| - q &&
    (forall k :: 0 <= k < |b| ==> InBucket(s, interval, q + Start(b, k), q + Start(b, k + 1))) &&
    (forall k :: 0 <= k < |b| - 1 ==> Crosses(s, interval, q + Start(b, k), q + Start(b, k + 1)))
  }

  lemma StartCons(n: nat, b: seq<nat>, k: nat)
    requires k <= |b|
    ensures Start([n] + b, k + 1) == n + Start(b, k)
  {
    assert ([n] + b)[..k + 1] == [n] + b[..k];
    assert ([n] + b[..k])[1..] == b[..k];
  }

  /** One bucket holding every timestamp from `q` on. */
  lemma BucketedSingle(s: seq<int>, interval: int, q: nat)
    requires InBucket(s, interval, q, |s|)
    ensures Bucketed(s, interval, q, [|s| - q])
  {
    var b: seq<nat> := [|s| - q];
    assert b[..0] == [] && b[..1] == b && b[1..] == [];
    assert Start(b, 0) == 0 && Start(b, 1) == |s| - q;
    assert InBucket(s, interval, q + Start(b, 0), q + Start(b, 1));
  }

  /** A bucket of `n` timestamps at `q`, followed by the buckets of the rest. */
  lemma BucketedCons(s: seq<int>, interval: int, q: nat, n: nat, rest: seq<nat>)
    requires n >= 1 && InBucket(s, interval, q, q + n) && Bucketed(s, interval, q + n, rest)
    requires rest != [] ==> Crosses(s, interval, q, q + n)
    ensures Bucketed(s, interval, q, [n] + rest)
  {
    hide Bucketed, InBucket, Crosses, Start;
    var b := [n] + rest;
    BucketedParts(s, interval, q + n, rest);
    assert b[1..] == rest;
    forall k | 0 <= k < |b|
      ensures InBucket(s, interval, q + Start(b, k), q + Start(b, k + 1))
      ensures k < |b| - 1 ==> Crosses(s, interval, q + Start(b, k), q + Start(b, k + 1))
    {
      if k > 0 {
        BucketedConsAt(s, interval, q, n, rest, k);
      } else {
        BucketedConsFirst(s, interval, q, n, rest);
      }
    }
    BucketedParts(s, interval, q, b);
  }

  /** `Bucketed` spelled out: the counts cover the rest, each bucket in range, crossings between them. */
  lemma BucketedParts(s: seq<int>, interval: int, q: int, b: seq<nat>)
    ensures Bucketed(s, interval, q, b) <==>
      Sum(b) == |s| - q &&
      (forall k :: 0 <= k < |b| ==> InBucket(s, interval, q + Start(b, k), q + Start(b, k + 1))) &&
      (forall k :: 0 <= k < |b| - 1 ==> Crosses(s, interval, q + Start(b, k), q + Start(b, k + 1)))
  {
  }

  /** The first bucket of `[n] + rest` runs from `q` to `q + n`. */
  lemma BucketedConsFirst(s: seq<int>, interval: int, q: nat, n: nat, rest: seq<nat>)
    requires InBucket(s, interval, q, q + n)
    requires rest != [] ==> Crosses(s, interval, q, q + n)
    ensures InBucket(s, interval, q + Start([n] + rest, 0), q + Start([n] + rest, 1))
    ensures rest != [] ==> Crosses(s, interval, q + Start([n] + rest, 0), q + Start([n] + rest, 1))
  {
    StartCons(n, rest, 0);
    assert Start(rest, 0) == 0 by { assert rest[..0] == []; }
    assert ([n] + rest)[..0] == [];
  }

  /** Bucket `k > 0` of `[n] + rest` is bucket `k - 1` of `rest`, shifted by `n`. */
  lemma BucketedConsAt(s: seq<int>, interval: int, q: nat, n: nat, rest: seq<nat>, k: nat)
    requires 0 < k <= |rest| && Bucketed(s, interval, q + n, rest)
    ensures InBucket(s, interval, q + Start([n] + rest, k), q + Start([n] + rest, k + 1))
    ensures k < |rest| ==> Crosses(s, interval, q + Start([n] + rest, k), q + Start([n] + rest, k + 1))
  {
    StartCons(n, rest, k);
    StartCons(n, rest, k - 1);
    assert InBucket(s, interval, q + n + Start(rest, k - 1), q + n + Start(rest, k));
  }

  /**
    * From index `i` on, with the open bucket started at index `q` and holding
    * the timestamps `q` up to `i`, the buckets still to come are closed at the
    * crossings.
    */
  lemma {:induction false} BucketsFromBoundaries(s: seq<int>, i: nat, q: nat, interval: int)
    requires q < i < |s| && InBucket(s, interval, q, i)
    ensures Bucketed(s, interval, q, BucketsFrom(s, i, s[q], i - q, interval))
    decreases |s| - i
  {
    var b := BucketsFrom(s, i, s[q], i - q, interval);
    if s[i] - s[q] >= interval {
      var rest: seq<nat>;
      if i == |s| - 1 {
        rest := [1];
        BucketedSingle(s, interval, i);
      } else {
        rest := BucketsFrom(s, i + 1, s[i], 1, interval);
        BucketsFromBoundaries(s, i + 1, i, interval);
      }
      assert b == [i - q] + rest;
      BucketedCons(s, interval, q, i - q, rest);
    } else if i == |s| - 1 {
      assert b == [|s| - q];
      BucketedSingle(s, interval, q);
    } else {
      assert InBucket(s, interval, q, i + 1);
      assert b == BucketsFrom(s, i + 1, s[q], (i + 1) - q, interval);
      BucketsFromBoundaries(s, i + 1, q, interval);
    }
  }

  /**
    * For a positive interval the buckets partition the session in order, and
    * bucket `k + 1` opens exactly at the first timestamp `interval` or more
    * seconds after the first timestamp of bucket `k`; so there is one bucket
    * more than there are such crossings.
    */
  lemma BucketBoundaries(s: seq<int>, interval: int)
    requires |s| > 0 && interval > 0
    ensures var b := BucketCounts(s, interval);
      Sum(b) == |s| &&
      (forall k :: 0 <= k < |b| ==> InBucket(s, interval, Start(b, k), Start(b, k + 1))) &&
      (forall k :: 0 <= k < |b| - 1 ==> Crosses(s, interval, Start(b, k), Start(b, k + 1)))
  {
    var b := BucketCounts(s, interval);
    if |s| == 1 {
      assert b == [1];
      BucketedSingle(s, interval, 0);
    } else {
      assert b == BucketsFrom(s, 1, s[0], 1, interval);
      BucketsFromBoundaries(s, 1, 0, interval);
    }
    assert Bucketed(s, interval, 0, b);
    forall k | 0 <= k < |b|
      ensures InBucket(s, interval, Start(b, k), Start(b, k + 1))
    {
      assert InBucket(s, interval, 0 + Start(b, k), 0 + Start(b, k + 1));
    }
    forall k | 0 <= k < |b| - 1
      ensures Crosses(s, interval, Start(b, k), Start(b, k + 1))
    {
      assert Crosses(s, interval, 0 + Start(b, k), 0 + Start(b, k + 1));
    }
  }

  /**
    * With an interval of zero or less the first timestamp already closes the
    * bucket opened at it, so the series starts with an empty bucket.
    */
  lemma NonPositiveIntervalFirstEmpty(s: seq<int>, interval: int)
    requires |s| > 0 && interval <= 0
    ensures |BucketCounts(s, interval)| >= 2 && BucketCounts(s, interval)[0] == 0
  {
    var rest: seq<nat> := if |s| == 1 then [1] else BucketsFrom(s, 1, s[0], 1, interval);
    assert BucketCounts(s, interval) == [0] + rest;
    if |s| > 1 {
      assert |rest| >= 1 by { BucketsFromNonEmpty(s, 1, s[0], 1, interval); }
    }
  }

  lemma {:induction false} BucketsFromNonEmpty(s: seq<int>, i: nat, start: int, reqs: nat, interval: int)
    requires i < |s|
    ensures |BucketsFrom(s, i, start, reqs, interval)| >= 1
    decreases |s| - i
  {
    var crossing := s[i] - start >= interval;
    var start', reqs' := if crossing then s[i] else start, if crossing then 1 else reqs + 1;
    if i < |s| - 1 {
      BucketsFromNonEmpty(s, i + 1, start', reqs', interval);
    }
  }

  /**
    * Every bucket after the first starts at least `interval` seconds after the
    * previous one, so in a chronologically ordered session the number of
    * buckets is at most 1 + span / interval (it can be less than the rounded-up
    * span / interval, since an empty stretch opens no bucket).
    */
  lemma {:induction false} BucketsFromSpan(s: seq<int>, i: nat, start: int, reqs: nat, interval: int)
    requires i < |s| && interval > 0
    requires forall k :: 0 < k < |s| ==> s[k - 1] <= s[k]
    requires start <= s[i]
    ensures (|BucketsFrom(s, i, start, reqs, interval)| - 1) * interval <= s[|s| - 1] - start
    decreases |s| - i
  {
    var crossing := s[i] - start >= interval;
    var start', reqs' := if crossing then s[i] else start, if crossing then 1 else reqs + 1;
    var n := |BucketsFrom(s, i, start, reqs, interval)|;
    SortedBelowLast(s, i);
    if i < |s| - 1 {
      BucketsFromSpan(s, i + 1, start', reqs', interval);
      var m := |BucketsFrom(s, i + 1, start', reqs', interval)|;
      if crossing {
        assert n == m + 1;
        assert (m + 1 - 1) * interval == (m - 1) * interval + interval;
      }
    }
  }

  lemma {:induction false} SortedBelowLast(s: seq<int>, i: nat)
    requires i < |s|
    requires forall k :: 0 < k < |s| ==> s[k - 1] <= s[k]
    ensures s[i] <= s[|s| - 1] && (i + 1 < |s| ==> s[i] <= s[i + 1])
    decreases |s| - i
  {
    if i + 1 < |s| {
      SortedBelowLast(s, i + 1);
    }
  }

  lemma BucketCountBound(s: seq<int>, interval: int)
    requires |s| > 0 && interval > 0
    requires forall k :: 0 < k < |s| ==> s[k - 1] <= s[k]
    ensures (|BucketCounts(s, interval)| - 1) * interval <= s[|s| - 1] - s[0]
  {
    BucketsFromSpan(s, 0, s[0], 0, interval);
  }

  /** The example session 0, 5, 10, 40 with a 10-second interval gives 2, 1 and 1 requests. */
  lemma ExampleSession()
    ensures BucketCounts([0, 5, 10, 40], 10) == [2, 1, 1]
    ensures SessionRates([0, 5, 10, 40], 10) == [0.2, 0.1, 0.1]
  {
    hide BucketsFrom, Rates;
    ExampleBuckets();
    ExampleRates();
  }

  lemma ExampleBuckets()
    ensures BucketCounts([0, 5, 10, 40], 10) == [2, 1, 1]
  {
    var s := [0, 5, 10, 40];
    assert BucketsFrom(s, 3, 10, 1, 10) == [1, 1];
    assert BucketsFrom(s, 2, 0, 2, 10) == [2, 1, 1];
    assert BucketsFrom(s, 1, 0, 1, 10) == [2, 1, 1];
  }

  lemma ExampleRates()
    ensures Rates([2, 1, 1], 10) == [0.2, 0.1, 0.1]
  {
    var r := Rates([2, 1, 1], 10);
    assert r[0] == 0.2 && r[1] == 0.1 && r[2] == 0.1;
  }
}

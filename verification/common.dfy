/** Values and helpers shared by the models of the log-analysis scripts. */
module Common {

  datatype Option<T> = None | Some(value: T)

  /**
    * The exceptions that the modelled code can raise: an out-of-range list
    * index, a division by zero, and the missing-column error pandas raises
    * when asked to merge frames built from empty dictionaries.
    */
  datatype Error = IndexError | ZeroDivisionError | KeyError

  datatype Result<T> = Ok(value: T) | Err(error: Error)

  /** Inactivity gap, in seconds, after which a client's session is closed (`30 * 60`). */
  const GapThreshold: int := 30 * 60

  /** One log line after field extraction: client IP, User-Agent and epoch-second timestamp. */
  datatype Request = Request(ip: string, ua: string, ts: int)

  /** The dictionary key every script builds for a request: `"{}:{}".format(ip, ua)`. */
  function ClientOf(r: Request): (c: string)
    ensures |c| == |r.ip| + 1 + |r.ua| && c[|r.ip|] == ':'
    ensures c[..|r.ip|] == r.ip && c[|r.ip| + 1..] == r.ua
  {
    r.ip + ":" + r.ua
  }

  /** The timestamps of client `c`, in input order. */
  function Timestamps(events: seq<Request>, c: string): seq<int>
  {
    if events == [] then []
    else
      var last := events[|events| - 1];
      Timestamps(events[..|events| - 1], c) + (if ClientOf(last) == c then [last.ts] else [])
  }

  lemma {:induction false} TimestampsSnoc(events: seq<Request>, r: Request, c: string)
    ensures ClientOf(r) == c ==> Timestamps(events + [r], c) == Timestamps(events, c) + [r.ts]
    ensures ClientOf(r) != c ==> Timestamps(events + [r], c) == Timestamps(events, c)
  {
    assert (events + [r])[..|events|] == events;
    assert Timestamps(events, c) + [] == Timestamps(events, c);
  }

  /** A client has timestamps exactly when one of the requests is its own. */
  lemma {:induction false} TimestampsOwner(events: seq<Request>, c: string)
    ensures Timestamps(events, c) != [] <==> exists r :: r in events && ClientOf(r) == c
  {
    if events != [] {
      var init, last := events[..|events| - 1], events[|events| - 1];
      assert events == init + [last];
      TimestampsOwner(init, c);
      TimestampsSnoc(init, last, c);
      if ClientOf(last) != c {
        forall r | r in events && ClientOf(r) == c ensures r in init {
        }
      }
    }
  }

  /**
    * Number of input lines a script consumes: the loop increments `i` and stops
    * as soon as `limit != 0 and i >= limit`.
    */
  function LinesConsidered(n: nat, limit: int): nat
  {
    if limit == 0 then n
    else if limit - 1 < n then (if limit - 1 < 0 then 0 else limit - 1)
    else n
  }

  /** The requests a line loop gets to before `limit` stops it. */
  function Taken(events: seq<Request>, limit: int): (taken: seq<Request>)
    ensures limit > 0 ==> |taken| == if limit - 1 < |events| then limit - 1 else |events|
    ensures limit == 0 ==> taken == events
    ensures limit < 0 ==> taken == []
    ensures taken <= events
  {
    events[..LinesConsidered(|events|, limit)]
  }

  function Sum(s: seq<int>): int
  {
    if s == [] then 0 else s[0] + Sum(s[1..])
  }

  function SumReal(s: seq<real>): real
  {
    if s == [] then 0.0 else s[0] + SumReal(s[1..])
  }

  lemma {:induction false} SumConcat(a: seq<int>, b: seq<int>)
    ensures Sum(a + b) == Sum(a) + Sum(b)
  {
    if a == [] {
      assert a + b == b;
    } else {
      assert (a + b)[1..] == a[1..] + b;
      SumConcat(a[1..], b);
    }
  }

  lemma {:induction false} SumRealConcat(a: seq<real>, b: seq<real>)
    ensures SumReal(a + b) == SumReal(a) + SumReal(b)
  {
    if a == [] {
      assert a + b == b;
    } else {
      assert (a + b)[1..] == a[1..] + b;
      SumRealConcat(a[1..], b);
    }
  }

  /** The differences between neighbouring timestamps: `[s[i + 1] - s[i] for i in range(len(s) - 1)]`. */
  function Gaps(s: seq<int>): seq<int>
  {
    if |s| < 2 then [] else seq(|s| - 1, k requires 0 <= k < |s| - 1 => s[k + 1] - s[k])
  }

  /** Concatenation of a list of lists, in order. */
  function Flatten<T>(ss: seq<seq<T>>): seq<T>
  {
    if ss == [] then [] else Flatten(ss[..|ss| - 1]) + ss[|ss| - 1]
  }

  /** The rates `count / interval` that the scripts store, one per count. */
  function Rates(counts: seq<nat>, interval: int): seq<real>
    requires interval != 0
  {
    seq(|counts|, k requires 0 <= k < |counts| => counts[k] as real / interval as real)
  }

  /** Multiplying the summed rates back by the interval recovers the summed counts. */
  lemma RatesEmpty(interval: int)
    requires interval != 0
    ensures Rates([], interval) == []
  {
  }

  /** One more count gives one more rate. */
  lemma RatesSnoc(counts: seq<nat>, n: nat, interval: int)
    requires interval != 0
    ensures Rates(counts + [n], interval) == Rates(counts, interval) + [n as real / interval as real]
  {
  }

  lemma {:induction false} RatesConserveCounts(counts: seq<nat>, interval: int)
    requires interval != 0
    ensures SumReal(Rates(counts, interval)) * interval as real == Sum(counts) as real
  {
    if counts != [] {
      assert Rates(counts, interval)[1..] == Rates(counts[1..], interval);
      RatesConserveCounts(counts[1..], interval);
      var iv := interval as real;
      assert (counts[0] as real / iv) * iv == counts[0] as real;
    }
  }

  /** Maps with the same keys and the same value at every key are equal. */
  lemma SameMap<K, V>(a: map<K, V>, b: map<K, V>)
    requires a.Keys == b.Keys && forall k :: k in a ==> a[k] == b[k]
    ensures a == b
  {
  }

  /**
    * A Python list of time differences as an object: several dictionary slots
    * can hold the same list, and appending to it or clearing it is seen through
    * all of them.
    */
  class DiffList {
    var items: seq<int>

    constructor ()
      ensures items == []
    {
      items := [];
    }

    method Append(d: int)
      modifies this
      ensures items == old(items) + [d]
    {
      items := items + [d];
    }

    method Clear()
      modifies this
      ensures items == []
    {
      items := [];
    }
  }
}

/**
  * The global interval counter of parse_interval.py and of the `parse_interval`
  * variant in parse.py. One interval is open at a time for all clients
  * together: its first request only records the start time; a request at least
  * `interval` seconds after the start is counted and then closes the interval,
  * appending `count / interval` to the series of every client that sent a
  * request in it. parse_interval.py also closes a still open interval after
  * the last line; parse.py does not.
  */
module IntervalCounter {
  import opened Common

  /** The counter's state, with the counts behind every emitted rate. */
  datatype Counter = Counter(start: Option<int>, reqs: map<string, nat>, emitted: map<string, seq<nat>>)

  /** A client's emitted counts, empty when it has none. */
  function Emitted(m: map<string, seq<nat>>, c: string): seq<nat>
  {
    if c in m then m[c] else []
  }

  /** A client's count in the open interval, 0 when it has none. */
  function Count(m: map<string, nat>, c: string): nat
  {
    if c in m then m[c] else 0
  }

  /** Closing an interval: every client with requests in it gets one more count. */
  function Emit(emitted: map<string, seq<nat>>, reqs: map<string, nat>): map<string, seq<nat>>
  {
    map c | c in emitted.Keys + reqs.Keys :: Emitted(emitted, c) + (if c in reqs then [reqs[c]] else [])
  }

  /** Whether a request at time `t` closes the open interval. */
  predicate Closes(s: Counter, t: int, interval: int)
  {
    s.start.Some? && t - s.start.value >= interval
  }

  /** parse_interval.py:46-66: one request of client `c` at time `t`. */
  function CountStep(s: Counter, c: string, t: int, interval: int): Counter
  {
    var reqs := s.reqs[c := Count(s.reqs, c) + 1];
    if s.start.None? then Counter(Some(t), reqs, s.emitted)
    else if Closes(s, t, interval) then Counter(None, map[], Emit(s.emitted, reqs))
    else Counter(s.start, reqs, s.emitted)
  }

  /** The counter after a sequence of requests, one step per request. */
  function CountAll(events: seq<Request>, interval: int): Counter
  {
    if events == [] then Counter(None, map[], map[])
    else
      var e := events[|events| - 1];
      CountStep(CountAll(events[..|events| - 1], interval), ClientOf(e), e.ts, interval)
  }

  /** parse_interval.py:69-74: the open interval, if any, closed after the last line. */
  function Flushed(s: Counter): map<string, seq<nat>>
  {
    if s.start.Some? then Emit(s.emitted, s.reqs) else s.emitted
  }

  function RatesOf(m: map<string, seq<nat>>, interval: int): map<string, seq<real>>
    requires interval != 0
  {
    map c | c in m :: Rates(m[c], interval)
  }

  /**
    * The dumped `clients_rpi`, with (`flush`) or without the final flush. A
    * zero interval fails at the first interval that is closed.
    */
  function IntervalReport(events: seq<Request>, interval: int, limit: int, flush: bool): Result<map<string, seq<real>>>
  {
    var s := CountAll(Taken(events, limit), interval);
    var out := if flush then Flushed(s) else s.emitted;
    if out == map[] then Ok(map[])
    else if interval == 0 then Err(ZeroDivisionError)
    else Ok(RatesOf(out, interval))
  }

  // ---------------------------------------------------------------------------
  // Invariants of the counter
  // ---------------------------------------------------------------------------

  /**
    * No start time exactly when no request is counted, and every count, open
    * or emitted, is at least 1.
    */
  ghost predicate Valid(s: Counter)
  {
    (s.start.None? <==> s.reqs == map[]) &&
    (forall c :: c in s.reqs ==> s.reqs[c] >= 1) &&
    (forall c :: c in s.emitted ==> s.emitted[c] != []) &&
    (forall c, k :: c in s.emitted && 0 <= k < |s.emitted[c]| ==> s.emitted[c][k] >= 1)
  }

  /** Closing an interval appends exactly one count to each client that has one, and changes no other client. */
  lemma EmitFacts(emitted: map<string, seq<nat>>, reqs: map<string, nat>)
    ensures Emit(emitted, reqs).Keys == emitted.Keys + reqs.Keys
    ensures forall c :: c in reqs ==> Emitted(Emit(emitted, reqs), c) == Emitted(emitted, c) + [reqs[c]]
    ensures forall c :: c !in reqs ==> Emitted(Emit(emitted, reqs), c) == Emitted(emitted, c)
  {
  }

  lemma StepValid(s: Counter, c: string, t: int, interval: int)
    requires Valid(s)
    ensures Valid(CountStep(s, c, t, interval))
  {
    var reqs := s.reqs[c := Count(s.reqs, c) + 1];
    if Closes(s, t, interval) {
      var e := Emit(s.emitted, reqs);
      forall d | d in e ensures e[d] != [] && forall k :: 0 <= k < |e[d]| ==> e[d][k] >= 1 {
        assert e[d] == Emitted(s.emitted, d) + (if d in reqs then [reqs[d]] else []);
      }
    }
  }

  lemma {:induction false} CountAllValid(events: seq<Request>, interval: int)
    ensures Valid(CountAll(events, interval))
  {
    if events != [] {
      CountAllValid(events[..|events| - 1], interval);
      var e := events[|events| - 1];
      StepValid(CountAll(events[..|events| - 1], interval), ClientOf(e), e.ts, interval);
    }
  }

  /**
    * The first request of an interval only opens it; the request that closes
    * an interval is counted in the interval it closes; no other request
    * changes what has been emitted.
    */
  lemma StepEmits(s: Counter, c: string, t: int, interval: int)
    ensures var n := CountStep(s, c, t, interval);
      (s.start.None? ==> n.start == Some(t) && n.emitted == s.emitted) &&
      (Closes(s, t, interval) ==> (n.start.None? && n.reqs == map[] &&
        Emitted(n.emitted, c) == Emitted(s.emitted, c) + [Count(s.reqs, c) + 1])) &&
      (s.start.Some? && !Closes(s, t, interval) ==> n.start == s.start && n.emitted == s.emitted)
  {
  }

  // ---------------------------------------------------------------------------
  // Conservation, client by client
  // ---------------------------------------------------------------------------

  /** One request changes the emitted plus open count of its own client only, by one. */
  lemma StepClient(s: Counter, d: string, t: int, interval: int, c: string)
    ensures var n := CountStep(s, d, t, interval);
      Sum(Emitted(n.emitted, c)) + Count(n.reqs, c) ==
      Sum(Emitted(s.emitted, c)) + Count(s.reqs, c) + (if c == d then 1 else 0)
  {
    hide Emit;
    var reqs := s.reqs[d := Count(s.reqs, d) + 1];
    if Closes(s, t, interval) {
      EmitFacts(s.emitted, reqs);
      if c in reqs {
        SumConcat(Emitted(s.emitted, c), [reqs[c]]);
      }
    }
  }

  /** A client's emitted counts plus its open count are its number of requests. */
  lemma {:induction false} ClientConservation(events: seq<Request>, interval: int, c: string)
    ensures var s := CountAll(events, interval);
      Sum(Emitted(s.emitted, c)) + Count(s.reqs, c) == |Timestamps(events, c)|
  {
    if events != [] {
      var init := events[..|events| - 1];
      var e := events[|events| - 1];
      ClientConservation(init, interval, c);
      TimestampsSnoc(init, e, c);
      assert events == init + [e];
      StepClient(CountAll(init, interval), ClientOf(e), e.ts, interval, c);
    }
  }

  /**
    * After the final flush, every client's counts add up to its number of
    * requests, and a client has a series exactly when it sent a request.
    */
  lemma FlushedConservation(events: seq<Request>, interval: int, c: string)
    ensures Sum(Emitted(Flushed(CountAll(events, interval)), c)) == |Timestamps(events, c)|
    ensures c in Flushed(CountAll(events, interval)) <==> Timestamps(events, c) != []
  {
    var s := CountAll(events, interval);
    ClientConservation(events, interval, c);
    CountAllValid(events, interval);
    EmitFacts(s.emitted, s.reqs);
    if s.start.Some? && c in s.reqs {
      SumConcat(Emitted(s.emitted, c), [s.reqs[c]]);
    }
    if c in Flushed(s) {
      var f := Flushed(s);
      assert f[c] != [] && forall k :: 0 <= k < |f[c]| ==> f[c][k] >= 1 by {
        if c in s.reqs {
          assert s.start.Some? && f[c] == Emitted(s.emitted, c) + [s.reqs[c]];
        } else {
          assert f[c] == s.emitted[c];
        }
      }
      PositiveSum(f[c]);
    }
  }

  /** Counts of at least 1 have a positive sum when there is one. */
  lemma {:induction false} PositiveSum(s: seq<nat>)
    requires |s| > 0 && forall k :: 0 <= k < |s| ==> s[k] >= 1
    ensures Sum(s) > 0
  {
    if |s| > 1 {
      PositiveSum(s[1..]);
    }
  }

  // ---------------------------------------------------------------------------
  // Conservation over all clients
  // ---------------------------------------------------------------------------

  /** The sum of a map's values. */
  ghost function MapSum(m: map<string, int>): int
    decreases |m|
  {
    if m == map[] then 0
    else
      var c :| c in m;
      assert |m - {c}| < |m| by {
        assert m.Keys == (m - {c}).Keys + {c};
      }
      m[c] + MapSum(m - {c})
  }

  lemma {:induction false} MapSumRemove(m: map<string, int>, c: string)
    requires c in m
    ensures MapSum(m) == m[c] + MapSum(m - {c})
    decreases |m|
  {
    var d :| d in m && MapSum(m) == m[d] + MapSum(m - {d});
    if d != c {
      assert |m - {d}| < |m| by {
        assert m.Keys == (m - {d}).Keys + {d};
      }
      assert |m - {c}| < |m| by {
        assert m.Keys == (m - {c}).Keys + {c};
      }
      MapSumRemove(m - {d}, c);
      MapSumRemove(m - {c}, d);
      assert m - {d} - {c} == m - {c} - {d};
    }
  }

  lemma MapSumUpdate(m: map<string, int>, c: string, v: int)
    ensures MapSum(m[c := v]) == MapSum(m) - (if c in m then m[c] else 0) + v
  {
    MapSumRemove(m[c := v], c);
    if c in m {
      MapSumRemove(m, c);
      assert m[c := v] - {c} == m - {c};
    } else {
      assert m[c := v] - {c} == m;
    }
  }

  /** Every client's number of emitted requests. */
  function Sums(m: map<string, seq<nat>>): (sums: map<string, int>)
    ensures sums.Keys == m.Keys
    ensures forall c :: c in m ==> sums[c] == Sum(m[c])
  {
    map c | c in m :: Sum(m[c])
  }

  /** Every client's count in the open interval, as integers. */
  function Counts(reqs: map<string, nat>): (counts: map<string, int>)
    ensures counts.Keys == reqs.Keys
    ensures forall c :: c in reqs ==> counts[c] == reqs[c]
  {
    map c | c in reqs :: reqs[c] as int
  }

  /** The number of requests behind all emitted rates. */
  ghost function TotalCount(m: map<string, seq<nat>>): int
  {
    MapSum(Sums(m))
  }

  /** The number of requests in the open interval. */
  ghost function OpenCount(reqs: map<string, nat>): int
  {
    MapSum(Counts(reqs))
  }

  lemma EmitNothing(emitted: map<string, seq<nat>>)
    ensures Emit(emitted, map[]) == emitted
  {
    EmitFacts(emitted, map[]);
    forall d | d in emitted ensures Emit(emitted, map[])[d] == emitted[d] {
      assert Emitted(Emit(emitted, map[]), d) == Emitted(emitted, d);
    }
  }

  /** Closing an interval with one more client changes that client's emitted total only. */
  lemma EmitOneMore(emitted: map<string, seq<nat>>, reqs: map<string, nat>, c: string)
    requires c in reqs
    ensures Sums(Emit(emitted, reqs)) ==
      Sums(Emit(emitted, reqs - {c}))[c := Sum(Emitted(emitted, c)) + reqs[c]]
  {
    hide Emit, Emitted;
    var lhs := Sums(Emit(emitted, reqs));
    var rhs := Sums(Emit(emitted, reqs - {c}))[c := Sum(Emitted(emitted, c)) + reqs[c]];
    EmitOneMoreKeys(emitted, reqs, c);
    forall d | d in lhs ensures lhs[d] == rhs[d] {
      EmitOneMoreValue(emitted, reqs, c, d);
    }
    SameMap(lhs, rhs);
  }

  lemma EmitOneMoreKeys(emitted: map<string, seq<nat>>, reqs: map<string, nat>, c: string)
    requires c in reqs
    ensures Emit(emitted, reqs).Keys == Emit(emitted, reqs - {c}).Keys + {c}
  {
    EmitFacts(emitted, reqs - {c});
    EmitFacts(emitted, reqs);
    assert (reqs - {c}).Keys + {c} == reqs.Keys;
  }

  lemma EmitOneMoreValue(emitted: map<string, seq<nat>>, reqs: map<string, nat>, c: string, d: string)
    requires c in reqs && d in Emit(emitted, reqs)
    ensures Sum(Emit(emitted, reqs)[d]) ==
      if d == c then Sum(Emitted(emitted, c)) + reqs[c] else Sum(Emit(emitted, reqs - {c})[d])
  {
    var after := Emit(emitted, reqs);
    if d == c {
      EmitFacts(emitted, reqs);
      SumConcat(Emitted(emitted, c), [reqs[c]]);
      assert after[c] == Emitted(emitted, c) + [reqs[c]];
    } else {
      var before := Emit(emitted, reqs - {c});
      EmitFacts(emitted, reqs - {c});
      EmitFacts(emitted, reqs);
      assert Emitted(after, d) == Emitted(before, d);
    }
  }

  /** Closing an interval moves exactly its requests into the emitted counts. */
  lemma {:induction false} EmitTotal(emitted: map<string, seq<nat>>, reqs: map<string, nat>)
    ensures TotalCount(Emit(emitted, reqs)) == TotalCount(emitted) + OpenCount(reqs)
    decreases |reqs|
  {
    if reqs == map[] {
      EmitNothing(emitted);
      assert Counts(reqs) == map[];
    } else {
      var c :| c in reqs;
      var rest := reqs - {c};
      assert |rest| < |reqs| by {
        assert reqs.Keys == rest.Keys + {c};
      }
      EmitTotal(emitted, rest);
      EmitTotalStep(emitted, reqs, c);
      OpenCountRemove(reqs, c);
    }
  }

  lemma EmitTotalStep(emitted: map<string, seq<nat>>, reqs: map<string, nat>, c: string)
    requires c in reqs
    ensures TotalCount(Emit(emitted, reqs)) == TotalCount(Emit(emitted, reqs - {c})) + reqs[c]
  {
    hide Emit, Emitted, Sums, MapSum;
    EmitBefore(emitted, reqs, c);
    EmitOneMore(emitted, reqs, c);
    MapSumAdd(Sums(Emit(emitted, reqs)), Sums(Emit(emitted, reqs - {c})), c, Sum(Emitted(emitted, c)), reqs[c]);
  }

  /** Before the client's count is added, its total is that of its emitted counts. */
  lemma EmitBefore(emitted: map<string, seq<nat>>, reqs: map<string, nat>, c: string)
    requires c in reqs
    ensures var b := Sums(Emit(emitted, reqs - {c})); (if c in b then b[c] else 0) == Sum(Emitted(emitted, c))
  {
    EmitUntouched(emitted, reqs - {c}, c);
    SumsLookup(Emit(emitted, reqs - {c}), c);
  }

  lemma MapSumAdd(l: map<string, int>, b: map<string, int>, c: string, prev: int, v: int)
    requires l == b[c := prev + v] && (if c in b then b[c] else 0) == prev
    ensures MapSum(l) == MapSum(b) + v
  {
    MapSumUpdate(b, c, prev + v);
  }

  lemma EmitUntouched(emitted: map<string, seq<nat>>, reqs: map<string, nat>, c: string)
    requires c !in reqs
    ensures Emitted(Emit(emitted, reqs), c) == Emitted(emitted, c)
  {
    EmitFacts(emitted, reqs);
  }

  lemma SumsLookup(m: map<string, seq<nat>>, c: string)
    ensures (if c in Sums(m) then Sums(m)[c] else 0) == Sum(Emitted(m, c))
  {
  }

  lemma OpenCountRemove(reqs: map<string, nat>, c: string)
    requires c in reqs
    ensures OpenCount(reqs) == OpenCount(reqs - {c}) + reqs[c]
  {
    MapSumRemove(Counts(reqs), c);
    assert Counts(reqs) - {c} == Counts(reqs - {c});
  }

  /** Counting one more request of a client adds one to the open total. */
  lemma OpenCountIncrement(reqs: map<string, nat>, c: string)
    ensures OpenCount(reqs[c := Count(reqs, c) + 1]) == OpenCount(reqs) + 1
  {
    MapSumUpdate(Counts(reqs), c, Count(reqs, c) + 1);
    assert Counts(reqs[c := Count(reqs, c) + 1]) == Counts(reqs)[c := Count(reqs, c) + 1];
  }

  /** Every request processed is either emitted or still in the open interval. */
  lemma {:induction false} GlobalConservation(events: seq<Request>, interval: int)
    ensures var s := CountAll(events, interval);
      TotalCount(s.emitted) + OpenCount(s.reqs) == |events|
  {
    hide TotalCount, OpenCount, Emit, MapSum, Sums, Counts;
    var s := CountAll(events, interval);
    NothingOpen();
    if events != [] {
      var init := events[..|events| - 1];
      var e := events[|events| - 1];
      var p := CountAll(init, interval);
      GlobalConservation(init, interval);
      OpenCountIncrement(p.reqs, ClientOf(e));
      var reqs := p.reqs[ClientOf(e) := Count(p.reqs, ClientOf(e)) + 1];
      if Closes(p, e.ts, interval) {
        EmitTotal(p.emitted, reqs);
      }
    }
  }

  /** Nothing emitted and nothing open count no request. */
  lemma NothingOpen()
    ensures TotalCount(map[]) == 0 && OpenCount(map[]) == 0
  {
    assert Sums(map[]) == map[];
    assert Counts(map[]) == map[];
  }

  /** A non-empty open interval holds a positive number of requests. */
  lemma OpenCountPositive(reqs: map<string, nat>)
    requires forall c :: c in reqs ==> reqs[c] >= 1
    ensures OpenCount(reqs) >= 0
    ensures OpenCount(reqs) == 0 <==> reqs == map[]
  {
    OpenCountBound(reqs);
    if reqs == map[] {
      assert Counts(reqs) == map[];
    }
  }

  lemma {:induction false} OpenCountBound(reqs: map<string, nat>)
    requires forall c :: c in reqs ==> reqs[c] >= 1
    ensures reqs != map[] ==> OpenCount(reqs) >= 1
    ensures OpenCount(reqs) >= 0
    decreases |reqs|
  {
    var counts := Counts(reqs);
    if reqs == map[] {
      assert counts == map[];
    } else {
      var c :| c in reqs;
      var rest := reqs - {c};
      assert |rest| < |reqs| by {
        assert reqs.Keys == rest.Keys + {c};
      }
      OpenCountBound(rest);
      MapSumRemove(counts, c);
      assert counts - {c} == Counts(rest);
    }
  }

  /**
    * parse_interval.py: after the final flush the emitted counts add up to the
    * number of lines processed. parse.py: without it they add up to at most
    * that number, with equality exactly when no interval is left open.
    */
  lemma ConservationWithAndWithoutFlush(events: seq<Request>, interval: int)
    ensures TotalCount(Flushed(CountAll(events, interval))) == |events|
    ensures TotalCount(CountAll(events, interval).emitted) <= |events|
    ensures TotalCount(CountAll(events, interval).emitted) == |events| <==> CountAll(events, interval).start.None?
  {
    var s := CountAll(events, interval);
    GlobalConservation(events, interval);
    CountAllValid(events, interval);
    OpenCountPositive(s.reqs);
    if s.start.Some? {
      EmitTotal(s.emitted, s.reqs);
    }
  }

  /**
    * An interval is left open at the end exactly when there was a request and
    * the last request did not close an interval.
    */
  lemma EndsOpen(events: seq<Request>, interval: int)
    ensures CountAll(events, interval).start.Some? <==>
      events != [] &&
      !Closes(CountAll(events[..|events| - 1], interval), events[|events| - 1].ts, interval)
  {
  }

  // ---------------------------------------------------------------------------
  // Emitted series only grow
  // ---------------------------------------------------------------------------

  lemma {:induction false} EmittedGrows(events: seq<Request>, interval: int, k: nat)
    requires k <= |events|
    ensures CountAll(events[..k], interval).emitted.Keys <= CountAll(events, interval).emitted.Keys
    decreases |events| - k
  {
    if k < |events| {
      EmittedGrows(events, interval, k + 1);
      var s := CountAll(events[..k], interval);
      var e := events[k];
      assert events[..k + 1][..k] == events[..k];
      var reqs := s.reqs[ClientOf(e) := Count(s.reqs, ClientOf(e)) + 1];
      if Closes(s, e.ts, interval) {
        EmitFacts(s.emitted, reqs);
      }
    } else {
      assert events[..k] == events;
    }
  }

  /**
    * The final flush loses nothing: its result is empty exactly when there
    * were no requests, and then the report is Ok of an empty map whatever the
    * interval.
    */
  lemma FlushedEmpty(events: seq<Request>, interval: int)
    ensures Flushed(CountAll(events, interval)) == map[] <==> events == []
  {
    if events != [] {
      var c := ClientOf(events[|events| - 1]);
      FlushedConservation(events, interval, c);
      TimestampsOwner(events, c);
    }
  }

  /** parse_interval.py fails with ZeroDivisionError exactly when the interval is 0 and a line was read. */
  lemma FlushReportErrors(events: seq<Request>, interval: int, limit: int)
    ensures IntervalReport(events, interval, limit, true).Err? <==> interval == 0 && Taken(events, limit) != []
    ensures IntervalReport(events, interval, limit, true).Err? ==>
      IntervalReport(events, interval, limit, true).error == ZeroDivisionError
  {
    FlushedEmpty(Taken(events, limit), interval);
  }

  /**
    * With a non-zero interval, parse_interval.py's result has a series for
    * exactly the clients that sent a request, and each series times the
    * interval adds up to that client's number of requests.
    */
  lemma FlushReportRates(events: seq<Request>, interval: int, limit: int, c: string)
    requires interval != 0 && Taken(events, limit) != []
    ensures IntervalReport(events, interval, limit, true).Ok?
    ensures c in IntervalReport(events, interval, limit, true).value <==> Timestamps(Taken(events, limit), c) != []
    ensures c in IntervalReport(events, interval, limit, true).value ==>
      ScaledSum(IntervalReport(events, interval, limit, true).value[c], interval) == |Timestamps(Taken(events, limit), c)| as real
  {
    var taken := Taken(events, limit);
    var out := Flushed(CountAll(taken, interval));
    FlushedEmpty(taken, interval);
    assert IntervalReport(events, interval, limit, true) == Ok(RatesOf(out, interval));
    FlushedConservation(taken, interval, c);
    RatesOfConserve(out, interval, c, |Timestamps(taken, c)|);
  }

  /** Σ rpi × interval: the number of requests behind a series of rates. */
  function ScaledSum(rates: seq<real>, interval: int): real
  {
    SumReal(rates) * interval as real
  }

  /** A series' rates times the interval add up to the requests behind them. */
  lemma RatesOfConserve(m: map<string, seq<nat>>, interval: int, c: string, n: int)
    requires interval != 0 && (c in m ==> Sum(m[c]) == n)
    ensures c in RatesOf(m, interval) <==> c in m
    ensures c in RatesOf(m, interval) ==> ScaledSum(RatesOf(m, interval)[c], interval) == n as real
  {
    if c in m {
      RatesConserveCounts(m[c], interval);
    }
  }

  // ---------------------------------------------------------------------------
  // The scripts
  // ---------------------------------------------------------------------------

  /** Appending `count / interval` to every series of a client in `reqs`. */
  function AppendRates(rpi: map<string, seq<real>>, reqs: map<string, nat>, interval: int): map<string, seq<real>>
    requires interval != 0
  {
    map c | c in rpi.Keys + reqs.Keys ::
      (if c in rpi then rpi[c] else []) + (if c in reqs then [reqs[c] as real / interval as real] else [])
  }

  lemma RatesOfEmit(emitted: map<string, seq<nat>>, reqs: map<string, nat>, interval: int)
    requires interval != 0
    ensures RatesOf(Emit(emitted, reqs), interval) == AppendRates(RatesOf(emitted, interval), reqs, interval)
  {
    var l := RatesOf(Emit(emitted, reqs), interval);
    var r := AppendRates(RatesOf(emitted, interval), reqs, interval);
    forall c | c in l ensures l[c] == r[c] {
      var prev := Emitted(emitted, c);
      if c in reqs {
        assert Emit(emitted, reqs)[c] == prev + [reqs[c]];
        assert Rates(prev + [reqs[c]], interval) == Rates(prev, interval) + [reqs[c] as real / interval as real];
      } else {
        assert Emit(emitted, reqs)[c] == prev;
      }
    }
  }

  /** The counts of the clients of `keys` only. */
  function Only(reqs: map<string, nat>, keys: set<string>): map<string, nat>
  {
    map c | c in reqs && c in keys :: reqs[c]
  }

  /** Appending the rate of one more client of the closed interval. */
  lemma AppendOne(rpi: map<string, seq<real>>, reqs: map<string, nat>, done: set<string>, c: string, interval: int)
    requires interval != 0 && c in reqs && c !in done
    ensures var before := AppendRates(rpi, Only(reqs, done), interval);
      AppendRates(rpi, Only(reqs, done + {c}), interval) ==
      before[c := (if c in before then before[c] else []) + [reqs[c] as real / interval as real]]
  {
    var before := AppendRates(rpi, Only(reqs, done), interval);
    var after := AppendRates(rpi, Only(reqs, done + {c}), interval);
    assert Only(reqs, done + {c}) == Only(reqs, done)[c := reqs[c]];
    assert after.Keys == before.Keys + {c};
    forall d | d in after
      ensures after[d] == before[c := (if c in before then before[c] else []) + [reqs[c] as real / interval as real]][d]
    {
    }
  }

  lemma AppendNext(rpi: map<string, seq<real>>, reqs: map<string, nat>, todo: set<string>, c: string, interval: int)
    requires interval != 0 && c in todo && todo <= reqs.Keys
    ensures var before := AppendRates(rpi, Only(reqs, reqs.Keys - todo), interval);
      AppendRates(rpi, Only(reqs, reqs.Keys - (todo - {c})), interval) ==
      before[c := (if c in before then before[c] else []) + [reqs[c] as real / interval as real]]
  {
    AppendOne(rpi, reqs, reqs.Keys - todo, c, interval);
    assert reqs.Keys - todo + {c} == reqs.Keys - (todo - {c});
  }

  /** parse_interval.py:58-62: the flush loop over the clients of the closed interval. */
  method AppendAll(rpi: map<string, seq<real>>, reqs: map<string, nat>, interval: int) returns (out: map<string, seq<real>>)
    requires interval != 0
    ensures out == AppendRates(rpi, reqs, interval)
  {
    hide AppendRates, Only;
    out := rpi;
    var todo := reqs.Keys;
    AppendNothing(rpi, reqs, interval);
    assert reqs.Keys - todo == {};
    while todo != {}
      invariant todo <= reqs.Keys
      invariant out == AppendRates(rpi, Only(reqs, reqs.Keys - todo), interval)
      decreases todo
    {
      var client :| client in todo;
      var rate := reqs[client] as real / interval as real;
      AppendNext(rpi, reqs, todo, client, interval);
      if client !in out {
        out := out[client := []];
      }
      out := out[client := out[client] + [rate]];
      todo := todo - {client};
    }
    OnlyAll(reqs);
    assert reqs.Keys - todo == reqs.Keys;
  }

  /** Appending the rates of no client changes nothing. */
  lemma AppendNothing(rpi: map<string, seq<real>>, reqs: map<string, nat>, interval: int)
    requires interval != 0
    ensures AppendRates(rpi, Only(reqs, {}), interval) == rpi
  {
    assert Only(reqs, {}) == map[];
    var a := AppendRates(rpi, map[], interval);
    assert a.Keys == rpi.Keys;
    forall c | c in a ensures a[c] == rpi[c] {
      assert a[c] == rpi[c] + [];
    }
  }

  lemma OnlyAll(reqs: map<string, nat>)
    ensures Only(reqs, reqs.Keys) == reqs
  {
  }

  /** With a zero interval, a request that closes an interval leaves an emitted count behind. */
  lemma ZeroIntervalFails(events: seq<Request>, limit: int, k: nat)
    requires 0 < k <= |Taken(events, limit)|
    requires Closes(CountAll(events[..k - 1], 0), events[k - 1].ts, 0)
    ensures CountAll(Taken(events, limit), 0).emitted != map[]
  {
    var taken := Taken(events, limit);
    assert taken[..k] == events[..k];
    assert events[..k][..k - 1] == events[..k - 1];
    var s := CountAll(events[..k - 1], 0);
    var c := ClientOf(events[k - 1]);
    var reqs := s.reqs[c := Count(s.reqs, c) + 1];
    EmitFacts(s.emitted, reqs);
    assert c in CountAll(events[..k], 0).emitted;
    EmittedGrows(taken, 0, k);
  }

  /** Before the first line nothing is counted and no rate is emitted. */
  lemma NothingCounted(events: seq<Request>, interval: int)
    ensures CountAll(events[..0], interval) == Counter(None, map[], map[])
    ensures interval != 0 ==> RatesOf(map[], interval) == map[]
  {
  }

  lemma CountAllSnoc(events: seq<Request>, k: nat, interval: int)
    requires k < |events|
    ensures CountAll(events[..k + 1], interval) ==
      CountStep(CountAll(events[..k], interval), ClientOf(events[k]), events[k].ts, interval)
  {
    assert events[..k + 1][..k] == events[..k];
  }

  /** The state of parse_interval.py's line loop. */
  datatype LoopState = LoopState(start: Option<int>, reqs: map<string, nat>, rpi: map<string, seq<real>>)

  /**
    * parse_interval.py:31-66 and parse.py:41-78: the limited line loop. It
    * fails at the first interval it closes when the interval is 0.
    */
  method CountLines(events: seq<Request>, interval: int, limit: int) returns (r: Result<LoopState>)
    ensures var s := CountAll(Taken(events, limit), interval);
      r.Err? <==> interval == 0 && s.emitted != map[]
    ensures r.Err? ==> r.error == ZeroDivisionError
    ensures var s := CountAll(Taken(events, limit), interval);
      r.Ok? ==> (r.value.start == s.start && r.value.reqs == s.reqs &&
        (interval != 0 ==> r.value.rpi == RatesOf(s.emitted, interval)) &&
        (interval == 0 ==> r.value.rpi == map[]))
  {
    hide CountAll, Emit, RatesOf, AppendRates;
    var start: Option<int> := None;
    var reqs: map<string, nat> := map[];
    var rpi: map<string, seq<real>> := map[];
    ghost var s := Counter(None, map[], map[]);
    NothingCounted(events, interval);
    var k := 0;
    var i := 0;
    while k < |events|
      invariant k <= LinesConsidered(|events|, limit) && i == k
      invariant s == CountAll(events[..k], interval)
      invariant start == s.start && reqs == s.reqs
      invariant interval != 0 ==> rpi == RatesOf(s.emitted, interval)
      invariant interval == 0 ==> s.emitted == map[] && rpi == map[]
    {
      i := i + 1;
      if limit != 0 && i >= limit {
        break;
      }
      var e := events[k];
      var client := ClientOf(e);
      CountAllSnoc(events, k, interval);
      ghost var before := s;
      s := CountStep(s, client, e.ts, interval);
      k := k + 1;
      if client !in reqs {
        reqs := reqs[client := 0];
      }
      reqs := reqs[client := reqs[client] + 1];
      assert reqs == before.reqs[client := Count(before.reqs, client) + 1];
      if start.None? {
        start := Some(e.ts);
        continue;
      }
      if e.ts - start.value >= interval {
        start := None;
        if interval == 0 {
          ZeroIntervalFails(events, limit, k);
          r := Err(ZeroDivisionError);
          return;
        }
        assert s.emitted == Emit(before.emitted, reqs);
        RatesOfEmit(before.emitted, reqs, interval);
        rpi := AppendAll(rpi, reqs, interval);
        reqs := map[];
      } else {
        assert s.emitted == before.emitted;
      }
    }
    assert events[..k] == Taken(events, limit);
    r := Ok(LoopState(start, reqs, rpi));
  }

  /** parse_interval.py:7-74 with the JSON dump left out: the loop, then the final flush. */
  method ParseInterval(events: seq<Request>, interval: int, limit: int) returns (r: Result<map<string, seq<real>>>)
    ensures r == IntervalReport(events, interval, limit, true)
  {
    var loop := CountLines(events, interval, limit);
    ghost var s := CountAll(Taken(events, limit), interval);
    CountAllValid(Taken(events, limit), interval);
    if loop.Err? {
      EmitFacts(s.emitted, s.reqs);
      return Err(loop.error);
    }
    var clientsRpi := loop.value.rpi;
    if loop.value.start.Some? {
      if interval == 0 {
        EmitFacts(s.emitted, s.reqs);
        return Err(ZeroDivisionError);
      }
      RatesOfEmit(s.emitted, s.reqs, interval);
      clientsRpi := AppendAll(clientsRpi, loop.value.reqs, interval);
    }
    r := Ok(clientsRpi);
  }

  /** parse.py:33-81 with the JSON dump left out: the loop without a final flush. */
  method ParseIntervalNoFlush(events: seq<Request>, interval: int, limit: int) returns (r: Result<map<string, seq<real>>>)
    ensures r == IntervalReport(events, interval, limit, false)
  {
    var loop := CountLines(events, interval, limit);
    if loop.Err? {
      return Err(loop.error);
    }
    r := Ok(loop.value.rpi);
  }
}

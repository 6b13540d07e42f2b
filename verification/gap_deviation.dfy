/**
  * parse_deviation.py: the timestamps of every client are grouped, split into
  * runs of differences wherever two neighbouring requests are at least
  * GapThreshold seconds apart, and every run gets a mean and a sample
  * deviation. The run is one list object per client, `session_req`, that is
  * appended to the client's entries at every long gap and then cleared in
  * place: every entry of a client is that one list, and what they all show in
  * the end is its last contents.
  */
module GapDeviation {
  import opened Common
  import opened Segmentation
  import opened Moments
  import opened TimingStats

  // ---------------------------------------------------------------------------
  // One client
  // ---------------------------------------------------------------------------

  /**
    * The inner loop of parse_deviation.py:57-63 after the differences `gaps`:
    * how many times the shared list was appended to the entries, and what it
    * holds.
    */
  function SplitRun(gaps: seq<int>): (nat, seq<int>)
  {
    if gaps == [] then (0, [])
    else
      var (n, run) := SplitRun(gaps[..|gaps| - 1]);
      var g := gaps[|gaps| - 1];
      if g < GapThreshold then (n, run + [g]) else (n + 1, [])
  }

  /** What the shared list of a client with timestamps `ts` holds after the loop. */
  function SharedDiffs(ts: seq<int>): seq<int>
  {
    SplitRun(Gaps(ts)).1
  }

  /**
    * The Diff entries of a client as written out: the shared list once per
    * long gap, and once more if it is not empty after the last one.
    */
  function ClientEntries(ts: seq<int>): seq<seq<int>>
  {
    var (n, run) := SplitRun(Gaps(ts));
    var count := n + (if |run| > 0 then 1 else 0);
    seq(count, i requires 0 <= i < count => run)
  }

  /** The positions of `gaps` that hold a gap of at least GapThreshold seconds. */
  function LongGaps(gaps: seq<int>): set<nat>
  {
    set k: nat | k < |gaps| && gaps[k] >= GapThreshold
  }

  lemma LongGapsSnoc(gaps: seq<int>, g: int)
    ensures LongGaps(gaps + [g]) == LongGaps(gaps) + (if g >= GapThreshold then {|gaps|} else {})
    ensures |gaps| !in LongGaps(gaps)
  {
    var l, r := LongGaps(gaps + [g]), LongGaps(gaps) + (if g >= GapThreshold then {|gaps|} else {});
    forall k | k in l ensures k in r {
      if k < |gaps| {
        assert (gaps + [g])[k] == gaps[k];
      }
    }
  }

  /**
    * The shared list ends up holding the differences after the client's last
    * long gap (all of them if there is none), none of which is itself long,
    * and it is appended once for every long gap.
    */
  lemma SplitRunFacts(gaps: seq<int>)
    ensures var (n, run) := SplitRun(gaps);
      n == |LongGaps(gaps)| &&
      |run| <= |gaps| && run == gaps[|gaps| - |run|..] &&
      (forall k :: 0 <= k < |run| ==> run[k] < GapThreshold) &&
      (|run| < |gaps| ==> gaps[|gaps| - |run| - 1] >= GapThreshold)
  {
    SplitRunCount(gaps);
    SplitRunTail(gaps);
  }

  /** The shared list is appended once for every long gap. */
  lemma {:induction false} SplitRunCount(gaps: seq<int>)
    ensures SplitRun(gaps).0 == |LongGaps(gaps)|
  {
    if gaps == [] {
      assert LongGaps(gaps) == {};
    } else {
      var init, g := gaps[..|gaps| - 1], gaps[|gaps| - 1];
      assert init + [g] == gaps;
      SplitRunCount(init);
      LongGapsSnoc(init, g);
      SplitRunSnocGap(init, g);
    }
  }

  /** The list holds the differences after the last long gap, none of them long. */
  lemma {:induction false} SplitRunTail(gaps: seq<int>)
    ensures var run := SplitRun(gaps).1;
      |run| <= |gaps| && run == gaps[|gaps| - |run|..] &&
      (forall k :: 0 <= k < |run| ==> run[k] < GapThreshold) &&
      (|run| < |gaps| ==> gaps[|gaps| - |run| - 1] >= GapThreshold)
  {
    if gaps != [] {
      var init, g := gaps[..|gaps| - 1], gaps[|gaps| - 1];
      assert init + [g] == gaps;
      SplitRunTail(init);
      SplitRunSnocGap(init, g);
      var run := SplitRun(init).1;
      hide SplitRun;
      if g < GapThreshold {
        var longer := run + [g];
        assert gaps[|gaps| - |longer|..] == init[|init| - |run|..] + [g];
        forall k | 0 <= k < |longer| ensures longer[k] < GapThreshold {
          if k < |run| {
            assert longer[k] == run[k];
          }
        }
      }
    }
  }

  /** One more gap: it either extends the trailing run or ends it. */
  lemma SplitRunSnocGap(gaps: seq<int>, g: int)
    ensures SplitRun(gaps + [g]) ==
      if g < GapThreshold then (SplitRun(gaps).0, SplitRun(gaps).1 + [g]) else (SplitRun(gaps).0 + 1, [])
  {
    var longer := gaps + [g];
    assert longer[..|longer| - 1] == gaps && longer[|longer| - 1] == g;
  }

  /**
    * parse_deviation.py splits at the same gaps as the session segmentation of
    * parse_log.py: the shared list is appended once for every session but the
    * last, and ends up with the differences inside the last session.
    */
  lemma {:induction false} SplitRunSessions(ts: seq<int>)
    requires ts != []
    ensures SplitRun(Gaps(ts)) == (|Sessions(ts)| - 1, Gaps(LastSession(Sessions(ts))))
  {
    if |ts| == 1 {
      assert ts[..0] == [];
      assert Buffer(ts) == Buffered([], ts);
    } else {
      var init, t := ts[..|ts| - 1], ts[|ts| - 1];
      assert init + [t] == ts;
      SplitRunSessions(init);
      SplitRunSnoc(init, t);
    }
  }

  /** The inductive step of SplitRunSessions: one more timestamp. */
  lemma SplitRunSnoc(init: seq<int>, t: int)
    requires init != [] && |Sessions(init)| > 0
    requires SplitRun(Gaps(init)) == (|Sessions(init)| - 1, Gaps(LastSession(Sessions(init))))
    ensures SplitRun(Gaps(init + [t])) == (|Sessions(init + [t])| - 1, Gaps(LastSession(Sessions(init + [t]))))
  {
    hide Sessions, SplitRun;
    var ss := Sessions(init);
    var ts := init + [t];
    SessionsEnd(init);
    GapsSnoc(init, t);
    var g := t - Last(init);
    SplitRunSnocGap(Gaps(init), g);
    if g >= GapThreshold {
      SessionsAfterGap(init, t);
      assert LastSession(Sessions(ts)) == [t];
    } else {
      SessionsWithinGap(init, t);
      GapsSnoc(LastSession(ss), t);
    }
  }

  /**
    * A client's entries: none for a single request; one per long gap plus
    * one if the list is not empty after the last long gap; every entry shows
    * the differences after the last long gap, and no long gap is among them.
    */
  lemma ClientEntriesFacts(ts: seq<int>)
    ensures |ts| <= 1 ==> ClientEntries(ts) == []
    ensures |ClientEntries(ts)| == |LongGaps(Gaps(ts))| + (if SharedDiffs(ts) != [] then 1 else 0)
    ensures forall i :: 0 <= i < |ClientEntries(ts)| ==> ClientEntries(ts)[i] == SharedDiffs(ts)
    ensures forall k :: 0 <= k < |SharedDiffs(ts)| ==> SharedDiffs(ts)[k] < GapThreshold
    ensures ts != [] ==> SharedDiffs(ts) == Gaps(LastSession(Sessions(ts)))
  {
    var gaps := Gaps(ts);
    SplitRunFacts(gaps);
    var (n, run) := SplitRun(gaps);
    assert SharedDiffs(ts) == run;
    assert |ClientEntries(ts)| == n + (if |run| > 0 then 1 else 0);
    if ts != [] {
      SplitRunSessions(ts);
    }
  }

  // ---------------------------------------------------------------------------
  // The three dumped dictionaries
  // ---------------------------------------------------------------------------

  /** The clients that sent at least one of `events`. */
  function ClientsOf(events: seq<Request>): set<string>
  {
    set r | r in events :: ClientOf(r)
  }

  /** The Mean entries of a client: `sum / len` of every Diff entry, or None for an empty one. */
  function EntryMeans(entries: seq<seq<int>>): seq<Option<real>>
  {
    seq(|entries|, i requires 0 <= i < |entries| => MeanOf(entries[i]))
  }

  /** The first pass of the Deviation loop for a client: squared deviations from the entry's mean. */
  function EntrySquares(entries: seq<seq<int>>): seq<DevCell>
  {
    seq(|entries|, i requires 0 <= i < |entries| => SquaresOf(entries[i], MeanOf(entries[i])))
  }

  /** The Deviation entries of a client, after the second pass. */
  function EntryDeviations(entries: seq<seq<int>>): seq<DevCell>
  {
    seq(|entries|, i requires 0 <= i < |entries| => DeviationOf(entries[i], MeanOf(entries[i])))
  }

  /** `clients_diff`, `clients_mean` and `clients_deviation` as written out. */
  datatype Dumps = Dumps(
    diff: map<string, seq<seq<int>>>,
    mean: map<string, seq<Option<real>>>,
    deviation: map<string, seq<DevCell>>)

  /** The Diff dictionary: a key for every client that got at least one entry. */
  function DiffDump(events: seq<Request>): map<string, seq<seq<int>>>
  {
    map c | c in ClientsOf(events) && ClientEntries(Timestamps(events, c)) != [] :: ClientEntries(Timestamps(events, c))
  }

  /** What parse_deviation.py writes for the lines it reads. */
  function DeviationDumps(events: seq<Request>, limit: int): Dumps
  {
    var diff := DiffDump(Taken(events, limit));
    Dumps(diff, map c | c in diff :: EntryMeans(diff[c]), map c | c in diff :: EntryDeviations(diff[c]))
  }

  lemma ClientsOfOwners(events: seq<Request>)
    ensures forall c :: c in ClientsOf(events) <==> Timestamps(events, c) != []
  {
    forall c ensures c in ClientsOf(events) <==> Timestamps(events, c) != [] {
      TimestampsOwner(events, c);
    }
  }

  /**
    * For every client of the lines read: a single request gives no Diff key;
    * a client with a key has one entry per long gap plus one for a non-empty
    * trailing run, all showing the differences of its last session; its Mean
    * and Deviation lists have one value per entry, the mean and the sample
    * deviation of that list (see MeanOf and DeviationFacts for what they are).
    */
  lemma DumpsFacts(events: seq<Request>, limit: int, c: string)
    ensures var d := DeviationDumps(events, limit);
      var ts := Timestamps(Taken(events, limit), c);
      d.mean.Keys == d.diff.Keys && d.deviation.Keys == d.diff.Keys &&
      (|ts| <= 1 ==> c !in d.diff) &&
      (c in d.diff <==> ClientEntries(ts) != []) &&
      (c in d.diff ==>
        |d.diff[c]| == |LongGaps(Gaps(ts))| + (if SharedDiffs(ts) != [] then 1 else 0) &&
        |d.mean[c]| == |d.diff[c]| && |d.deviation[c]| == |d.diff[c]| &&
        forall i :: 0 <= i < |d.diff[c]| ==>
          d.diff[c][i] == SharedDiffs(ts) == Gaps(LastSession(Sessions(ts))) &&
          d.mean[c][i] == MeanOf(SharedDiffs(ts)) &&
          d.deviation[c][i] == DeviationOf(SharedDiffs(ts), MeanOf(SharedDiffs(ts))))
  {
    var taken := Taken(events, limit);
    var ts := Timestamps(taken, c);
    var run := SharedDiffs(ts);
    var d := DeviationDumps(events, limit);
    assert d.diff == DiffDump(taken);
    ClientsOfOwners(taken);
    ClientEntriesFacts(ts);
    assert c in d.diff <==> ClientEntries(ts) != [];
    if c in d.diff {
      DumpsClient(events, limit, c);
    }
  }

  /** The lists of a client with a Diff key, as DumpsFacts states them. */
  lemma DumpsClient(events: seq<Request>, limit: int, c: string)
    requires c in DeviationDumps(events, limit).diff
    ensures var d := DeviationDumps(events, limit);
      var ts := Timestamps(Taken(events, limit), c);
      c in d.mean && c in d.deviation &&
      |d.diff[c]| == |LongGaps(Gaps(ts))| + (if SharedDiffs(ts) != [] then 1 else 0) &&
      |d.mean[c]| == |d.diff[c]| && |d.deviation[c]| == |d.diff[c]| &&
      forall i :: 0 <= i < |d.diff[c]| ==>
        d.diff[c][i] == SharedDiffs(ts) == Gaps(LastSession(Sessions(ts))) &&
        d.mean[c][i] == MeanOf(SharedDiffs(ts)) &&
        d.deviation[c][i] == DeviationOf(SharedDiffs(ts), MeanOf(SharedDiffs(ts)))
  {
    hide DeviationDumps, ClientEntries, EntryMeans, EntryDeviations, SharedDiffs, Sessions;
    var ts := Timestamps(Taken(events, limit), c);
    var d := DeviationDumps(events, limit);
    DumpsAt(events, limit, c);
    ClientEntriesFacts(ts);
    SameEntries(d.diff[c], SharedDiffs(ts));
  }

  /** The three dictionaries agree on a client with a Diff key. */
  lemma DumpsAt(events: seq<Request>, limit: int, c: string)
    requires c in DeviationDumps(events, limit).diff
    ensures var d := DeviationDumps(events, limit);
      c in d.mean && c in d.deviation &&
      d.diff[c] == ClientEntries(Timestamps(Taken(events, limit), c)) &&
      d.mean[c] == EntryMeans(d.diff[c]) && d.deviation[c] == EntryDeviations(d.diff[c])
  {
  }

  /** Entries that all hold the same list have the same mean and deviation. */
  lemma SameEntries(entries: seq<seq<int>>, run: seq<int>)
    requires forall i :: 0 <= i < |entries| ==> entries[i] == run
    ensures |EntryMeans(entries)| == |entries| && |EntryDeviations(entries)| == |entries|
    ensures forall i :: 0 <= i < |entries| ==>
      EntryMeans(entries)[i] == MeanOf(run) && EntryDeviations(entries)[i] == DeviationOf(run, MeanOf(run))
  {
  }

  // ---------------------------------------------------------------------------
  // The script
  // ---------------------------------------------------------------------------

  /** `clients_reqs` after the requests `events`: `order` is its key order. */
  ghost predicate Grouped(order: seq<string>, reqs: map<string, seq<int>>, events: seq<Request>)
  {
    Lists(order, reqs.Keys) &&
    (forall c :: c in reqs <==> Timestamps(events, c) != []) &&
    (forall c :: c in reqs ==> reqs[c] == Timestamps(events, c))
  }

  lemma GroupedSnoc(order: seq<string>, reqs: map<string, seq<int>>, events: seq<Request>, e: Request)
    requires Grouped(order, reqs, events)
    ensures var c := ClientOf(e);
      Grouped(if c in reqs then order else order + [c],
        reqs[c := (if c in reqs then reqs[c] else []) + [e.ts]], events + [e])
  {
    hide Timestamps;
    forall d {
      TimestampsSnoc(events, e, d);
    }
  }

  /** parse_deviation.py:28-47: the limited line loop grouping timestamps by client. */
  method GroupLines(events: seq<Request>, limit: int) returns (order: seq<string>, reqs: map<string, seq<int>>)
    ensures Lists(order, reqs.Keys)
    ensures forall c :: c in reqs <==> Timestamps(Taken(events, limit), c) != []
    ensures forall c :: c in reqs ==> reqs[c] == Timestamps(Taken(events, limit), c)
  {
    hide Grouped, Timestamps;
    order, reqs := [], map[];
    GroupedStart(events);
    var k := 0;
    var i := 0;
    while k < |events|
      invariant k <= LinesConsidered(|events|, limit) && i == k
      invariant Grouped(order, reqs, events[..k])
    {
      i := i + 1;
      if limit != 0 && i >= limit {
        break;
      }
      var e := events[k];
      var client := ClientOf(e);
      assert events[..k + 1] == events[..k] + [e];
      GroupedSnoc(order, reqs, events[..k], e);
      ghost var nextOrder := if client in reqs then order else order + [client];
      ghost var next := reqs[client := (if client in reqs then reqs[client] else []) + [e.ts]];
      if client !in reqs {
        reqs := reqs[client := []];
        order := order + [client];
      }
      reqs := reqs[client := reqs[client] + [e.ts]];
      assert reqs == next && order == nextOrder;
      k := k + 1;
    }
    assert events[..k] == Taken(events, limit);
    GroupedMeans(order, reqs, events[..k]);
  }

  lemma GroupedStart(events: seq<Request>)
    ensures Grouped([], map[], events[..0])
  {
    assert events[..0] == [];
  }

  lemma GroupedMeans(order: seq<string>, reqs: map<string, seq<int>>, events: seq<Request>)
    requires Grouped(order, reqs, events)
    ensures Lists(order, reqs.Keys)
    ensures forall c :: c in reqs <==> Timestamps(events, c) != []
    ensures forall c :: c in reqs ==> reqs[c] == Timestamps(events, c)
  {
  }

  /** What a client's entries show: the current contents of each list. */
  function Contents(entries: seq<DiffList>): (shown: seq<seq<int>>)
    reads entries
    ensures |shown| == |entries|
  {
    seq(|entries|, i requires 0 <= i < |entries| reads entries => entries[i].items)
  }

  /**
    * parse_deviation.py:56-65 for one client: `session_req` is appended to the
    * entries at every long gap and then cleared, and appended once more if it
    * is not empty at the end, so every entry is the same list.
    */
  method ClientGapDiffs(reqTime: seq<int>) returns (entries: seq<DiffList>)
    ensures Contents(entries) == ClientEntries(reqTime)
    ensures forall i :: 0 <= i < |entries| ==> entries[i] == entries[0]
  {
    var sessionReq := new DiffList();
    entries := [];
    ghost var gaps := Gaps(reqTime);
    var i := 0;
    while i < |reqTime| - 1
      invariant i <= |gaps|
      invariant |entries| == SplitRun(gaps[..i]).0 && sessionReq.items == SplitRun(gaps[..i]).1
      invariant forall k :: 0 <= k < |entries| ==> entries[k] == sessionReq
    {
      var diff := reqTime[i + 1] - reqTime[i];
      assert gaps[..i + 1][..i] == gaps[..i] && gaps[i] == diff;
      if diff < GapThreshold {
        sessionReq.Append(diff);
      } else {
        entries := entries + [sessionReq];
        sessionReq.Clear();
      }
      i := i + 1;
    }
    assert gaps[..i] == gaps;
    if |sessionReq.items| > 0 {
      entries := entries + [sessionReq];
    }
  }

  /** Dictionaries built client by client from the grouped timestamps are the dumps. */
  lemma DumpsMatch(events: seq<Request>, limit: int, order: seq<string>, reqs: map<string, seq<int>>, diffOrder: seq<string>, d: Dumps)
    requires Grouped(order, reqs, Taken(events, limit))
    requires DiffsOf(d.diff, diffOrder, order, reqs)
    requires d.mean.Keys == d.diff.Keys && forall c :: c in d.mean ==> d.mean[c] == EntryMeans(d.diff[c])
    requires d.deviation.Keys == d.diff.Keys && forall c :: c in d.deviation ==> d.deviation[c] == EntryDeviations(d.diff[c])
    ensures d == DeviationDumps(events, limit)
  {
    var taken := Taken(events, limit);
    DiffMatch(taken, order, reqs, d.diff, diffOrder);
    MeansMatch(d.mean, d.diff);
    DeviationsMatch(d.deviation, d.diff);
  }

  lemma MeansMatch(mean: map<string, seq<Option<real>>>, diff: map<string, seq<seq<int>>>)
    requires mean.Keys == diff.Keys && forall c :: c in mean ==> mean[c] == EntryMeans(diff[c])
    ensures mean == map c | c in diff :: EntryMeans(diff[c])
  {
  }

  lemma DeviationsMatch(deviation: map<string, seq<DevCell>>, diff: map<string, seq<seq<int>>>)
    requires deviation.Keys == diff.Keys && forall c :: c in deviation ==> deviation[c] == EntryDeviations(diff[c])
    ensures deviation == map c | c in diff :: EntryDeviations(diff[c])
  {
  }

  lemma DiffMatch(taken: seq<Request>, order: seq<string>, reqs: map<string, seq<int>>, diff: map<string, seq<seq<int>>>, diffOrder: seq<string>)
    requires Grouped(order, reqs, taken)
    requires DiffsOf(diff, diffOrder, order, reqs)
    ensures diff == DiffDump(taken)
  {
    ClientsOfOwners(taken);
    SameMap(diff, DiffDump(taken));
  }

  /** parse_deviation.py:72-73 for one client: the mean of every entry, None for an empty one. */
  method SessionMeans(sessions: seq<seq<int>>) returns (means: seq<Option<real>>)
    ensures means == EntryMeans(sessions)
  {
    means := [];
    for i := 0 to |sessions|
      invariant means == EntryMeans(sessions[..i])
    {
      var session := sessions[i];
      assert sessions[..i + 1] == sessions[..i] + [session];
      means := means + [if |session| > 0 then Some(Sum(session) as real / |session| as real) else None];
    }
    assert sessions[..|sessions|] == sessions;
  }

  /**
    * parse_deviation.py:81-85 for one client: the squared deviations of every
    * entry from its stored mean (an empty entry has no element to subtract
    * the None mean from).
    */
  method SessionSquares(sessions: seq<seq<int>>, means: seq<Option<real>>) returns (cells: seq<DevCell>)
    requires means == EntryMeans(sessions)
    ensures cells == EntrySquares(sessions)
  {
    cells := [];
    for n := 0 to |sessions|
      invariant cells == EntrySquares(sessions[..n])
    {
      var session := sessions[n];
      var sessionDeviation: seq<real> := [];
      for k := 0 to |session|
        invariant session != [] ==> sessionDeviation == SquaredDeviations(session, means[n].value)[..k]
        invariant session == [] ==> sessionDeviation == []
      {
        var x := session[k] as real - means[n].value;
        ghost var all := SquaredDeviations(session, means[n].value);
        assert all[k] == x * x;
        assert all[..k + 1] == all[..k] + [x * x];
        sessionDeviation := sessionDeviation + [x * x];
      }
      if session != [] {
        assert SquaredDeviations(session, means[n].value)[..|session|] == SquaredDeviations(session, means[n].value);
      }
      assert sessions[..n + 1] == sessions[..n] + [session];
      cells := cells + [Squares(sessionDeviation)];
    }
    assert sessions[..|sessions|] == sessions;
  }

  /** `clients_diff` and its key order once the clients of `done` have been handled. */
  ghost predicate DiffsOf(clientsDiff: map<string, seq<seq<int>>>, diffOrder: seq<string>, done: seq<string>, reqs: map<string, seq<int>>)
  {
    Lists(diffOrder, clientsDiff.Keys) &&
    (forall c :: c in clientsDiff <==> c in done && c in reqs && ClientEntries(reqs[c]) != []) &&
    (forall c :: c in clientsDiff ==> clientsDiff[c] == ClientEntries(reqs[c]))
  }

  lemma DiffsOfAdd(clientsDiff: map<string, seq<seq<int>>>, diffOrder: seq<string>, done: seq<string>, reqs: map<string, seq<int>>, c: string)
    requires DiffsOf(clientsDiff, diffOrder, done, reqs)
    requires c !in done && c in reqs && ClientEntries(reqs[c]) != []
    ensures DiffsOf(clientsDiff[c := ClientEntries(reqs[c])], diffOrder + [c], done + [c], reqs)
  {
  }

  lemma DiffsOfSkip(clientsDiff: map<string, seq<seq<int>>>, diffOrder: seq<string>, done: seq<string>, reqs: map<string, seq<int>>, c: string)
    requires DiffsOf(clientsDiff, diffOrder, done, reqs)
    requires c in reqs && ClientEntries(reqs[c]) == []
    ensures DiffsOf(clientsDiff, diffOrder, done + [c], reqs)
  {
  }

  /** The key at position `j` of a key order extends the prefix before it and is not in it. */
  lemma NextKey(order: seq<string>, keys: set<string>, j: nat)
    requires Lists(order, keys) && j < |order|
    ensures order[..j + 1] == order[..j] + [order[j]] && order[j] !in order[..j]
  {
  }

  /** parse_deviation.py:54-65: the Diff entries of every client, in the order of `clients_reqs`. */
  method DiffLoop(order: seq<string>, reqs: map<string, seq<int>>)
    returns (clientsDiff: map<string, seq<seq<int>>>, diffOrder: seq<string>)
    requires Lists(order, reqs.Keys)
    ensures DiffsOf(clientsDiff, diffOrder, order, reqs)
  {
    clientsDiff, diffOrder := map[], [];
    for j := 0 to |order|
      invariant DiffsOf(clientsDiff, diffOrder, order[..j], reqs)
    {
      var client := order[j];
      var entries := ClientGapDiffs(reqs[client]);
      NextKey(order, reqs.Keys, j);
      if entries != [] {
        DiffsOfAdd(clientsDiff, diffOrder, order[..j], reqs, client);
        clientsDiff := clientsDiff[client := Contents(entries)];
        diffOrder := diffOrder + [client];
      } else {
        DiffsOfSkip(clientsDiff, diffOrder, order[..j], reqs, client);
      }
    }
    assert order[..|order|] == order;
  }

  /** parse_deviation.py:70-73: the Mean entries of every client with Diff entries. */
  method MeanLoop(clientsDiff: map<string, seq<seq<int>>>, diffOrder: seq<string>)
    returns (clientsMean: map<string, seq<Option<real>>>)
    requires Lists(diffOrder, clientsDiff.Keys)
    ensures clientsMean.Keys == clientsDiff.Keys
    ensures forall c :: c in clientsMean ==> clientsMean[c] == EntryMeans(clientsDiff[c])
  {
    clientsMean := map[];
    for j := 0 to |diffOrder|
      invariant forall c :: c in clientsMean <==> c in diffOrder[..j]
      invariant forall c :: c in clientsMean ==> clientsMean[c] == EntryMeans(clientsDiff[c])
    {
      var client := diffOrder[j];
      assert diffOrder[..j + 1] == diffOrder[..j] + [client];
      var means := SessionMeans(clientsDiff[client]);
      clientsMean := clientsMean[client := means];
    }
    assert diffOrder[..|diffOrder|] == diffOrder;
  }

  /** parse_deviation.py:79-85: the squared deviations of every entry of every client. */
  method SquaresLoop(clientsDiff: map<string, seq<seq<int>>>, diffOrder: seq<string>, clientsMean: map<string, seq<Option<real>>>)
    returns (clientsDeviation: map<string, seq<DevCell>>)
    requires Lists(diffOrder, clientsDiff.Keys)
    requires clientsMean.Keys == clientsDiff.Keys
    requires forall c :: c in clientsMean ==> clientsMean[c] == EntryMeans(clientsDiff[c])
    ensures clientsDeviation.Keys == clientsDiff.Keys
    ensures forall c :: c in clientsDeviation ==> clientsDeviation[c] == EntrySquares(clientsDiff[c])
  {
    clientsDeviation := map[];
    for j := 0 to |diffOrder|
      invariant forall c :: c in clientsDeviation <==> c in diffOrder[..j]
      invariant forall c :: c in clientsDeviation ==> clientsDeviation[c] == EntrySquares(clientsDiff[c])
    {
      var client := diffOrder[j];
      assert diffOrder[..j + 1] == diffOrder[..j] + [client];
      var cells := SessionSquares(clientsDiff[client], clientsMean[client]);
      clientsDeviation := clientsDeviation[client := cells];
    }
    assert diffOrder[..|diffOrder|] == diffOrder;
  }

  /** parse_deviation.py:87-90: every list of squares is overwritten in place by its deviation. */
  method FinishLoop(clientsDiff: map<string, seq<seq<int>>>, diffOrder: seq<string>, squares: map<string, seq<DevCell>>)
    returns (clientsDeviation: map<string, seq<DevCell>>)
    requires Lists(diffOrder, clientsDiff.Keys)
    requires squares.Keys == clientsDiff.Keys
    requires forall c :: c in squares ==> squares[c] == EntrySquares(clientsDiff[c])
    ensures clientsDeviation.Keys == clientsDiff.Keys
    ensures forall c :: c in clientsDeviation ==> clientsDeviation[c] == EntryDeviations(clientsDiff[c])
  {
    hide EntrySquares, EntryDeviations;
    clientsDeviation := squares;
    for j := 0 to |diffOrder|
      invariant clientsDeviation.Keys == clientsDiff.Keys
      invariant forall k :: 0 <= k < j ==> clientsDeviation[diffOrder[k]] == EntryDeviations(clientsDiff[diffOrder[k]])
      invariant forall k :: j <= k < |diffOrder| ==> clientsDeviation[diffOrder[k]] == EntrySquares(clientsDiff[diffOrder[k]])
    {
      var client := diffOrder[j];
      var finished := FinishCells(clientsDeviation[client]);
      FinishedSquares(clientsDiff[client], finished);
      clientsDeviation := clientsDeviation[client := finished];
    }
    forall c | c in clientsDeviation ensures clientsDeviation[c] == EntryDeviations(clientsDiff[c]) {
      var k :| 0 <= k < |diffOrder| && diffOrder[k] == c;
    }
  }

  /** Finishing every list of squares of a client gives its deviations. */
  lemma FinishedSquares(entries: seq<seq<int>>, finished: seq<DevCell>)
    requires |finished| == |EntrySquares(entries)|
    requires forall i :: 0 <= i < |finished| ==> finished[i] == Finish(EntrySquares(entries)[i])
    ensures finished == EntryDeviations(entries)
  {
  }

  /**
    * parse_deviation.py:10-95 with the JSON files left out: group the lines
    * read, fill the Diff, Mean and Deviation dictionaries client by client,
    * then overwrite every list of squares with its deviation. The Diff lists
    * are not changed after the loop that fills them, so what each entry shows
    * there is what is written out.
    */
  method ParseGapDeviation(events: seq<Request>, limit: int) returns (d: Dumps)
    ensures d == DeviationDumps(events, limit)
  {
    var order, reqs := GroupLines(events, limit);

    var clientsDiff, diffOrder := DiffLoop(order, reqs);
    var clientsMean := MeanLoop(clientsDiff, diffOrder);
    var clientsDeviation := SquaresLoop(clientsDiff, diffOrder, clientsMean);
    clientsDeviation := FinishLoop(clientsDiff, diffOrder, clientsDeviation);
    d := Dumps(clientsDiff, clientsMean, clientsDeviation);
    DumpsMatch(events, limit, order, reqs, diffOrder, d);
  }
}

/**
  * The whole of parse_log.py's `parse_deviation`: read at most the allowed
  * number of lines, split every client's requests into sessions, compute the
  * RPI series, the diffs, their mean and deviation per session, build one table
  * per dictionary and join the four tables on (IP, UA, Session). Writing the
  * CSV file is left out: the joined rows are the result.
  */
module ParseLog {
  import opened Common
  import opened Segmentation
  import opened RequestRate
  import opened Moments
  import opened TimingStats
  import opened LineFields
  import opened SessionTable

  /** One row of requests.csv. */
  datatype SessionRow = SessionRow(
    ip: string, ua: string, session: nat,
    rpi: seq<real>, diff: Option<seq<int>>, mean: Option<real>, deviation: DevCell)

  /** What segmentation guarantees about its result. */
  ghost predicate Complete(st: SegState)
  {
    Lists(st.order, st.sessions.Keys) &&
    forall c :: c in st.sessions ==> Segmented(st.sessions[c]) && ':' in c
  }

  /** `st` is complete and holds, for every client, the sessions of its own timestamps in `events`. */
  ghost predicate Built(st: SegState, events: seq<Request>)
  {
    Complete(st) && forall c {:trigger st.sessions[c]} :: c in st.sessions ==> st.sessions[c] == Sessions(Timestamps(events, c))
  }

  lemma SegmentBuilt(events: seq<Request>)
    ensures Built(Segment(events), events)
  {
    SegmentComplete(events);
    SegmentSessions(events);
  }

  lemma SegmentComplete(events: seq<Request>)
    ensures Complete(Segment(events))
    ensures Segment(events).order == [] <==> events == []
  {
    var st := Segment(events);
    SegmentSessions(events);
    forall c | c in st.sessions ensures Segmented(st.sessions[c]) && ':' in c {
      SessionsPartition(Timestamps(events, c));
      TimestampsOwner(events, c);
      var r :| r in events && ClientOf(r) == c;
      assert c[|r.ip|] == ':';
    }
    if events != [] {
      var last := events[|events| - 1];
      TimestampsOwner(events, ClientOf(last));
      assert ClientOf(last) in st.sessions;
      assert ClientOf(last) in st.order;
    }
  }

  // ---------------------------------------------------------------------------
  // The four dictionaries, as items in insertion order (the clients of `order`)
  // ---------------------------------------------------------------------------

  function RpiItems(st: SegState, interval: int): seq<(string, seq<seq<real>>)>
    requires Complete(st) && interval != 0
  {
    seq(|st.order|, j requires 0 <= j < |st.order| =>
      (st.order[j], ClientRates(st.sessions[st.order[j]], interval)))
  }

  function DiffItems(st: SegState): seq<(string, seq<Option<seq<int>>>)>
    requires Complete(st)
  {
    seq(|st.order|, j requires 0 <= j < |st.order| => (st.order[j], DiffEntries(st.sessions[st.order[j]])))
  }

  /** The Mean entries of one client, one per Diff entry. */
  function MeansOf(diffs: seq<Option<seq<int>>>): seq<Option<real>>
  {
    seq(|diffs|, i requires 0 <= i < |diffs| => MeanCell(diffs[i]))
  }

  /** The Deviation entries of one client, one per Diff entry. */
  function DeviationsOf(diffs: seq<Option<seq<int>>>): seq<DevCell>
  {
    seq(|diffs|, i requires 0 <= i < |diffs| => DeviationCell(diffs[i]))
  }

  function MeanColumn(items: seq<(string, seq<Option<seq<int>>>)>): seq<(string, seq<Option<real>>)>
  {
    seq(|items|, j requires 0 <= j < |items| => (items[j].0, MeansOf(items[j].1)))
  }

  function DeviationColumn(items: seq<(string, seq<Option<seq<int>>>)>): seq<(string, seq<DevCell>)>
  {
    seq(|items|, j requires 0 <= j < |items| => (items[j].0, DeviationsOf(items[j].1)))
  }

  /** A row of the joined table, with its nested value columns. */
  type Joined = FrameRow<(((seq<real>, Option<seq<int>>), Option<real>), DevCell)>

  function Rows(df: seq<Joined>): seq<SessionRow>
  {
    seq(|df|, p requires 0 <= p < |df| =>
      SessionRow(df[p].ip, df[p].ua, df[p].session,
        df[p].value.0.0.0, df[p].value.0.0.1, df[p].value.0.1, df[p].value.1))
  }

  /**
    * The result of the script: frames built from empty dictionaries have no
    * columns and cannot be joined (KeyError); a zero interval fails at the first
    * division; otherwise the three joins of parse_log.py:140-142.
    */
  function Report(events: seq<Request>, interval: int, limit: int): Result<seq<SessionRow>>
  {
    var st := Segment(Taken(events, limit));
    SegmentComplete(Taken(events, limit));
    if st.order == [] then Err(KeyError)
    else if interval == 0 then Err(ZeroDivisionError)
    else Ok(JoinedRows(st, interval))
  }

  /** parse_log.py:135-142: a table per dictionary, the four joined on (IP, UA, Session). */
  function Table(
    rp: seq<(string, seq<seq<real>>)>, df: seq<(string, seq<Option<seq<int>>>)>,
    mc: seq<(string, seq<Option<real>>)>, dc: seq<(string, seq<DevCell>)>): seq<SessionRow>
  {
    Rows(Merge(Merge(Merge(FrameOf(rp), FrameOf(df)), FrameOf(mc)), FrameOf(dc)))
  }

  /** The joined table of the four dictionaries built from `st`. */
  function JoinedRows(st: SegState, interval: int): seq<SessionRow>
    requires Complete(st) && interval != 0
  {
    var diffs := DiffItems(st);
    Table(RpiItems(st, interval), diffs, MeanColumn(diffs), DeviationColumn(diffs))
  }

  // ---------------------------------------------------------------------------
  // The script, stage by stage
  // ---------------------------------------------------------------------------

  /** parse_log.py:29-58: the limited line loop and the final flush. */
  method SegmentLines(events: seq<Request>, limit: int) returns (st: SegState)
    ensures st == Segment(Taken(events, limit))
  {
    var seg := new Segmenter();
    var k := 0;
    var i := 0;
    while k < |events|
      invariant k <= LinesConsidered(|events|, limit) && i == k
      invariant seg.State() == SegFold(events[..k])
      invariant seg.Valid()
    {
      i := i + 1;
      if limit != 0 && i >= limit {
        break;
      }
      var e := events[k];
      assert events[..k + 1][..k] == events[..k];
      seg.Step(ClientOf(e), e.ts);
      k := k + 1;
    }
    assert events[..k] == Taken(events, limit);
    SegFoldMirrors(events[..k]);
    seg.Flush();
    st := seg.State();
  }

  /** parse_log.py:61-77: the RPI series of every client, or the division by a zero interval. */
  method RpiStage(st: SegState, interval: int) returns (r: Result<seq<(string, seq<seq<real>>)>>)
    requires Complete(st)
    ensures interval != 0 ==> r == Ok(RpiItems(st, interval))
    ensures interval == 0 ==> r == if st.order == [] then Ok([]) else Err(ZeroDivisionError)
  {
    var clientRpi: seq<(string, seq<seq<real>>)> := [];
    for j := 0 to |st.order|
      invariant interval == 0 ==> j == 0 && clientRpi == []
      invariant interval != 0 ==> clientRpi == RpiItems(st, interval)[..j]
    {
      var client := st.order[j];
      if interval == 0 {
        r := Err(ZeroDivisionError);
        return;
      }
      var requestSpeed := ClientRpi(st.sessions[client], interval);
      clientRpi := clientRpi + [(client, requestSpeed)];
    }
    if interval != 0 {
      assert RpiItems(st, interval)[..|st.order|] == RpiItems(st, interval);
    }
    r := Ok(clientRpi);
  }

  /**
    * parse_log.py:80-95: the Diff entries of every client. The lists are not
    * changed after this stage, so what the later stages and the CSV read is
    * what each entry shows here.
    */
  method DiffStage(st: SegState) returns (clientsDiff: seq<(string, seq<Option<seq<int>>>)>)
    requires Complete(st)
    ensures clientsDiff == DiffItems(st)
  {
    clientsDiff := [];
    for j := 0 to |st.order|
      invariant clientsDiff == DiffItems(st)[..j]
    {
      var client := st.order[j];
      var entries := ClientDiffs(st.sessions[client]);
      clientsDiff := clientsDiff + [(client, Shown(entries))];
    }
  }

  /** Every present Diff entry is a non-empty list. */
  ghost predicate NoEmptyDiff(items: seq<(string, seq<Option<seq<int>>>)>)
  {
    forall j, i :: 0 <= j < |items| && 0 <= i < |items[j].1| && items[j].1[i].Some? ==> items[j].1[i].value != []
  }

  /** parse_log.py:98-104. */
  method MeanStage(clientsDiff: seq<(string, seq<Option<seq<int>>>)>) returns (clientsMean: seq<(string, seq<Option<real>>)>)
    requires NoEmptyDiff(clientsDiff)
    ensures clientsMean == MeanColumn(clientsDiff)
  {
    clientsMean := [];
    for j := 0 to |clientsDiff|
      invariant clientsMean == MeanColumn(clientsDiff)[..j]
    {
      var (client, sessions) := clientsDiff[j];
      var means := ClientMeans(sessions);
      assert means == MeanColumn(clientsDiff)[j].1;
      clientsMean := clientsMean + [(client, means)];
    }
  }

  /** A client's deviation list on which the second pass leaves the expected deviations. */
  ghost predicate Pending(cells: seq<DevCell>, diffs: seq<Option<seq<int>>>)
  {
    |cells| == |diffs| && forall i :: 0 <= i < |diffs| ==> Finish(cells[i]) == DeviationCell(diffs[i])
  }

  lemma SquaresPending(cells: seq<DevCell>, diffs: seq<Option<seq<int>>>, means: seq<Option<real>>)
    requires |means| == |diffs| && |cells| == |diffs|
    requires forall i :: 0 <= i < |diffs| ==> means[i] == MeanCell(diffs[i])
    requires forall i :: 0 <= i < |diffs| && diffs[i].None? ==> cells[i] == NoneCell
    requires forall i :: 0 <= i < |diffs| && diffs[i].Some? ==>
      diffs[i].value != [] && means[i].Some? && cells[i] == SquaresOf(diffs[i].value, means[i])
    ensures Pending(cells, diffs)
  {
  }

  lemma PendingFinished(cells: seq<DevCell>, finished: seq<DevCell>, diffs: seq<Option<seq<int>>>)
    requires Pending(cells, diffs)
    requires |finished| == |cells| && forall i :: 0 <= i < |cells| ==> finished[i] == Finish(cells[i])
    ensures finished == DeviationsOf(diffs)
  {
  }

  /**
    * parse_log.py:107-132: first every entry's list of squared deviations,
    * then, client by client, every list overwritten in place by its deviation.
    */
  method DeviationStage(clientsDiff: seq<(string, seq<Option<seq<int>>>)>, clientsMean: seq<(string, seq<Option<real>>)>)
    returns (clientsDeviation: seq<(string, seq<DevCell>)>)
    requires NoEmptyDiff(clientsDiff) && clientsMean == MeanColumn(clientsDiff)
    ensures clientsDeviation == DeviationColumn(clientsDiff)
  {
    clientsDeviation := [];
    for j := 0 to |clientsDiff|
      invariant |clientsDeviation| == j
      invariant forall k :: 0 <= k < j ==>
        (clientsDeviation[k].0 == clientsDiff[k].0 && Pending(clientsDeviation[k].1, clientsDiff[k].1))
    {
      var (client, sessionsDiffs) := clientsDiff[j];
      var cells := ClientSquares(sessionsDiffs, clientsMean[j].1);
      SquaresPending(cells, sessionsDiffs, clientsMean[j].1);
      clientsDeviation := clientsDeviation + [(client, cells)];
    }
    for j := 0 to |clientsDeviation|
      invariant |clientsDeviation| == |clientsDiff|
      invariant forall k :: 0 <= k < j ==> clientsDeviation[k] == DeviationColumn(clientsDiff)[k]
      invariant forall k :: j <= k < |clientsDiff| ==>
        (clientsDeviation[k].0 == clientsDiff[k].0 && Pending(clientsDeviation[k].1, clientsDiff[k].1))
    {
      var finished := FinishCells(clientsDeviation[j].1);
      PendingFinished(clientsDeviation[j].1, finished, clientsDiff[j].1);
      clientsDeviation := clientsDeviation[j := (clientsDeviation[j].0, finished)];
    }
  }

  /** parse_log.py:12-142 with the CSV write left out. */
  method ParseDeviation(events: seq<Request>, interval: int, limit: int) returns (r: Result<seq<SessionRow>>)
    ensures r == Report(events, interval, limit)
  {
    var st := SegmentLines(events, limit);
    SegmentComplete(Taken(events, limit));
    var clientRpi := RpiStage(st, interval);
    if clientRpi.Err? {
      return Err(clientRpi.error);
    }
    var clientsDiff := DiffStage(st);
    DiffItemsNonEmpty(st);
    var clientsMean := MeanStage(clientsDiff);
    var clientsDeviation := DeviationStage(clientsDiff, clientsMean);

    var dfRpi := DictToFrame(clientRpi.value);
    var dfDiff := DictToFrame(clientsDiff);
    var dfMean := DictToFrame(clientsMean);
    var dfDeviation := DictToFrame(clientsDeviation);
    if clientRpi.value == [] {
      return Err(KeyError);
    }
    var df := Merge(Merge(Merge(dfRpi, dfDiff), dfMean), dfDeviation);
    r := Ok(Rows(df));
  }

  lemma DiffItemsNonEmpty(st: SegState)
    requires Complete(st)
    ensures NoEmptyDiff(DiffItems(st))
  {
    forall j | 0 <= j < |st.order| {
      DiffEntriesFacts(st.sessions[st.order[j]]);
    }
  }

  // ---------------------------------------------------------------------------
  // What requests.csv holds
  // ---------------------------------------------------------------------------

  /** The number of sessions the given clients have in `events`. */
  function SessionCount(events: seq<Request>, clients: seq<string>): nat
  {
    if clients == [] then 0
    else SessionCount(events, clients[..|clients| - 1]) + |Sessions(Timestamps(events, clients[|clients| - 1]))|
  }

  /**
    * The row of session `i` (counted from 0) of client `c`: the key split at
    * the first `:`, the session number from 1, the session's RPI series, and
    * the client's Diff, Mean and Deviation entries for that session.
    */
  function SessionRowOf(events: seq<Request>, c: string, i: nat, interval: int): SessionRow
    requires interval != 0 && i < |Sessions(Timestamps(events, c))|
  {
    SessionNonEmpty(Timestamps(events, c), i);
    RowOf(Sessions(Timestamps(events, c)), c, i, interval)
  }

  lemma SessionNonEmpty(ts: seq<int>, i: nat)
    requires i < |Sessions(ts)|
    ensures |Sessions(ts)[i]| > 0
  {
    SessionsPartition(ts);
  }

  /** The row of session `i` of client `c` whose sessions are `ss`. */
  function RowOf(ss: seq<seq<int>>, c: string, i: nat, interval: int): SessionRow
    requires interval != 0 && i < |ss| && |ss[i]| > 0
  {
    var d := DiffEntries(ss)[i];
    SessionRow(SplitKey(c).0, SplitKey(c).1, i + 1, SessionRates(ss[i], interval), d, MeanCell(d), DeviationCell(d))
  }

  /**
    * No request read: the frames have no columns and the join fails with
    * KeyError. Requests read and a zero interval: the RPI loop divides by
    * zero. No other input fails. Reading stops before the first line when
    * `limit` is 1 or negative.
    */
  lemma ReportErrors(events: seq<Request>, interval: int, limit: int)
    ensures Taken(events, limit) == [] <==> events == [] || (limit != 0 && limit <= 1)
    ensures Report(events, interval, limit).Err? <==> Taken(events, limit) == [] || interval == 0
    ensures Taken(events, limit) == [] ==> Report(events, interval, limit) == Err(KeyError)
    ensures Taken(events, limit) != [] && interval == 0 ==> Report(events, interval, limit) == Err(ZeroDivisionError)
  {
    SegmentComplete(Taken(events, limit));
  }

  /**
    * The row of session `i` of the `j`-th client of `order` follows the rows of
    * the clients before it and is SessionRowOf.
    */
  ghost predicate RowAt(events: seq<Request>, order: seq<string>, rows: seq<SessionRow>, interval: int, j: nat, i: nat)
    requires interval != 0 && j < |order| && i < |Sessions(Timestamps(events, order[j]))|
  {
    SessionCount(events, order[..j]) + i < |rows| &&
    rows[SessionCount(events, order[..j]) + i] == SessionRowOf(events, order[j], i, interval)
  }

  /**
    * `rows` holds one row per session of the clients of `order`, client after
    * client and session after session.
    */
  ghost predicate RowsOfSessions(events: seq<Request>, order: seq<string>, rows: seq<SessionRow>, interval: int)
    requires interval != 0
  {
    |rows| == SessionCount(events, order) &&
    forall j: nat, i: nat | j < |order| && i < |Sessions(Timestamps(events, order[j]))| ::
      RowAt(events, order, rows, interval, j, i)
  }

  /**
    * When the script succeeds, its table holds the rows of the sessions of the
    * clients of `clients_reqs`, in that dictionary's order; `clients_reqs`
    * lists exactly the clients that sent a request read, each once, with the
    * sessions of its own timestamps.
    */
  lemma ReportTable(events: seq<Request>, interval: int, limit: int)
    requires Report(events, interval, limit).Ok?
    ensures interval != 0
    ensures RowsOfSessions(Taken(events, limit), Segment(Taken(events, limit)).order, Report(events, interval, limit).value, interval)
  {
    ReportJoined(events, interval, limit);
    SegmentedTable(Taken(events, limit), interval);
  }

  /** JoinedTable for the segmentation of `events`. */
  lemma SegmentedTable(events: seq<Request>, interval: int)
    requires interval != 0
    ensures Complete(Segment(events))
    ensures RowsOfSessions(events, Segment(events).order, JoinedRows(Segment(events), interval), interval)
  {
    SegmentBuilt(events);
    JoinedTable(Segment(events), events, interval);
  }

  /** RowCount and JoinedRow together. */
  lemma JoinedTable(st: SegState, events: seq<Request>, interval: int)
    requires Built(st, events) && interval != 0
    ensures RowsOfSessions(events, st.order, JoinedRows(st, interval), interval)
  {
    RowCount(st, events, interval);
    forall j: nat, i: nat | j < |st.order| && i < |Sessions(Timestamps(events, st.order[j]))|
      ensures RowAt(events, st.order, JoinedRows(st, interval), interval, j, i)
    {
      JoinedRow(st, events, interval, j, i);
    }
  }

  /** TableRow with the offset counted in sessions. */
  lemma JoinedRow(st: SegState, events: seq<Request>, interval: int, j: nat, i: nat)
    requires Built(st, events) && interval != 0 && j < |st.order|
    requires i < |Sessions(Timestamps(events, st.order[j]))|
    ensures RowAt(events, st.order, JoinedRows(st, interval), interval, j, i)
  {
    hide JoinedRows, EntryCount, DiffItems, SessionCount, SessionRowOf, Sessions, Timestamps, Built;
    TableRow(st, events, interval, j, i);
    OffsetCount(st, events, j);
  }

  /** The joined table has a row per session. */
  lemma RowCount(st: SegState, events: seq<Request>, interval: int)
    requires Built(st, events) && interval != 0
    ensures |JoinedRows(st, interval)| == SessionCount(events, st.order)
  {
    assert |JoinedRows(st, interval)| == EntryCount(DiffItems(st)) by { StRowCount(st, interval); }
    AllRowsCount(st, events);
  }

  /** The joined table has a row per entry of the Diff table. */
  lemma StRowCount(st: SegState, interval: int)
    requires Complete(st) && interval != 0
    ensures |JoinedRows(st, interval)| == EntryCount(DiffItems(st))
  {
    var df := DiffItems(st);
    StJoinable(st, interval);
    TableZip(RpiItems(st, interval), df, MeanColumn(df), DeviationColumn(df));
    FrameLength(df);
  }

  /** Row `i` of the `j`-th client follows the rows of the clients before it and is SessionRowOf. */
  lemma TableRow(st: SegState, events: seq<Request>, interval: int, j: nat, i: nat)
    requires Built(st, events) && interval != 0 && j < |st.order|
    requires i < |Sessions(Timestamps(events, st.order[j]))|
    ensures var rows := JoinedRows(st, interval);
      var p := EntryCount(DiffItems(st)[..j]);
      p + i < |rows| && rows[p + i] == SessionRowOf(events, st.order[j], i, interval)
  {
    var c := st.order[j];
    assert c in st.sessions && st.sessions[c] == Sessions(Timestamps(events, c));
    StTableRow(st, interval, j, i);
  }

  /**
    * Row `i` of the `j`-th client follows the rows of the clients before it and
    * is RowOf of that client's sessions.
    */
  lemma StTableRow(st: SegState, interval: int, j: nat, i: nat)
    requires Complete(st) && interval != 0 && j < |st.order| && i < |st.sessions[st.order[j]]|
    ensures var rows := JoinedRows(st, interval);
      var p := EntryCount(DiffItems(st)[..j]);
      p + i < |rows| && rows[p + i] == RowOf(st.sessions[st.order[j]], st.order[j], i, interval)
  {
    var df := DiffItems(st);
    var rp := RpiItems(st, interval);
    StJoinable(st, interval);
    ItemsAt(st, interval, j, i);
    ZipTableAt(rp, df, MeanColumn(df), DeviationColumn(df), j, i);
    TableZip(rp, df, MeanColumn(df), DeviationColumn(df));
  }

  /** With a request read and a non-zero interval, the result is the joined table. */
  lemma ReportJoined(events: seq<Request>, interval: int, limit: int)
    requires interval != 0 && Segment(Taken(events, limit)).order != []
    ensures Complete(Segment(Taken(events, limit)))
    ensures Report(events, interval, limit) == Ok(JoinedRows(Segment(Taken(events, limit)), interval))
  {
    SegmentComplete(Taken(events, limit));
  }

  lemma AllRowsCount(st: SegState, events: seq<Request>)
    requires Built(st, events)
    ensures EntryCount(DiffItems(st)) == SessionCount(events, st.order)
  {
    var df := DiffItems(st);
    assert df[..|st.order|] == df && st.order[..|st.order|] == st.order;
    OffsetCount(st, events, |st.order|);
  }

  /** The number of rows before the `j`-th client is the number of sessions of the clients before it. */
  lemma OffsetCount(st: SegState, events: seq<Request>, j: nat)
    requires Built(st, events) && j <= |st.order|
    ensures EntryCount(DiffItems(st)[..j]) == SessionCount(events, st.order[..j])
  {
    var df := DiffItems(st)[..j];
    var clients := st.order[..j];
    forall k | 0 <= k < j ensures |df[k].1| == |Sessions(Timestamps(events, clients[k]))| {
      assert clients[k] == st.order[k] && st.order[k] in st.sessions;
    }
    FrameSize(df, events, clients);
  }

  /** A table has a row for every session when each client's list has an entry per session. */
  lemma {:induction false} FrameSize<V>(items: seq<(string, seq<V>)>, events: seq<Request>, clients: seq<string>)
    requires |items| == |clients|
    requires forall k :: 0 <= k < |items| ==> |items[k].1| == |Sessions(Timestamps(events, clients[k]))|
    ensures EntryCount(items) == SessionCount(events, clients)
  {
    if items != [] {
      var n := |items|;
      FrameSize(items[..n - 1], events, clients[..n - 1]);
    }
  }

  /** The entries of session `i` of the `j`-th client in the four dictionaries make up RowOf. */
  lemma ItemsAt(st: SegState, interval: int, j: nat, i: nat)
    requires Complete(st) && interval != 0 && j < |st.order| && i < |st.sessions[st.order[j]]|
    ensures var rp := RpiItems(st, interval);
      var df := DiffItems(st);
      i < |rp[j].1| && i < |df[j].1| && i < |MeanColumn(df)[j].1| && i < |DeviationColumn(df)[j].1| &&
      SessionRow(SplitKey(df[j].0).0, SplitKey(df[j].0).1, i + 1,
        rp[j].1[i], df[j].1[i], MeanColumn(df)[j].1[i], DeviationColumn(df)[j].1[i]) ==
      RowOf(st.sessions[st.order[j]], st.order[j], i, interval)
  {
    var c := st.order[j];
    var ss := st.sessions[c];
    assert DiffItems(st)[j] == (c, DiffEntries(ss));
    assert RpiItems(st, interval)[j] == (c, ClientRates(ss, interval));
  }

  /** The four dictionaries built from `st` can be joined. */
  lemma StJoinable(st: SegState, interval: int)
    requires Complete(st) && interval != 0
    ensures var df := DiffItems(st);
      Joinable(RpiItems(st, interval), df, MeanColumn(df), DeviationColumn(df))
  {
    var df := DiffItems(st);
    forall j, k | 0 <= j < k < |df| ensures df[j].0 != df[k].0 {
      assert df[j].0 == st.order[j] && df[k].0 == st.order[k];
    }
    forall j | 0 <= j < |df| ensures ':' in df[j].0 {
      assert st.order[j] in st.order;
    }
  }

  // ---------------------------------------------------------------------------
  // Joining four tables with the same keys
  // ---------------------------------------------------------------------------

  /** The four dictionaries list the same distinct clients, each containing `:`, with lists of the same lengths. */
  ghost predicate Joinable(
    rp: seq<(string, seq<seq<real>>)>, df: seq<(string, seq<Option<seq<int>>>)>,
    mc: seq<(string, seq<Option<real>>)>, dc: seq<(string, seq<DevCell>)>)
  {
    Shape(rp) == Shape(df) && Shape(mc) == Shape(df) && Shape(dc) == Shape(df) &&
    (forall j, k :: 0 <= j < k < |df| ==> df[j].0 != df[k].0) &&
    (forall j :: 0 <= j < |df| ==> ':' in df[j].0)
  }

  /** The four tables paired row by row. */
  ghost function ZipTable(
    rp: seq<(string, seq<seq<real>>)>, df: seq<(string, seq<Option<seq<int>>>)>,
    mc: seq<(string, seq<Option<real>>)>, dc: seq<(string, seq<DevCell>)>): seq<SessionRow>
    requires Joinable(rp, df, mc, dc)
  {
    FrameLengths(rp, df, mc, dc);
    seq(|FrameOf(df)|, k requires 0 <= k < |FrameOf(df)| =>
      PairedRow(FrameOf(rp)[k], FrameOf(df)[k], FrameOf(mc)[k], FrameOf(dc)[k]))
  }

  /** A row of requests.csv from the rows of the four tables with its key. */
  function PairedRow(r: FrameRow<seq<real>>, d: FrameRow<Option<seq<int>>>, m: FrameRow<Option<real>>, v: FrameRow<DevCell>): SessionRow
  {
    SessionRow(r.ip, r.ua, r.session, r.value, d.value, m.value, v.value)
  }

  /** Tables built from dictionaries that can be joined have the same number of rows. */
  lemma FrameLengths(
    rp: seq<(string, seq<seq<real>>)>, df: seq<(string, seq<Option<seq<int>>>)>,
    mc: seq<(string, seq<Option<real>>)>, dc: seq<(string, seq<DevCell>)>)
    requires Joinable(rp, df, mc, dc)
    ensures |FrameOf(rp)| == |FrameOf(df)| && |FrameOf(mc)| == |FrameOf(df)| && |FrameOf(dc)| == |FrameOf(df)|
  {
    FrameKeysByShape(rp, df);
    FrameKeysByShape(mc, df);
    FrameKeysByShape(dc, df);
  }

  /** The joins keep every row and pair the rows position by position. */
  lemma TableZip(
    rp: seq<(string, seq<seq<real>>)>, df: seq<(string, seq<Option<seq<int>>>)>,
    mc: seq<(string, seq<Option<real>>)>, dc: seq<(string, seq<DevCell>)>)
    requires Joinable(rp, df, mc, dc)
    ensures Table(rp, df, mc, dc) == ZipTable(rp, df, mc, dc)
    ensures |Table(rp, df, mc, dc)| == |FrameOf(df)|
  {
    TableAligned(rp, df, mc, dc);
    RowsZipped(FrameOf(rp), FrameOf(df), FrameOf(mc), FrameOf(dc));
  }

  /**
    * Row `i` of the `j`-th client of the paired tables takes its key from that
    * client and its columns from the `i`-th entries of the four lists.
    */
  lemma ZipTableAt(
    rp: seq<(string, seq<seq<real>>)>, df: seq<(string, seq<Option<seq<int>>>)>,
    mc: seq<(string, seq<Option<real>>)>, dc: seq<(string, seq<DevCell>)>, j: nat, i: nat)
    requires Joinable(rp, df, mc, dc) && j < |df| && i < |df[j].1|
    ensures var t := ZipTable(rp, df, mc, dc);
      var p := EntryCount(df[..j]);
      p + i < |t| && i < |rp[j].1| && i < |mc[j].1| && i < |dc[j].1| &&
      t[p + i] == SessionRow(SplitKey(df[j].0).0, SplitKey(df[j].0).1, i + 1, rp[j].1[i], df[j].1[i], mc[j].1[i], dc[j].1[i])
  {
    hide FrameOf, SplitKey, ZipTable;
    var p := EntryCount(df[..j]);
    assert rp[j].0 == df[j].0 && |rp[j].1| == |mc[j].1| == |dc[j].1| == |df[j].1| by {
      assert Shape(rp)[j] == Shape(df)[j] && Shape(mc)[j] == Shape(df)[j] && Shape(dc)[j] == Shape(df)[j];
    }
    assert p + i < |FrameOf(df)| && FrameOf(df)[p + i].value == df[j].1[i] by {
      ColumnAt(df, j, i, p);
    }
    assert FrameOf(rp)[p + i] == FrameRow(SplitKey(df[j].0).0, SplitKey(df[j].0).1, i + 1, rp[j].1[i]) by {
      PrefixOffsets(rp, df, mc, dc, j);
      ColumnAt(rp, j, i, p);
    }
    assert FrameOf(mc)[p + i].value == mc[j].1[i] by {
      PrefixOffsets(rp, df, mc, dc, j);
      ColumnAt(mc, j, i, p);
    }
    assert FrameOf(dc)[p + i].value == dc[j].1[i] by {
      PrefixOffsets(rp, df, mc, dc, j);
      ColumnAt(dc, j, i, p);
    }
    ZipTableRow(rp, df, mc, dc, p + i);
  }

  /** Row `k` of the paired tables. */
  lemma ZipTableRow(
    rp: seq<(string, seq<seq<real>>)>, df: seq<(string, seq<Option<seq<int>>>)>,
    mc: seq<(string, seq<Option<real>>)>, dc: seq<(string, seq<DevCell>)>, k: nat)
    requires Joinable(rp, df, mc, dc) && k < |FrameOf(df)|
    ensures k < |FrameOf(rp)| && k < |FrameOf(mc)| && k < |FrameOf(dc)| && k < |ZipTable(rp, df, mc, dc)|
    ensures ZipTable(rp, df, mc, dc)[k] == PairedRow(FrameOf(rp)[k], FrameOf(df)[k], FrameOf(mc)[k], FrameOf(dc)[k])
  {
    FrameLengths(rp, df, mc, dc);
  }

  /** The rows of the four tables zipped, row by row. */
  lemma RowsZipped(
    r: seq<FrameRow<seq<real>>>, d: seq<FrameRow<Option<seq<int>>>>,
    m: seq<FrameRow<Option<real>>>, v: seq<FrameRow<DevCell>>)
    requires |r| == |d| == |m| == |v|
    ensures var rows := Rows(Zip(Zip(Zip(r, d), m), v));
      |rows| == |d| &&
      forall k :: 0 <= k < |d| ==>
        rows[k] == PairedRow(r[k], d[k], m[k], v[k])
  {
  }

  /** Row `i` of the `j`-th client of one table, given the number `p` of rows before that client. */
  lemma ColumnAt<V>(items: seq<(string, seq<V>)>, j: nat, i: nat, p: nat)
    requires j < |items| && i < |items[j].1| && p == EntryCount(items[..j])
    ensures p + i < |FrameOf(items)|
    ensures FrameOf(items)[p + i] == FrameRow(SplitKey(items[j].0).0, SplitKey(items[j].0).1, i + 1, items[j].1[i])
  {
    FrameLength(items[..j]);
    FrameOfRows(items, j, i);
  }

  /** The four tables have the same number of rows before the `j`-th client. */
  lemma PrefixOffsets(
    rp: seq<(string, seq<seq<real>>)>, df: seq<(string, seq<Option<seq<int>>>)>,
    mc: seq<(string, seq<Option<real>>)>, dc: seq<(string, seq<DevCell>)>, j: nat)
    requires Joinable(rp, df, mc, dc) && j <= |df|
    ensures var n := EntryCount(df[..j]);
      EntryCount(rp[..j]) == n && EntryCount(mc[..j]) == n && EntryCount(dc[..j]) == n
  {
    FrameLength(rp[..j]);
    FrameLength(df[..j]);
    FrameLength(mc[..j]);
    FrameLength(dc[..j]);
    ShapePrefix(rp, j);
    ShapePrefix(df, j);
    ShapePrefix(mc, j);
    ShapePrefix(dc, j);
    FrameKeysByShape(rp[..j], df[..j]);
    FrameKeysByShape(mc[..j], df[..j]);
    FrameKeysByShape(dc[..j], df[..j]);
  }

  /**
    * The three joins keep every row of the RPI table and pair it with the rows
    * of the same position in the other tables: the tables list the same keys
    * in the same order, none twice.
    */
  lemma TableAligned(
    rp: seq<(string, seq<seq<real>>)>, df: seq<(string, seq<Option<seq<int>>>)>,
    mc: seq<(string, seq<Option<real>>)>, dc: seq<(string, seq<DevCell>)>)
    requires Joinable(rp, df, mc, dc)
    ensures var r := FrameOf(rp);
      var d := FrameOf(df);
      var m := FrameOf(mc);
      var v := FrameOf(dc);
      |r| == |d| == |m| == |v| &&
      Merge(Merge(Merge(r, d), m), v) == Zip(Zip(Zip(r, d), m), v)
  {
    var r := FrameOf(rp);
    var d := FrameOf(df);
    var m := FrameOf(mc);
    var v := FrameOf(dc);
    FrameKeysByShape(rp, df);
    FrameKeysByShape(mc, df);
    FrameKeysByShape(dc, df);
    FrameKeysDistinct(df);
    KeysAlign(d, r);
    KeysAlign(r, d);
    MergeAligned(r, d);
    var z1 := Zip(r, d);
    ZipKeys(r, d);
    KeysAlign(d, m);
    KeysAlign(z1, m);
    MergeAligned(z1, m);
    var z2 := Zip(z1, m);
    ZipKeys(z1, m);
    KeysAlign(d, v);
    KeysAlign(z2, v);
    MergeAligned(z2, v);
  }
}

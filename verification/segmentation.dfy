/**
  * Session segmentation of parse_log.py: every client keeps an open buffer of
  * timestamps, closed into the client's session list when a new timestamp comes
  * at least GapThreshold seconds after the buffer's last one; at the end every
  * non-empty buffer is flushed as a final session.
  */
module Segmentation {
  import opened Common

  // ---------------------------------------------------------------------------
  // One client's view
  // ---------------------------------------------------------------------------

  /** What one client has after some of its timestamps: closed sessions and the open buffer. */
  datatype Buffered = Buffered(closed: seq<seq<int>>, open: seq<int>)

  /** One timestamp of the client arrives. */
  function Push(b: Buffered, t: int): Buffered
  {
    if |b.open| > 0 && t - b.open[|b.open| - 1] >= GapThreshold then Buffered(b.closed + [b.open], [t])
    else Buffered(b.closed, b.open + [t])
  }

  /** The client's state after all of `ts`, in order. */
  function Buffer(ts: seq<int>): Buffered
  {
    if ts == [] then Buffered([], []) else Push(Buffer(ts[..|ts| - 1]), ts[|ts| - 1])
  }

  /** The client's sessions once the open buffer has been flushed. */
  function Sessions(ts: seq<int>): seq<seq<int>>
  {
    var b := Buffer(ts);
    if |b.open| > 0 then b.closed + [b.open] else b.closed
  }

  /** Every consecutive gap inside `s` is below the threshold. */
  ghost predicate Tight(s: seq<int>)
  {
    forall k :: 0 <= k < |s| - 1 ==> s[k + 1] - s[k] < GapThreshold
  }

  /** Every session is non-empty and tight. */
  ghost predicate Segmented(ss: seq<seq<int>>)
  {
    forall i :: 0 <= i < |ss| ==> |ss[i]| > 0 && Tight(ss[i])
  }

  /** Between consecutive sessions the gap is at least the threshold. */
  ghost predicate Separated(ss: seq<seq<int>>)
    requires Segmented(ss)
  {
    forall i :: 0 < i < |ss| ==> ss[i][0] - Last(ss[i - 1]) >= GapThreshold
  }

  function Last(s: seq<int>): int
    requires |s| > 0
  {
    s[|s| - 1]
  }

  lemma {:induction false} BufferFacts(ts: seq<int>)
    ensures ts == [] ==> Buffer(ts) == Buffered([], [])
    ensures ts != [] ==>
      var b := Buffer(ts);
      |b.open| > 0 && Flatten(b.closed) + b.open == ts &&
      Segmented(b.closed + [b.open]) && Separated(b.closed + [b.open])
  {
    hide Flatten, Segmented, Separated;
    if ts != [] {
      var init, t := ts[..|ts| - 1], ts[|ts| - 1];
      assert init + [t] == ts;
      BufferFacts(init);
      if init == [] {
        assert Buffer(ts) == Buffered([], [t]);
        assert ts == [t] && [] + [[t]] == [[t]];
        FirstTimestamp(t);
      } else {
        assert Buffer(ts) == Push(Buffer(init), t);
        PushFacts(Buffer(init), t);
      }
    }
  }

  /** A client's first timestamp is a session of its own. */
  lemma FirstTimestamp(t: int)
    ensures Flatten<int>([]) + [t] == [t] && Segmented([[t]]) && Separated([[t]])
  {
  }

  /** One more timestamp keeps the buffered sessions a partition of the timestamps. */
  lemma PushFacts(b0: Buffered, t: int)
    requires |b0.open| > 0 && Segmented(b0.closed + [b0.open]) && Separated(b0.closed + [b0.open])
    ensures var b := Push(b0, t);
      |b.open| > 0 && Flatten(b.closed) + b.open == Flatten(b0.closed) + b0.open + [t] &&
      Segmented(b.closed + [b.open]) && Separated(b.closed + [b.open])
  {
    hide Push, Flatten, Segmented, Separated;
    if t - Last(b0.open) >= GapThreshold {
      PushAfterGap(b0, t);
    } else {
      PushWithinGap(b0, t);
    }
  }

  /** A timestamp that opens a new session keeps the buffered sessions a partition. */
  lemma PushAfterGap(b0: Buffered, t: int)
    requires |b0.open| > 0 && Segmented(b0.closed + [b0.open]) && Separated(b0.closed + [b0.open])
    requires t - Last(b0.open) >= GapThreshold
    ensures var b := Push(b0, t);
      |b.open| > 0 && Flatten(b.closed) + b.open == Flatten(b0.closed) + b0.open + [t] &&
      Segmented(b.closed + [b.open]) && Separated(b.closed + [b.open])
  {
    var ss0 := b0.closed + [b0.open];
    var ss := ss0 + [[t]];
    assert Push(b0, t).closed + [Push(b0, t).open] == ss;
    assert ss[..|ss| - 1] == ss0;
    assert Flatten(ss0) == Flatten(b0.closed) + b0.open by {
      assert ss0[..|b0.closed|] == b0.closed;
    }
    assert forall i :: 0 <= i < |ss| - 1 ==> ss[i] == ss0[i];
  }

  /** A timestamp that stays in the open session keeps the buffered sessions a partition. */
  lemma PushWithinGap(b0: Buffered, t: int)
    requires |b0.open| > 0 && Segmented(b0.closed + [b0.open]) && Separated(b0.closed + [b0.open])
    requires t - Last(b0.open) < GapThreshold
    ensures var b := Push(b0, t);
      |b.open| > 0 && Flatten(b.closed) + b.open == Flatten(b0.closed) + b0.open + [t] &&
      Segmented(b.closed + [b.open]) && Separated(b.closed + [b.open])
  {
    var ss0 := b0.closed + [b0.open];
    var open := b0.open + [t];
    var ss := b0.closed + [open];
    assert Push(b0, t).closed + [Push(b0, t).open] == ss;
    assert Tight(open) by {
      forall k | 0 <= k < |open| - 1 ensures open[k + 1] - open[k] < GapThreshold {
        assert Tight(ss0[|ss0| - 1]);
        if k < |b0.open| - 1 {
          assert open[k + 1] - open[k] == b0.open[k + 1] - b0.open[k];
        } else {
          assert open[k + 1] == t && open[k] == Last(b0.open);
        }
      }
    }
    assert forall i :: 0 <= i < |ss| - 1 ==> ss[i] == ss0[i];
  }

  /** Concatenating a client's sessions gives back its timestamps, and every session is non-empty and tight. */
  lemma SessionsPartition(ts: seq<int>)
    ensures Flatten(Sessions(ts)) == ts
    ensures Segmented(Sessions(ts)) && Separated(Sessions(ts))
  {
    BufferFacts(ts);
    if ts != [] {
      var b := Buffer(ts);
      assert (b.closed + [b.open])[..|b.closed|] == b.closed;
    }
  }

  /** Sessions(init) extended by a timestamp that opens a new session. */
  lemma {:induction false} SessionsAfterGap(init: seq<int>, t: int)
    requires init != [] && t - Last(LastSession(Sessions(init))) >= GapThreshold
    ensures Sessions(init + [t]) == Sessions(init) + [[t]]
  {
    BufferFacts(init);
    BufferSnoc(init, t);
  }

  /** Sessions(init) extended by a timestamp that stays in the last session. */
  lemma {:induction false} SessionsWithinGap(init: seq<int>, t: int)
    requires init != [] && t - Last(LastSession(Sessions(init))) < GapThreshold
    ensures var ss := Sessions(init);
      Sessions(init + [t]) == ss[..|ss| - 1] + [LastSession(ss) + [t]]
  {
    BufferFacts(init);
    BufferSnoc(init, t);
    var b := Buffer(init);
    assert (b.closed + [b.open])[..|b.closed|] == b.closed;
  }

  /** The last session of a non-empty list of sessions. */
  function LastSession(ss: seq<seq<int>>): seq<int>
    requires |ss| > 0
  {
    ss[|ss| - 1]
  }

  /** Dropping the last session, or the last timestamp of the last session, keeps a partition. */
  lemma {:induction false} ShrinkPartition(p: seq<seq<int>>)
    requires p != [] && Segmented(p) && Separated(p)
    ensures Flatten(p) == Flatten(p[..|p| - 1]) + LastSession(p)
    ensures Segmented(p[..|p| - 1]) && Separated(p[..|p| - 1])
    ensures |LastSession(p)| > 1 ==>
      var q := p[..|p| - 1] + [LastSession(p)[..|LastSession(p)| - 1]];
      Flatten(q) == Flatten(p[..|p| - 1]) + LastSession(p)[..|LastSession(p)| - 1] && Segmented(q) && Separated(q)
  {
    var n := |p|;
    var piece := LastSession(p);
    assert forall i :: 0 <= i < n - 1 ==> p[..n - 1][i] == p[i];
    if |piece| > 1 {
      var shorter := piece[..|piece| - 1];
      var q := p[..n - 1] + [shorter];
      assert q[..n - 1] == p[..n - 1];
      assert forall i :: 0 <= i < n - 1 ==> q[i] == p[i];
      assert Tight(shorter) by {
        forall k | 0 <= k < |shorter| - 1 ensures shorter[k + 1] - shorter[k] < GapThreshold {
          assert shorter[k + 1] == piece[k + 1] && shorter[k] == piece[k];
        }
      }
      assert shorter[0] == piece[0];
    }
  }

  lemma {:induction false} FlattenNonEmpty(p: seq<seq<int>>)
    requires Segmented(p)
    ensures Flatten(p) == [] <==> p == []
  {
    if p != [] {
      assert |LastSession(p)| > 0;
    }
  }

  /**
    * Sessions are the only partition with these properties: a boundary lies
    * between two timestamps exactly when their gap reaches the threshold.
    */
  lemma {:induction false} SessionsUnique(ts: seq<int>, p: seq<seq<int>>)
    requires Flatten(p) == ts && Segmented(p) && Separated(p)
    ensures p == Sessions(ts)
    decreases |ts|, 1
  {
    FlattenNonEmpty(p);
    if p != [] {
      if |LastSession(p)| == 1 {
        UniqueEndsWithNewSession(ts, p);
      } else {
        UniqueEndsInLongerSession(ts, p);
      }
    }
  }

  lemma {:induction false} UniqueEndsWithNewSession(ts: seq<int>, p: seq<seq<int>>)
    requires Flatten(p) == ts && Segmented(p) && Separated(p)
    requires p != [] && |LastSession(p)| == 1
    ensures p == Sessions(ts)
    decreases |ts|, 0
  {
    var n := |p|;
    ShrinkPartition(p);
    FlattenNonEmpty(p);
    var init, t := ts[..|ts| - 1], ts[|ts| - 1];
    var q := p[..n - 1];
    assert init + [t] == ts;
    assert LastSession(p) == [t];
    assert init == Flatten(q);
    SessionsUnique(init, q);
    FlattenNonEmpty(q);
    if q == [] {
      assert Buffer(ts) == Buffered([], [t]);
      assert p == [[t]];
    } else {
      assert t - Last(LastSession(q)) >= GapThreshold by {
        assert p[n - 1][0] - Last(p[n - 2]) >= GapThreshold;
      }
      SessionsAfterGap(init, t);
      assert p == q + [[t]];
    }
  }

  lemma {:induction false} UniqueEndsInLongerSession(ts: seq<int>, p: seq<seq<int>>)
    requires Flatten(p) == ts && Segmented(p) && Separated(p)
    requires p != [] && |LastSession(p)| > 1
    ensures p == Sessions(ts)
    decreases |ts|, 0
  {
    hide Sessions, Flatten;
    var n := |p|;
    var piece := LastSession(p);
    ShrinkPartition(p);
    var init, t := ts[..|ts| - 1], ts[|ts| - 1];
    assert init + [t] == ts;
    var shorter := piece[..|piece| - 1];
    var q := p[..n - 1] + [shorter];
    assert piece == shorter + [t];
    assert init == Flatten(q);
    SessionsUnique(init, q);
    FlattenNonEmpty(q);
    assert t - Last(LastSession(q)) < GapThreshold by {
      assert piece[|piece| - 1] - piece[|piece| - 2] < GapThreshold;
    }
    SessionsWithinGap(init, t);
    assert q[..n - 1] == p[..n - 1];
    assert p == p[..n - 1] + [piece];
  }

  // ---------------------------------------------------------------------------
  // All clients: the two defaultdicts clients_reqs and clients_session_reqs
  // ---------------------------------------------------------------------------

  /**
    * The segmentation state: `sessions` is clients_reqs, `open` is
    * clients_session_reqs; `order` and `openOrder` are their key insertion orders.
    */
  datatype SegState = SegState(
    sessions: map<string, seq<seq<int>>>,
    order: seq<string>,
    open: map<string, seq<int>>,
    openOrder: seq<string>)

  const Empty := SegState(map[], [], map[], [])

  /** `clients_reqs[c].append(s)` on a defaultdict. */
  function AddSession(st: SegState, c: string, s: seq<int>): SegState
  {
    if c in st.sessions then st.(sessions := st.sessions[c := st.sessions[c] + [s]])
    else st.(sessions := st.sessions[c := [s]], order := st.order + [c])
  }

  /** One line of input for client `c` at time `t`. */
  function SegStep(st: SegState, c: string, t: int): SegState
  {
    var st0 := if c in st.open then st else st.(open := st.open[c := []], openOrder := st.openOrder + [c]);
    var buf := st0.open[c];
    if |buf| > 0 && t - buf[|buf| - 1] >= GapThreshold then
      var st1 := AddSession(st0, c, buf);
      st1.(open := st1.open[c := [t]])
    else
      st0.(open := st0.open[c := buf + [t]])
  }

  /** SegStep once the client's buffer exists: `st0` is `st` with that buffer. */
  lemma StepFrom(st: SegState, c: string, t: int, st0: SegState)
    requires st0 == if c in st.open then st else st.(open := st.open[c := []], openOrder := st.openOrder + [c])
    ensures var buf := st0.open[c];
      SegStep(st, c, t) ==
        if |buf| > 0 && t - buf[|buf| - 1] >= GapThreshold then
          AddSession(st0, c, buf).(open := AddSession(st0, c, buf).open[c := [t]])
        else st0.(open := st0.open[c := buf + [t]])
  {
  }

  function SegFold(events: seq<Request>): SegState
  {
    if events == [] then Empty
    else
      var last := events[|events| - 1];
      SegStep(SegFold(events[..|events| - 1]), ClientOf(last), last.ts)
  }

  /** The end-of-input loop over clients_session_reqs, for the keys `keys` in order. */
  function FlushFrom(st: SegState, keys: seq<string>): SegState
  {
    if keys == [] then st
    else
      var st' := FlushFrom(st, keys[..|keys| - 1]);
      var c := keys[|keys| - 1];
      if c in st'.open && |st'.open[c]| > 0 then AddSession(st', c, st'.open[c]) else st'
  }

  /** Flushing no key changes nothing; flushing one more key flushes that key's buffer. */
  lemma FlushFromSnoc(st: SegState, keys: seq<string>, j: nat)
    requires j <= |keys|
    ensures FlushFrom(st, keys[..0]) == st
    ensures j < |keys| ==> (FlushFrom(st, keys[..j + 1]) ==
      var st' := FlushFrom(st, keys[..j]);
      if keys[j] in st'.open && |st'.open[keys[j]]| > 0 then AddSession(st', keys[j], st'.open[keys[j]]) else st')
  {
    assert keys[..0] == [];
    if j < |keys| {
      assert keys[..j + 1][..j] == keys[..j];
    }
  }

  function FlushAll(st: SegState): SegState
  {
    FlushFrom(st, st.openOrder)
  }

  /** The sessions of every client after the whole input. */
  function Segment(events: seq<Request>): SegState
  {
    FlushAll(SegFold(events))
  }

  /** `keys` lists the elements of `ks`, each once. */
  ghost predicate Lists(keys: seq<string>, ks: set<string>)
  {
    (forall i, j :: 0 <= i < j < |keys| ==> keys[i] != keys[j]) &&
    (forall c :: c in keys <==> c in ks)
  }

  /** What the dictionaries hold for client `c`, as that client's own state. */
  function EntryOf(st: SegState, c: string): Buffered
  {
    Buffered(if c in st.sessions then st.sessions[c] else [], if c in st.open then st.open[c] else [])
  }

  /** Key orders list the keys once each, and a present key never holds an empty list. */
  ghost predicate WellFormed(st: SegState)
  {
    Lists(st.order, st.sessions.Keys) && Lists(st.openOrder, st.open.Keys) &&
    (forall c :: c in st.open ==> st.open[c] != []) &&
    (forall c :: c in st.sessions ==> st.sessions[c] != [])
  }

  /** `st` holds, for every client, what its own timestamps in `events` produce. */
  ghost predicate Mirrors(st: SegState, events: seq<Request>)
  {
    WellFormed(st) && forall c :: EntryOf(st, c) == Buffer(Timestamps(events, c))
  }

  lemma {:induction false} BufferSnoc(ts: seq<int>, t: int)
    ensures Buffer(ts + [t]) == Push(Buffer(ts), t)
  {
    assert (ts + [t])[..|ts|] == ts;
  }

  /** A step changes client `c`'s entry as Push does, and no other client's. */
  lemma {:induction false} StepEntry(st: SegState, c: string, t: int)
    requires WellFormed(st)
    ensures WellFormed(SegStep(st, c, t))
    ensures EntryOf(SegStep(st, c, t), c) == Push(EntryOf(st, c), t)
    ensures forall d :: d != c ==> EntryOf(SegStep(st, c, t), d) == EntryOf(st, d)
  {
    if c in st.open && t - Last(st.open[c]) >= GapThreshold {
      if c in st.sessions {
        StepClosesAgain(st, c, t);
      } else {
        StepClosesFirst(st, c, t);
      }
    } else if c in st.open {
      StepExtends(st, c, t);
    } else {
      StepOpens(st, c, t);
    }
  }

  /** A short gap extends the client's open buffer. */
  lemma StepExtends(st: SegState, c: string, t: int)
    requires WellFormed(st) && c in st.open && t - Last(st.open[c]) < GapThreshold
    ensures WellFormed(SegStep(st, c, t))
    ensures EntryOf(SegStep(st, c, t), c) == Push(EntryOf(st, c), t)
    ensures forall d :: d != c ==> EntryOf(SegStep(st, c, t), d) == EntryOf(st, d)
  {
    assert SegStep(st, c, t) == st.(open := st.open[c := st.open[c] + [t]]);
  }

  /** The first request of a client opens its buffer. */
  lemma StepOpens(st: SegState, c: string, t: int)
    requires WellFormed(st) && c !in st.open
    ensures WellFormed(SegStep(st, c, t))
    ensures EntryOf(SegStep(st, c, t), c) == Push(EntryOf(st, c), t)
    ensures forall d :: d != c ==> EntryOf(SegStep(st, c, t), d) == EntryOf(st, d)
  {
    assert [] + [t] == [t];
    assert SegStep(st, c, t) == st.(open := st.open[c := [t]], openOrder := st.openOrder + [c]);
  }

  /** A long gap closes the buffer of a client that already has sessions. */
  lemma StepClosesAgain(st: SegState, c: string, t: int)
    requires WellFormed(st) && c in st.open && c in st.sessions && t - Last(st.open[c]) >= GapThreshold
    ensures WellFormed(SegStep(st, c, t))
    ensures EntryOf(SegStep(st, c, t), c) == Push(EntryOf(st, c), t)
    ensures forall d :: d != c ==> EntryOf(SegStep(st, c, t), d) == EntryOf(st, d)
  {
    var st' := SegStep(st, c, t);
    assert st' == st.(sessions := st.sessions[c := st.sessions[c] + [st.open[c]]], open := st.open[c := [t]]);
  }

  /** A long gap closes the first session of a client. */
  lemma StepClosesFirst(st: SegState, c: string, t: int)
    requires WellFormed(st) && c in st.open && c !in st.sessions && t - Last(st.open[c]) >= GapThreshold
    ensures WellFormed(SegStep(st, c, t))
    ensures EntryOf(SegStep(st, c, t), c) == Push(EntryOf(st, c), t)
    ensures forall d :: d != c ==> EntryOf(SegStep(st, c, t), d) == EntryOf(st, d)
  {
    var st' := SegStep(st, c, t);
    assert [] + [st.open[c]] == [st.open[c]];
    assert st' == st.(sessions := st.sessions[c := [st.open[c]]], order := st.order + [c], open := st.open[c := [t]]);
  }

  /** One line keeps every client's entry equal to what its own timestamps produce. */
  lemma {:induction false} StepMirrors(st: SegState, events: seq<Request>, r: Request)
    requires Mirrors(st, events)
    ensures Mirrors(SegStep(st, ClientOf(r), r.ts), events + [r])
  {
    var c, t := ClientOf(r), r.ts;
    StepEntry(st, c, t);
    var st' := SegStep(st, c, t);
    forall d ensures EntryOf(st', d) == Buffer(Timestamps(events + [r], d)) {
      TimestampsSnoc(events, r, d);
      if d == c {
        BufferSnoc(Timestamps(events, c), t);
      }
    }
  }

  lemma {:induction false} SegFoldMirrors(events: seq<Request>)
    ensures Mirrors(SegFold(events), events)
  {
    if events == [] {
      forall c ensures Timestamps(events, c) == [] { }
    } else {
      var init, r := events[..|events| - 1], events[|events| - 1];
      assert init + [r] == events;
      SegFoldMirrors(init);
      StepMirrors(SegFold(init), init, r);
    }
  }

  /** The final flush appends each listed client's open buffer as its last session and touches nothing else. */
  lemma {:induction false} FlushFromFacts(st: SegState, keys: seq<string>)
    requires WellFormed(st)
    requires forall i, j :: 0 <= i < j < |keys| ==> keys[i] != keys[j]
    requires forall c :: c in keys ==> c in st.open
    ensures var f := FlushFrom(st, keys);
      f.open == st.open && f.openOrder == st.openOrder && WellFormed(f) &&
      (forall c :: c in keys ==> c in f.sessions && f.sessions[c] == EntryOf(st, c).closed + [st.open[c]]) &&
      (forall c :: c !in keys ==> EntryOf(f, c) == EntryOf(st, c))
  {
    if keys != [] {
      var init, c := keys[..|keys| - 1], keys[|keys| - 1];
      assert forall d :: d in keys <==> d in init || d == c;
      assert c !in init;
      FlushFromFacts(st, init);
      var f0 := FlushFrom(st, init);
      assert FlushFrom(st, keys) == AddSession(f0, c, st.open[c]);
      AddSessionFacts(f0, c, st.open[c]);
    }
  }

  /** Appending a non-empty session to one client's list keeps the state well formed and touches no other client. */
  lemma AddSessionFacts(st: SegState, c: string, s: seq<int>)
    requires WellFormed(st) && s != []
    ensures var st' := AddSession(st, c, s);
      st'.open == st.open && st'.openOrder == st.openOrder && WellFormed(st') &&
      c in st'.sessions && st'.sessions[c] == EntryOf(st, c).closed + [s] &&
      (forall d :: d != c ==> EntryOf(st', d) == EntryOf(st, d))
  {
    if c !in st.sessions {
      assert [] + [s] == [s];
    }
  }

  /**
    * After the final flush, a client has sessions exactly when it sent a request,
    * its sessions are those of its own timestamps, and `order` lists every client once.
    */
  lemma SegmentSessions(events: seq<Request>)
    ensures var st := Segment(events);
      Lists(st.order, st.sessions.Keys) &&
      (forall c :: c in st.sessions <==> Timestamps(events, c) != []) &&
      (forall c :: c in st.sessions ==> st.sessions[c] == Sessions(Timestamps(events, c)))
  {
    var st := SegFold(events);
    SegFoldMirrors(events);
    FlushFromFacts(st, st.openOrder);
    var f := Segment(events);
    forall c ensures c in f.sessions <==> Timestamps(events, c) != []
      ensures c in f.sessions ==> f.sessions[c] == Sessions(Timestamps(events, c))
    {
      BufferFacts(Timestamps(events, c));
      assert EntryOf(st, c) == Buffer(Timestamps(events, c));
    }
  }

  /**
    * A client's sessions depend on its own requests only: inputs that give a
    * client the same timestamps give it the same sessions, however other
    * clients' requests are interleaved.
    */
  lemma ClientIndependence(e1: seq<Request>, e2: seq<Request>, c: string)
    requires Timestamps(e1, c) == Timestamps(e2, c) != []
    ensures c in Segment(e1).sessions && c in Segment(e2).sessions
    ensures Segment(e1).sessions[c] == Segment(e2).sessions[c]
  {
    SegmentSessions(e1);
    SegmentSessions(e2);
  }

  /** The flush keeps the dictionaries well formed. */
  lemma FlushFlushes(st: SegState)
    requires WellFormed(st)
    ensures WellFormed(FlushAll(st))
    ensures forall c :: c in st.openOrder ==> c in st.open
  {
    FlushFromFacts(st, st.openOrder);
  }

  /** The two dictionaries of parse_log.py, updated line by line. */
  class Segmenter {
    var sessions: map<string, seq<seq<int>>>
    var order: seq<string>
    var open: map<string, seq<int>>
    var openOrder: seq<string>

    function State(): SegState
      reads this
    {
      SegState(sessions, order, open, openOrder)
    }

    /** Each key order lists its dictionary's keys once, and no stored list is empty. */
    ghost predicate Valid()
      reads this
    {
      WellFormed(State())
    }

    constructor ()
      ensures Valid() && State() == Empty
    {
      sessions, order, open, openOrder := map[], [], map[], [];
    }

    /** parse_log.py:46-53 for one line of client `c` at time `t`. */
    method Step(c: string, t: int)
      requires Valid()
      modifies this
      ensures Valid() && State() == SegStep(old(State()), c, t)
    {
      hide WellFormed, SegStep;
      StepEntry(State(), c, t);
      if c !in open {
        open := open[c := []];
        openOrder := openOrder + [c];
      }
      ghost var st0 := State();
      if |open[c]| > 0 && t - open[c][|open[c]| - 1] >= GapThreshold {
        ghost var st1 := AddSession(st0, c, open[c]);
        if c !in sessions {
          sessions := sessions[c := []];
          order := order + [c];
        }
        assert [] + [open[c]] == [open[c]];
        sessions := sessions[c := sessions[c] + [open[c]]];
        assert sessions == st1.sessions && order == st1.order;
        open := open[c := []];
        assert [] + [t] == [t];
        open := open[c := open[c] + [t]];
        assert open == st1.open[c := [t]];
        StepFrom(old(State()), c, t, st0);
      } else {
        open := open[c := open[c] + [t]];
        StepFrom(old(State()), c, t, st0);
      }
    }

    /** parse_log.py:56-58: every non-empty buffer becomes the client's last session. */
    method Flush()
      requires Valid()
      modifies this
      ensures Valid() && State() == FlushAll(old(State()))
    {
      hide WellFormed, FlushFrom;
      FlushFlushes(State());
      FlushFromSnoc(State(), openOrder, 0);
      for j := 0 to |openOrder|
        invariant openOrder == old(openOrder) && open == old(open)
        invariant forall d :: d in openOrder ==> d in open
        invariant State() == FlushFrom(old(State()), openOrder[..j])
      {
        var c := openOrder[j];
        FlushFromSnoc(old(State()), openOrder, j);
        ghost var before := State();
        if |open[c]| > 0 {
          if c !in sessions {
            sessions := sessions[c := []];
            order := order + [c];
            assert [] + [open[c]] == [open[c]];
          }
          sessions := sessions[c := sessions[c] + [open[c]]];
          assert State() == AddSession(before, c, open[c]);
        }
      }
      assert openOrder[..|openOrder|] == openOrder;
    }
  }
}

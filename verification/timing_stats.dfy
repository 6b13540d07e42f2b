/**
  * Differences between neighbouring requests of each session, their mean and
  * sample deviation (parse_log.py:80-132). The list `session_diffs` is created
  * once per client and never replaced after a session ends, so the one list
  * object is appended to the client's entries again and again while it keeps
  * growing: every non-None entry of a client shows all of its diffs.
  */
module TimingStats {
  import opened Common
  import opened Segmentation
  import opened Moments

  /** The within-session gaps of every session of `ss`, session after session. */
  function AllDiffs(ss: seq<seq<int>>): seq<int>
  {
    if ss == [] then [] else AllDiffs(ss[..|ss| - 1]) + Gaps(ss[|ss| - 1])
  }

  /**
    * The Diff column of one client: entry `i` is None while the sessions up to
    * `i` have produced no diff, and the shared list, with its final contents,
    * from then on.
    */
  function DiffEntries(ss: seq<seq<int>>): seq<Option<seq<int>>>
  {
    seq(|ss|, i requires 0 <= i < |ss| => if AllDiffs(ss[..i + 1]) == [] then None else Some(AllDiffs(ss)))
  }

  /** What the entries show once written out: None, or the current contents of the list. */
  function Shown(entries: seq<DiffList?>): (shown: seq<Option<seq<int>>>)
    reads entries
    ensures |shown| == |entries|
  {
    seq(|entries|, i requires 0 <= i < |entries| reads entries =>
      if entries[i] == null then None else Some(entries[i].items))
  }

  /**
    * parse_log.py:82-95 for one client. The `else` branch at lines 88-90 is
    * unreachable because every gap inside a session is below the threshold.
    */
  method ClientDiffs(sessions: seq<seq<int>>) returns (entries: seq<DiffList?>)
    requires Segmented(sessions)
    ensures Shown(entries) == DiffEntries(sessions)
    ensures forall i, j :: 0 <= i < |entries| && 0 <= j < |entries| && entries[i] != null && entries[j] != null ==>
      entries[i] == entries[j]
  {
    var sessionDiffs := new DiffList();
    entries := [];
    for j := 0 to |sessions|
      invariant sessionDiffs.items == AllDiffs(sessions[..j])
      invariant entries == Recorded(sessions[..j], sessionDiffs)
    {
      var session := sessions[j];
      AllDiffsSnoc(sessions, j);
      RecordedSnoc(sessions, j, sessionDiffs);
      AppendDiffs(sessionDiffs, session);
      if |sessionDiffs.items| > 0 {
        entries := entries + [sessionDiffs];
      } else if |session| == 1 {
        entries := entries + [null];
      }
    }
    assert sessions[..|sessions|] == sessions;
    RecordedShown(sessions, sessionDiffs);
  }

  /**
    * The entries the loop records for `ss` when every non-None entry is the
    * one list `d`: None exactly while no diff has been produced yet.
    */
  function Recorded(ss: seq<seq<int>>, d: DiffList): (entries: seq<DiffList?>)
    ensures |entries| == |ss|
    ensures forall i :: 0 <= i < |ss| ==> entries[i] == null || entries[i] == d
  {
    if ss == [] then []
    else Recorded(ss[..|ss| - 1], d) + [if AllDiffs(ss) == [] then null else d]
  }

  /** One more session: None when it is a lone request and no diff came before, the list otherwise. */
  lemma RecordedSnoc(ss: seq<seq<int>>, j: nat, d: DiffList)
    requires Segmented(ss) && j < |ss|
    ensures AllDiffs(ss[..j + 1]) != [] || |ss[j]| == 1
    ensures Recorded(ss[..j + 1], d) ==
      Recorded(ss[..j], d) + [if AllDiffs(ss[..j]) + Gaps(ss[j]) == [] then null else d]
  {
    AllDiffsSnoc(ss, j);
    assert |ss[j]| > 0;
    assert ss[..j + 1][..j] == ss[..j];
  }

  /** Entry `i` is None exactly when the sessions up to `i` have produced no diff. */
  lemma {:induction false} RecordedAt(ss: seq<seq<int>>, d: DiffList, i: nat)
    requires i < |ss|
    ensures Recorded(ss, d)[i] == if AllDiffs(ss[..i + 1]) == [] then null else d
  {
    if i < |ss| - 1 {
      var init := ss[..|ss| - 1];
      RecordedAt(init, d, i);
      assert init[..i + 1] == ss[..i + 1];
    } else {
      assert ss[..i + 1] == ss;
    }
  }

  /** Written out, the recorded entries are the Diff column once `d` holds all the diffs. */
  lemma RecordedShown(ss: seq<seq<int>>, d: DiffList)
    requires d.items == AllDiffs(ss)
    ensures Shown(Recorded(ss, d)) == DiffEntries(ss)
  {
    forall i | 0 <= i < |ss| ensures Shown(Recorded(ss, d))[i] == DiffEntries(ss)[i] {
      RecordedAt(ss, d, i);
    }
  }

  /** The inner loop of parse_log.py:84-90: the gaps of one tight session go to the end of the list. */
  method AppendDiffs(sessionDiffs: DiffList, session: seq<int>)
    requires |session| > 0 && Tight(session)
    modifies sessionDiffs
    ensures sessionDiffs.items == old(sessionDiffs.items) + Gaps(session)
  {
    for i := 0 to |session| - 1
      invariant sessionDiffs.items == old(sessionDiffs.items) + Gaps(session)[..i]
    {
      var diff := session[i + 1] - session[i];
      assert Gaps(session)[..i + 1] == Gaps(session)[..i] + [diff];
      if diff < GapThreshold {
        sessionDiffs.Append(diff);
      } else {
        assert false;
      }
    }
    assert Gaps(session)[..|session| - 1] == Gaps(session);
  }

  lemma AllDiffsSnoc(ss: seq<seq<int>>, j: nat)
    requires j < |ss|
    ensures AllDiffs(ss[..j + 1]) == AllDiffs(ss[..j]) + Gaps(ss[j])
  {
    assert ss[..j + 1][..j] == ss[..j];
  }

  /** parse_log.py:99-104 for one client: the mean of every non-None entry. */
  method ClientMeans(diffs: seq<Option<seq<int>>>) returns (means: seq<Option<real>>)
    requires forall i :: 0 <= i < |diffs| && diffs[i].Some? ==> diffs[i].value != []
    ensures |means| == |diffs|
    ensures forall i :: 0 <= i < |diffs| ==> means[i] == MeanCell(diffs[i])
    ensures forall i :: 0 <= i < |diffs| ==> (means[i].None? <==> diffs[i].None?)
    ensures forall i :: 0 <= i < |diffs| && diffs[i].Some? ==>
      means[i].value * |diffs[i].value| as real == Sum(diffs[i].value) as real
  {
    means := [];
    for i := 0 to |diffs|
      invariant |means| == i
      invariant forall k :: 0 <= k < i ==> means[k] == MeanCell(diffs[k])
    {
      if diffs[i].Some? {
        var session := diffs[i].value;
        means := means + [Some(Sum(session) as real / |session| as real)];
      } else {
        means := means + [None];
      }
    }
    forall i | 0 <= i < |diffs| && diffs[i].Some? {
      MeanScales(diffs[i].value);
    }
  }

  /** The Mean column's value for one Diff entry. */
  function MeanCell(diff: Option<seq<int>>): Option<real>
  {
    if diff.None? then None else MeanOf(diff.value)
  }

  /** The Deviation column's value for one Diff entry, with the entry's own mean. */
  function DeviationCell(diff: Option<seq<int>>): DevCell
  {
    if diff.None? then NoneCell else DeviationOf(diff.value, MeanOf(diff.value))
  }

  /**
    * parse_log.py:108-119 for one client: for every non-None entry, the list
    * of squared deviations from the stored mean of that entry.
    */
  method ClientSquares(diffs: seq<Option<seq<int>>>, means: seq<Option<real>>) returns (cells: seq<DevCell>)
    requires |means| == |diffs|
    requires forall i :: 0 <= i < |diffs| && diffs[i].Some? && diffs[i].value != [] ==> means[i].Some?
    ensures |cells| == |diffs|
    ensures forall i :: 0 <= i < |diffs| ==>
      cells[i] == if diffs[i].None? then NoneCell else SquaresOf(diffs[i].value, means[i])
  {
    cells := [];
    for i := 0 to |diffs|
      invariant |cells| == i
      invariant forall k :: 0 <= k < i ==>
        cells[k] == if diffs[k].None? then NoneCell else SquaresOf(diffs[k].value, means[k])
    {
      if diffs[i].None? {
        cells := cells + [NoneCell];
        continue;
      }
      var d := diffs[i].value;
      var sessionDeviation: seq<real> := [];
      for k := 0 to |d|
        invariant means[i].Some? ==> sessionDeviation == SquaredDeviations(d, means[i].value)[..k]
        invariant means[i].None? ==> sessionDeviation == [] && d == []
      {
        var x := d[k] as real - means[i].value;
        ghost var all := SquaredDeviations(d, means[i].value);
        assert all[k] == x * x;
        assert all[..k + 1] == all[..k] + [all[k]];
        sessionDeviation := sessionDeviation + [x * x];
      }
      if d != [] {
        assert SquaredDeviations(d, means[i].value)[..|d|] == SquaredDeviations(d, means[i].value);
      }
      cells := cells + [Squares(sessionDeviation)];
    }
  }

  /**
    * parse_log.py:121-132 (and parse_deviation.py:87-90): every list of
    * squares is overwritten in place by its sample deviation, or None.
    */
  method FinishCells(cells: seq<DevCell>) returns (finished: seq<DevCell>)
    ensures |finished| == |cells|
    ensures forall i :: 0 <= i < |cells| ==> finished[i] == Finish(cells[i])
    ensures forall i :: 0 <= i < |cells| ==> !finished[i].Squares?
  {
    finished := cells;
    for i := 0 to |finished|
      invariant |finished| == |cells|
      invariant forall k :: 0 <= k < i ==> finished[k] == Finish(cells[k])
      invariant forall k :: i <= k < |cells| ==> finished[k] == cells[k]
    {
      if !finished[i].Squares? {
        continue;
      }
      var sq := finished[i].values;
      finished := finished[i := if |sq| - 1 > 0 then SqrtOf(SumReal(sq) / (|sq| - 1) as real) else NoneCell];
    }
  }

  // ---------------------------------------------------------------------------
  // What the columns hold
  // ---------------------------------------------------------------------------

  lemma {:induction false} AllDiffsLength(ss: seq<seq<int>>)
    requires Segmented(ss)
    ensures |AllDiffs(ss)| == |Flatten(ss)| - |ss|
    ensures AllDiffs(ss) == [] <==> forall i :: 0 <= i < |ss| ==> |ss[i]| == 1
  {
    if ss != [] {
      var init, last := ss[..|ss| - 1], ss[|ss| - 1];
      assert forall i :: 0 <= i < |init| ==> init[i] == ss[i];
      AllDiffsLength(init);
      FlattenLength(init);
      assert |Gaps(last)| == |last| - 1;
      assert AllDiffs(ss) == AllDiffs(init) + Gaps(last);
      assert Flatten(ss) == Flatten(init) + last;
      hide AllDiffs, Flatten, Gaps;
    }
  }

  lemma {:induction false} FlattenLength(ss: seq<seq<int>>)
    requires Segmented(ss)
    ensures |Flatten(ss)| >= |ss|
  {
    if ss != [] {
      var init := ss[..|ss| - 1];
      assert forall i :: 0 <= i < |init| ==> init[i] == ss[i];
      FlattenLength(init);
    }
  }

  /**
    * The Diff entries of a segmented client: one per session; None exactly for
    * the one-request sessions before its first longer session; every other
    * entry is the same list, holding all within-session gaps of all sessions,
    * and it is never empty. So every Mean is None exactly when its Diff is,
    * and every Deviation is None exactly when its Diff is None or holds a
    * single difference.
    */
  lemma DiffEntriesFacts(ss: seq<seq<int>>)
    requires Segmented(ss)
    ensures |DiffEntries(ss)| == |ss|
    ensures forall i :: 0 <= i < |ss| ==>
      (DiffEntries(ss)[i].None? <==> forall k :: 0 <= k <= i ==> |ss[k]| == 1)
    ensures forall i :: 0 <= i < |ss| && DiffEntries(ss)[i].Some? ==>
      DiffEntries(ss)[i].value == AllDiffs(ss) != []
    ensures forall i :: 0 <= i < |ss| ==>
      (MeanCell(DiffEntries(ss)[i]).None? <==> DiffEntries(ss)[i].None?) &&
      (DeviationCell(DiffEntries(ss)[i]).NoneCell? <==> DiffEntries(ss)[i].None? || |AllDiffs(ss)| == 1)
  {
    forall i | 0 <= i < |ss| {
      DiffEntryAt(ss, i);
    }
    DeviationFacts(AllDiffs(ss));
  }

  /** Entry `i` of DiffEntriesFacts. */
  lemma DiffEntryAt(ss: seq<seq<int>>, i: nat)
    requires Segmented(ss) && i < |ss|
    ensures DiffEntries(ss)[i].None? <==> forall k :: 0 <= k <= i ==> |ss[k]| == 1
    ensures DiffEntries(ss)[i].Some? ==> DiffEntries(ss)[i].value == AllDiffs(ss) != []
  {
    var pre := ss[..i + 1];
    assert DiffEntries(ss)[i] == if AllDiffs(pre) == [] then None else Some(AllDiffs(ss));
    hide DiffEntries, Flatten;
    assert forall k :: 0 <= k <= i ==> pre[k] == ss[k];
    AllDiffsLength(pre);
    AllDiffsLength(ss);
  }

  /** The gaps below the threshold between neighbouring timestamps of `ts`, in order. */
  function ShortGaps(ts: seq<int>): seq<int>
  {
    if |ts| < 2 then []
    else
      var init := ts[..|ts| - 1];
      var gap := ts[|ts| - 1] - ts[|ts| - 2];
      ShortGaps(init) + (if gap < GapThreshold then [gap] else [])
  }

  /**
    * No diff is dropped: the shared list of a client ends up holding exactly
    * the gaps below the threshold of the client's timestamps, in order.
    */
  lemma {:induction false} NoDiffDropped(ts: seq<int>)
    ensures AllDiffs(Sessions(ts)) == ShortGaps(ts)
  {
    if |ts| == 1 {
      assert Sessions(ts) == [ts] by {
        assert ts[..0] == [];
        assert Buffer(ts) == Buffered([], ts);
      }
      assert [ts][..0] == [];
    } else if |ts| >= 2 {
      var init, t := ts[..|ts| - 1], ts[|ts| - 1];
      assert init + [t] == ts;
      NoDiffDropped(init);
      var ss := Sessions(init);
      SessionsPartition(init);
      FlattenLast(ss);
      if t - Last(LastSession(ss)) >= GapThreshold {
        DiffsAfterGap(init, t);
      } else {
        DiffsWithinGap(init, t);
      }
    } else {
      assert Buffer(ts) == Buffered([], []);
    }
  }

  lemma ShortGapsSnoc(init: seq<int>, t: int)
    requires init != []
    ensures ShortGaps(init + [t]) == ShortGaps(init) + (if t - Last(init) < GapThreshold then [t - Last(init)] else [])
  {
    assert (init + [t])[..|init|] == init;
  }

  lemma {:induction false} DiffsAfterGap(init: seq<int>, t: int)
    requires init != [] && t - Last(LastSession(Sessions(init))) >= GapThreshold
    requires Last(LastSession(Sessions(init))) == Last(init)
    ensures AllDiffs(Sessions(init + [t])) == AllDiffs(Sessions(init)) && ShortGaps(init + [t]) == ShortGaps(init)
  {
    var ss := Sessions(init);
    SessionsAfterGap(init, t);
    assert (ss + [[t]])[..|ss|] == ss;
    ShortGapsSnoc(init, t);
  }

  lemma {:induction false} DiffsWithinGap(init: seq<int>, t: int)
    requires init != [] && t - Last(LastSession(Sessions(init))) < GapThreshold
    requires Last(LastSession(Sessions(init))) == Last(init)
    ensures AllDiffs(Sessions(init + [t])) == AllDiffs(Sessions(init)) + [t - Last(init)]
    ensures ShortGaps(init + [t]) == ShortGaps(init) + [t - Last(init)]
  {
    hide Sessions, ShortGaps, Gaps;
    var ss := Sessions(init);
    SessionsWithinGap(init, t);
    SessionsEnd(init);
    var front, last := ss[..|ss| - 1], LastSession(ss);
    var ss' := front + [last + [t]];
    assert ss'[..|ss'| - 1] == front;
    assert ss[..|ss| - 1] == front;
    GapsSnoc(last, t);
    ShortGapsSnoc(init, t);
  }

  /** The last session of a non-empty series of timestamps ends with its last timestamp. */
  lemma SessionsEnd(ts: seq<int>)
    requires ts != []
    ensures |Sessions(ts)| > 0 && LastSession(Sessions(ts)) != [] && Last(LastSession(Sessions(ts))) == Last(ts)
  {
    SessionsPartition(ts);
    FlattenLast(Sessions(ts));
  }

  lemma {:induction false} FlattenLast(ss: seq<seq<int>>)
    requires Segmented(ss) && ss != []
    ensures Flatten(ss) != [] && Last(Flatten(ss)) == Last(LastSession(ss))
  {
  }

  lemma GapsSnoc(s: seq<int>, t: int)
    requires s != []
    ensures Gaps(s + [t]) == Gaps(s) + [t - Last(s)]
  {
    var r := Gaps(s + [t]);
    assert |r| == |s|;
    forall k | 0 <= k < |s| ensures r[k] == (Gaps(s) + [t - Last(s)])[k] {
      if k < |s| - 1 {
        assert r[k] == s[k + 1] - s[k];
      }
    }
  }
}

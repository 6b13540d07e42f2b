/**
  * Turning the per-client dictionaries of parse_log.py into tables and
  * joining them (parse_log.py:135-168): `dict_to_df` gives one row per list
  * entry, keyed by IP, UA and a 1-based session number, and `pd.merge` joins two
  * tables on that key.
  */
module SessionTable {
  import opened Common
  import opened LineFields

  /** One table row: the (IP, UA, Session) key and the value column. */
  datatype FrameRow<V> = FrameRow(ip: string, ua: string, session: nat, value: V)

  /** The rows of one client: its key split at the first `:`, sessions numbered from 1. */
  function ClientRows<V>(client: string, values: seq<V>): (rows: seq<FrameRow<V>>)
    ensures |rows| == |values|
    ensures forall i :: 0 <= i < |values| ==>
      rows[i] == FrameRow(SplitKey(client).0, SplitKey(client).1, i + 1, values[i])
  {
    var (ip, ua) := SplitKey(client);
    seq(|values|, i requires 0 <= i < |values| => FrameRow(ip, ua, i + 1, values[i]))
  }

  /** The table of a dictionary given by its items in insertion order. */
  function FrameOf<V>(items: seq<(string, seq<V>)>): seq<FrameRow<V>>
  {
    if items == [] then [] else FrameOf(items[..|items| - 1]) + ClientRows(items[|items| - 1].0, items[|items| - 1].1)
  }

  /** The number of list entries over all the items. */
  function EntryCount<V>(items: seq<(string, seq<V>)>): nat
  {
    if items == [] then 0 else EntryCount(items[..|items| - 1]) + |items[|items| - 1].1|
  }

  /** A table has one row per list entry. */
  lemma {:induction false} FrameLength<V>(items: seq<(string, seq<V>)>)
    ensures |FrameOf(items)| == EntryCount(items)
  {
    if items != [] {
      FrameLength(items[..|items| - 1]);
    }
  }

  /** parse_log.py:147-168: the frame is filled by appends, client after client. */
  method DictToFrame<V>(items: seq<(string, seq<V>)>) returns (frame: seq<FrameRow<V>>)
    ensures frame == FrameOf(items)
  {
    frame := [];
    for j := 0 to |items|
      invariant frame == FrameOf(items[..j])
    {
      var (client, sessions) := items[j];
      var delimIdx := Find(client, ':');
      var ip := SliceTo(client, delimIdx);
      var ua := SliceFrom(client, delimIdx + 1);
      ghost var before := frame;
      for i := 0 to |sessions|
        invariant frame == before + ClientRows(client, sessions[..i])
      {
        assert ClientRows(client, sessions[..i + 1]) == ClientRows(client, sessions[..i]) + [FrameRow(ip, ua, i + 1, sessions[i])];
        frame := frame + [FrameRow(ip, ua, i + 1, sessions[i])];
      }
      assert sessions[..|sessions|] == sessions;
      assert items[..j + 1][..j] == items[..j];
    }
    assert items[..|items|] == items;
  }

  /** Two rows with the same (IP, UA, Session) key. */
  predicate SameKey<A, B>(x: FrameRow<A>, y: FrameRow<B>)
  {
    x.ip == y.ip && x.ua == y.ua && x.session == y.session
  }

  /** The rows of `right` matching one row of `left`, joined, in `right`'s order. */
  function Matches<A, B>(x: FrameRow<A>, right: seq<FrameRow<B>>): seq<FrameRow<(A, B)>>
  {
    if right == [] then []
    else
      (if SameKey(x, right[0]) then [FrameRow(x.ip, x.ua, x.session, (x.value, right[0].value))] else []) +
      Matches(x, right[1..])
  }

  /** `pd.merge(left, right, on=["IP", "UA", "Session"])`: an inner join in `left`'s order. */
  function Merge<A, B>(left: seq<FrameRow<A>>, right: seq<FrameRow<B>>): seq<FrameRow<(A, B)>>
  {
    if left == [] then [] else Matches(left[0], right) + Merge(left[1..], right)
  }

  /** No two rows share a key. */
  ghost predicate KeysDistinct<V>(rows: seq<FrameRow<V>>)
  {
    forall i, j :: 0 <= i < j < |rows| ==> !SameKey(rows[i], rows[j])
  }

  /** Row `i` of both tables has the same key. */
  ghost predicate Aligned<A, B>(left: seq<FrameRow<A>>, right: seq<FrameRow<B>>)
  {
    |left| == |right| && forall i :: 0 <= i < |left| ==> SameKey(left[i], right[i])
  }

  /** Row by row pairing of aligned tables. */
  function Zip<A, B>(left: seq<FrameRow<A>>, right: seq<FrameRow<B>>): (rows: seq<FrameRow<(A, B)>>)
    requires |left| == |right|
    ensures |rows| == |left|
  {
    seq(|left|, i requires 0 <= i < |left| => FrameRow(left[i].ip, left[i].ua, left[i].session, (left[i].value, right[i].value)))
  }

  lemma {:induction false} MatchesNone<A, B>(x: FrameRow<A>, right: seq<FrameRow<B>>)
    requires forall k :: 0 <= k < |right| ==> !SameKey(x, right[k])
    ensures Matches(x, right) == []
  {
    if right != [] {
      MatchesNone(x, right[1..]);
    }
  }

  /** A key that occurs once in `right`, at position `p`, matches that row only. */
  lemma {:induction false} MatchesOne<A, B>(x: FrameRow<A>, right: seq<FrameRow<B>>, p: nat)
    requires p < |right| && SameKey(x, right[p])
    requires forall k :: 0 <= k < |right| && k != p ==> !SameKey(x, right[k])
    ensures Matches(x, right) == [FrameRow(x.ip, x.ua, x.session, (x.value, right[p].value))]
    decreases |right|
  {
    if p == 0 {
      MatchesNone(x, right[1..]);
    } else {
      MatchesOne(x, right[1..], p - 1);
    }
  }

  /**
    * Joining two tables with the same keys in the same order, no key twice,
    * keeps every row and pairs them position by position.
    */
  lemma MergeAligned<A, B>(left: seq<FrameRow<A>>, right: seq<FrameRow<B>>)
    requires Aligned(left, right) && KeysDistinct(right)
    ensures Merge(left, right) == Zip(left, right)
  {
    MergeSuffix(left, right, 0);
  }

  lemma {:induction false} MergeSuffix<A, B>(left: seq<FrameRow<A>>, right: seq<FrameRow<B>>, i: nat)
    requires Aligned(left, right) && KeysDistinct(right) && i <= |left|
    ensures Merge(left[i..], right) == Zip(left, right)[i..]
    decreases |left| - i
  {
    if i < |left| {
      MergeSuffix(left, right, i + 1);
      MatchesOne(left[i], right, i);
      hide Matches;
      assert left[i..][1..] == left[i + 1..];
      assert Zip(left, right)[i..] == [Zip(left, right)[i]] + Zip(left, right)[i + 1..];
    }
  }

  /**
    * The row of a dictionary's table at a given client and session: rows come
    * client by client in insertion order, one per list entry, numbered from 1.
    */
  lemma {:induction false} FrameOfRows<V>(items: seq<(string, seq<V>)>, j: nat, i: nat)
    requires j < |items| && i < |items[j].1|
    ensures var offset := |FrameOf(items[..j])|;
      offset + i < |FrameOf(items)| &&
      FrameOf(items)[offset + i] == FrameRow(SplitKey(items[j].0).0, SplitKey(items[j].0).1, i + 1, items[j].1[i])
    decreases |items|
  {
    var n := |items|;
    var init := items[..n - 1];
    assert items[..n - 1] == init;
    if j == n - 1 {
      assert init == items[..j];
    } else {
      assert init[..j] == items[..j];
      FrameOfRows(init, j, i);
    }
  }

  // ---------------------------------------------------------------------------
  // Keys of the tables built from dictionaries with the same clients
  // ---------------------------------------------------------------------------

  /** The keys of a dictionary's items with the length of each list. */
  function Shape<V>(items: seq<(string, seq<V>)>): seq<(string, nat)>
  {
    seq(|items|, j requires 0 <= j < |items| => (items[j].0, |items[j].1|))
  }

  /** The (IP, UA, Session) key of every row. */
  function KeySeq<V>(rows: seq<FrameRow<V>>): seq<(string, string, nat)>
  {
    seq(|rows|, i requires 0 <= i < |rows| => (rows[i].ip, rows[i].ua, rows[i].session))
  }

  lemma ShapePrefix<V>(items: seq<(string, seq<V>)>, m: nat)
    requires m <= |items|
    ensures Shape(items[..m]) == Shape(items)[..m]
  {
  }

  lemma KeySeqConcat<V>(x: seq<FrameRow<V>>, y: seq<FrameRow<V>>)
    ensures KeySeq(x + y) == KeySeq(x) + KeySeq(y)
  {
  }

  /** Tables of dictionaries with the same clients and list lengths have the same keys. */
  lemma {:induction false} FrameKeysByShape<A, B>(a: seq<(string, seq<A>)>, b: seq<(string, seq<B>)>)
    requires Shape(a) == Shape(b)
    ensures KeySeq(FrameOf(a)) == KeySeq(FrameOf(b))
  {
    if a != [] {
      var n := |a|;
      assert |Shape(a)| == |a| && |Shape(b)| == |b|;
      ShapePrefix(a, n - 1);
      ShapePrefix(b, n - 1);
      FrameKeysByShape(a[..n - 1], b[..n - 1]);
      assert Shape(a)[n - 1] == Shape(b)[n - 1];
      KeySeqConcat(FrameOf(a[..n - 1]), ClientRows(a[n - 1].0, a[n - 1].1));
      KeySeqConcat(FrameOf(b[..n - 1]), ClientRows(b[n - 1].0, b[n - 1].1));
    }
  }

  lemma KeysAlign<A, B>(left: seq<FrameRow<A>>, right: seq<FrameRow<B>>)
    requires KeySeq(left) == KeySeq(right)
    ensures Aligned(left, right)
    ensures KeysDistinct(left) ==> KeysDistinct(right)
  {
    assert |left| == |KeySeq(left)|;
    forall i | 0 <= i < |left| ensures SameKey(left[i], right[i]) {
      assert KeySeq(left)[i] == KeySeq(right)[i];
    }
    if KeysDistinct(left) {
      forall i, j | 0 <= i < j < |right| ensures !SameKey(right[i], right[j]) {
        assert KeySeq(left)[i] == KeySeq(right)[i] && KeySeq(left)[j] == KeySeq(right)[j];
      }
    }
  }

  lemma ZipKeys<A, B>(left: seq<FrameRow<A>>, right: seq<FrameRow<B>>)
    requires |left| == |right|
    ensures KeySeq(Zip(left, right)) == KeySeq(left)
  {
  }

  /** Some client of `items` owns row `p` of their table. */
  lemma {:induction false} FrameRowOwner<V>(items: seq<(string, seq<V>)>, p: nat)
    requires p < |FrameOf(items)|
    ensures exists j :: (0 <= j < |items| &&
      (FrameOf(items)[p].ip, FrameOf(items)[p].ua) == SplitKey(items[j].0))
  {
    var n := |items|;
    var init := items[..n - 1];
    if p < |FrameOf(init)| {
      FrameRowOwner(init, p);
      var j :| 0 <= j < |init| && (FrameOf(init)[p].ip, FrameOf(init)[p].ua) == SplitKey(init[j].0);
      assert init[j] == items[j];
    } else {
      assert (FrameOf(items)[p].ip, FrameOf(items)[p].ua) == SplitKey(items[n - 1].0);
    }
  }

  /**
    * Clients with distinct keys, each containing `:`, give a table in which no
    * (IP, UA, Session) key occurs twice.
    */
  lemma {:induction false} FrameKeysDistinct<V>(items: seq<(string, seq<V>)>)
    requires forall j, k :: 0 <= j < k < |items| ==> items[j].0 != items[k].0
    requires forall j :: 0 <= j < |items| ==> ':' in items[j].0
    ensures KeysDistinct(FrameOf(items))
  {
    if items != [] {
      var n := |items|;
      var init := items[..n - 1];
      var (c, vs) := items[n - 1];
      FrameKeysDistinct(init);
      var front := FrameOf(init);
      var rows := FrameOf(items);
      assert rows == front + ClientRows(c, vs);
      forall p, q | 0 <= p < q < |rows| ensures !SameKey(rows[p], rows[q]) {
        if p < |front| && q >= |front| {
          FrameRowOwner(init, p);
          var j :| 0 <= j < |init| && (front[p].ip, front[p].ua) == SplitKey(init[j].0);
          assert init[j].0 != c;
          if SplitKey(init[j].0) == SplitKey(c) {
            SplitKeyInjective(init[j].0, c);
          }
        }
      }
    }
  }
}

/** SQL's GROUP BY with COUNT and SUM over a sequence of joined rows, each
    reduced to its grouping key and the measure being summed. Groups are
    listed in the order their key first occurs; SQL leaves the order of a
    view's rows unspecified, so only the set of groups and their aggregates
    carry meaning. */
module Aggregation {

  datatype Row<K> = Row(key: K, measure: int)

  /** One output row of a GROUP BY: the key, COUNT(*) and SUM(measure). */
  datatype Group<K> = Group(key: K, count: nat, total: int)

  /** Some row has key k. */
  predicate Occurs<K(==)>(rows: seq<Row<K>>, k: K) {
    exists i :: 0 <= i < |rows| && rows[i].key == k
  }

  predicate Distinct<K(==)>(ks: seq<K>) {
    forall i, j :: 0 <= i < j < |ks| ==> ks[i] != ks[j]
  }

  /** COUNT(*) of the rows with key k. */
  function CountOf<K(==)>(rows: seq<Row<K>>, k: K): nat {
    if rows == [] then 0
    else CountOf(rows[..|rows| - 1], k) + (if rows[|rows| - 1].key == k then 1 else 0)
  }

  /** SUM(measure) of the rows with key k. */
  function SumOf<K(==)>(rows: seq<Row<K>>, k: K): int {
    if rows == [] then 0
    else SumOf(rows[..|rows| - 1], k) + (if rows[|rows| - 1].key == k then rows[|rows| - 1].measure else 0)
  }

  /** SUM(measure) over all rows. */
  function Total<K>(rows: seq<Row<K>>): int {
    if rows == [] then 0 else Total(rows[..|rows| - 1]) + rows[|rows| - 1].measure
  }

  /** The keys of rows, each once, in order of first occurrence. */
  function DistinctKeys<K(==)>(rows: seq<Row<K>>): seq<K> {
    if rows == [] then []
    else
      var ks := DistinctKeys(rows[..|rows| - 1]);
      if rows[|rows| - 1].key in ks then ks else ks + [rows[|rows| - 1].key]
  }

  /** The groups of the given keys. */
  function GroupsFor<K(==)>(rows: seq<Row<K>>, ks: seq<K>): (gs: seq<Group<K>>)
    ensures |gs| == |ks|
    ensures forall i :: 0 <= i < |ks| ==> gs[i] == Group(ks[i], CountOf(rows, ks[i]), SumOf(rows, ks[i]))
  {
    if ks == [] then []
    else GroupsFor(rows, ks[..|ks| - 1]) + [Group(ks[|ks| - 1], CountOf(rows, ks[|ks| - 1]), SumOf(rows, ks[|ks| - 1]))]
  }

  /** SELECT key, COUNT(*), SUM(measure) ... GROUP BY key. No group is
      empty. */
  function GroupBy<K(==)>(rows: seq<Row<K>>): (gs: seq<Group<K>>)
    ensures forall i :: 0 <= i < |gs| ==> gs[i].count >= 1
  {
    DistinctKeysCounted(rows);
    GroupsFor(rows, DistinctKeys(rows))
  }

  /** Every distinct key is the key of at least one row. */
  lemma DistinctKeysCounted<K>(rows: seq<Row<K>>)
    ensures forall i :: 0 <= i < |DistinctKeys(rows)| ==> CountOf(rows, DistinctKeys(rows)[i]) >= 1
  {
    var ks := DistinctKeys(rows);
    DistinctKeysSpec(rows);
    forall i | 0 <= i < |ks|
      ensures CountOf(rows, ks[i]) >= 1
    {
      assert ks[i] in ks;
      assert Occurs(rows, ks[i]);
      PresentKey(rows, ks[i]);
    }
  }

  /** Sum of the COUNT column. */
  function TotalCount<K>(gs: seq<Group<K>>): int {
    if gs == [] then 0 else TotalCount(gs[..|gs| - 1]) + gs[|gs| - 1].count
  }

  /** Sum of the SUM column. */
  function GrandTotal<K>(gs: seq<Group<K>>): int {
    if gs == [] then 0 else GrandTotal(gs[..|gs| - 1]) + gs[|gs| - 1].total
  }

  /** The distinct keys are exactly the keys that occur, each once. */
  lemma {:induction false} DistinctKeysSpec<K>(rows: seq<Row<K>>)
    ensures Distinct(DistinctKeys(rows))
    ensures forall k :: k in DistinctKeys(rows) <==> Occurs(rows, k)
  {
    if rows != [] {
      var init := rows[..|rows| - 1];
      DistinctKeysSpec(init);
      forall k
        ensures Occurs(rows, k) <==> Occurs(init, k) || rows[|rows| - 1].key == k
      {
        if Occurs(rows, k) {
          var i :| 0 <= i < |rows| && rows[i].key == k;
          if i < |init| {
            assert init[i] == rows[i];
          }
        }
        if Occurs(init, k) {
          var i :| 0 <= i < |init| && init[i].key == k;
          assert rows[i] == init[i];
        }
      }
    }
  }

  /** A key that does not occur counts and sums to nothing. */
  lemma {:induction false} AbsentKey<K>(rows: seq<Row<K>>, k: K)
    requires !Occurs(rows, k)
    ensures CountOf(rows, k) == 0 && SumOf(rows, k) == 0
  {
    if rows != [] {
      var init := rows[..|rows| - 1];
      forall i | 0 <= i < |init|
        ensures init[i].key != k
      {
        assert rows[i] == init[i];
      }
      AbsentKey(init, k);
    }
  }

  /** A key that occurs is counted at least once. */
  lemma {:induction false} PresentKey<K>(rows: seq<Row<K>>, k: K)
    requires Occurs(rows, k)
    ensures CountOf(rows, k) >= 1
  {
    var init := rows[..|rows| - 1];
    if rows[|rows| - 1].key != k {
      var i :| 0 <= i < |rows| && rows[i].key == k;
      assert init[i] == rows[i];
      PresentKey(init, k);
    }
  }

  /** The GROUP BY has one row per key that occurs, no other row, no key
      twice, and each row counts and sums the measures of exactly the rows
      with its key. */
  lemma GroupBySpec<K>(rows: seq<Row<K>>)
    ensures var gs := GroupBy(rows);
            && (forall i, j :: 0 <= i < j < |gs| ==> gs[i].key != gs[j].key)
            && (forall k :: Occurs(rows, k) <==> exists i :: 0 <= i < |gs| && gs[i].key == k)
            && (forall i :: 0 <= i < |gs| ==>
                  gs[i].count == CountOf(rows, gs[i].key) && gs[i].total == SumOf(rows, gs[i].key))
  {
    var ks := DistinctKeys(rows);
    var gs := GroupBy(rows);
    DistinctKeysSpec(rows);
    forall k
      ensures Occurs(rows, k) <==> exists i :: 0 <= i < |gs| && gs[i].key == k
    {
      if Occurs(rows, k) {
        var i :| 0 <= i < |ks| && ks[i] == k;
        assert gs[i].key == k;
      }
    }
  }

  /** One more input row adds one to the count and its measure to the sum
      of the group of its key, if that key is listed. */
  lemma {:induction false} GroupsForAppendRow<K>(rows: seq<Row<K>>, r: Row<K>, ks: seq<K>)
    requires Distinct(ks)
    ensures TotalCount(GroupsFor(rows + [r], ks)) == TotalCount(GroupsFor(rows, ks)) + (if r.key in ks then 1 else 0)
    ensures GrandTotal(GroupsFor(rows + [r], ks)) == GrandTotal(GroupsFor(rows, ks)) + (if r.key in ks then r.measure else 0)
  {
    if ks != [] {
      var init := ks[..|ks| - 1];
      GroupsForAppendRow(rows, r, init);
      assert ks == init + [ks[|ks| - 1]];
      assert (rows + [r])[..|rows + [r]| - 1] == rows;
      assert GroupsFor(rows + [r], ks)[..|ks| - 1] == GroupsFor(rows + [r], init);
      assert GroupsFor(rows, ks)[..|ks| - 1] == GroupsFor(rows, init);
    }
  }

  /** Over distinct keys covering every row, the counts add up to the
      number of rows and the sums to the sum of all measures. */
  lemma {:induction false} GroupsForCover<K>(rows: seq<Row<K>>, ks: seq<K>)
    requires Distinct(ks)
    requires forall i :: 0 <= i < |rows| ==> rows[i].key in ks
    ensures TotalCount(GroupsFor(rows, ks)) == |rows|
    ensures GrandTotal(GroupsFor(rows, ks)) == Total(rows)
  {
    if rows == [] {
      ZeroGroups(ks);
    } else {
      var init, r := rows[..|rows| - 1], rows[|rows| - 1];
      GroupsForCover(init, ks);
      assert init + [r] == rows;
      GroupsForAppendRow(init, r, ks);
    }
  }

  lemma {:induction false} ZeroGroups<K>(ks: seq<K>)
    ensures TotalCount(GroupsFor([], ks)) == 0 && GrandTotal(GroupsFor([], ks)) == 0
  {
    if ks != [] {
      ZeroGroups(ks[..|ks| - 1]);
      assert GroupsFor([], ks)[..|ks| - 1] == GroupsFor([], ks[..|ks| - 1]);
    }
  }

  /** No row is lost or counted twice: the COUNT column adds up to the
      number of input rows and the SUM column to the sum of all measures. */
  lemma GroupByTotals<K>(rows: seq<Row<K>>)
    ensures TotalCount(GroupBy(rows)) == |rows|
    ensures GrandTotal(GroupBy(rows)) == Total(rows)
  {
    DistinctKeysSpec(rows);
    forall i | 0 <= i < |rows|
      ensures rows[i].key in DistinctKeys(rows)
    {
      assert Occurs(rows, rows[i].key);
    }
    GroupsForCover(rows, DistinctKeys(rows));
  }

  /** Counting and summing over a concatenation adds up. */
  lemma {:induction false} CountSumAppend<K>(a: seq<Row<K>>, b: seq<Row<K>>, k: K)
    ensures CountOf(a + b, k) == CountOf(a, k) + CountOf(b, k)
    ensures SumOf(a + b, k) == SumOf(a, k) + SumOf(b, k)
    decreases |b|
  {
    if b == [] {
      assert a + b == a;
    } else {
      var n := |b| - 1;
      assert (a + b)[..|a + b| - 1] == a + b[..n];
      CountSumAppend(a, b[..n], k);
    }
  }
}

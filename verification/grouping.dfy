/** The aggregate functions the queries use (SUM and COUNT, overall and per
    GROUP BY key), the set of keys a table holds, and the grouping keys a
    GROUP BY produces. Tables are sequences of rows; a key or a column is a
    function of the row. */
module Grouping {
  import opened Ordering

  /** SUM(val) over the whole table. */
  function Sum<T>(rows: seq<T>, val: T -> int): int
  {
    if |rows| == 0 then 0 else val(rows[0]) + Sum(rows[1..], val)
  }

  /** SUM(val) over the rows of the group with key `k`. */
  function SumWhere<T, K(==)>(rows: seq<T>, key: T -> K, k: K, val: T -> int): int
  {
    if |rows| == 0 then 0
    else (if key(rows[0]) == k then val(rows[0]) else 0) + SumWhere(rows[1..], key, k, val)
  }

  /** COUNT(*) over the rows of the group with key `k`. */
  function CountWhere<T, K(==)>(rows: seq<T>, key: T -> K, k: K): nat
  {
    if |rows| == 0 then 0
    else (if key(rows[0]) == k then 1 else 0) + CountWhere(rows[1..], key, k)
  }

  /** The value 1 for every row, so that a count is a sum of ones. */
  function One<T>(x: T): int
  {
    1
  }

  /** The keys that occur in the table. */
  ghost function KeysOf<T, K>(rows: seq<T>, key: T -> K): set<K>
  {
    set r | r in rows :: key(r)
  }

  /** The rows that satisfy `p` (a WHERE clause), in table order. */
  function Filter<T>(rows: seq<T>, p: T -> bool): seq<T>
  {
    if |rows| == 0 then []
    else if p(rows[0]) then [rows[0]] + Filter(rows[1..], p)
    else Filter(rows[1..], p)
  }

  /** WHERE keeps exactly the rows that satisfy the condition, each exactly
      as often as the table holds it, and drops every other row. */
  lemma {:induction false} FilterSelects<T(!new)>(rows: seq<T>, p: T -> bool)
    ensures forall x :: x in Filter(rows, p) <==> x in rows && p(x)
    ensures forall x :: multiset(Filter(rows, p))[x] == if p(x) then multiset(rows)[x] else 0
  {
    if |rows| > 0 {
      FilterSelects(rows[1..], p);
      assert rows == [rows[0]] + rows[1..];
    }
  }

  /** WHERE distributes over concatenation. */
  lemma {:induction false} FilterAppend<T>(a: seq<T>, b: seq<T>, p: T -> bool)
    ensures Filter(a + b, p) == Filter(a, p) + Filter(b, p)
  {
    if |a| > 0 {
      assert (a + b)[1..] == a[1..] + b;
      FilterAppend(a[1..], b, p);
    } else {
      assert a + b == b;
    }
  }

  predicate Distinct<K(==)>(ks: seq<K>)
  {
    forall i, j :: 0 <= i < j < |ks| ==> ks[i] != ks[j]
  }

  lemma KeysOfCons<T, K>(rows: seq<T>, key: T -> K)
    requires |rows| > 0
    ensures KeysOf(rows, key) == {key(rows[0])} + KeysOf(rows[1..], key)
  {
    assert rows == [rows[0]] + rows[1..];
  }

  /** A group has rows exactly when its key occurs in the table. */
  lemma {:induction false} CountWherePositive<T, K>(rows: seq<T>, key: T -> K, k: K)
    ensures CountWhere(rows, key, k) > 0 <==> k in KeysOf(rows, key)
  {
    if |rows| > 0 {
      KeysOfCons(rows, key);
      CountWherePositive(rows[1..], key, k);
    }
  }

  /** The distinct keys of a GROUP BY without ORDER BY: each key of the
      table once, in no promised order. */
  function DistinctKeys<T, K(==,!new)>(rows: seq<T>, key: T -> K): (ks: seq<K>)
    ensures Distinct(ks)
    ensures forall k :: k in ks <==> k in KeysOf(rows, key)
  {
    if |rows| == 0 then []
    else
      KeysOfCons(rows, key);
      var rest := DistinctKeys(rows[1..], key);
      if key(rows[0]) in rest then rest else [key(rows[0])] + rest
  }

  /** The distinct keys of a GROUP BY on a (date, text) key with an ORDER BY
      on that key: each key of the table once, in strictly increasing order. */
  function SortedKeys<T>(rows: seq<T>, key: T -> GroupKey): (ks: seq<GroupKey>)
    ensures StrictlyIncreasing(ks)
    ensures forall k :: k in ks <==> k in KeysOf(rows, key)
  {
    if |rows| == 0 then []
    else
      KeysOfCons(rows, key);
      InsertKey(SortedKeys(rows[1..], key), key(rows[0]))
  }

  lemma SortedKeysDistinct(ks: seq<GroupKey>)
    requires StrictlyIncreasing(ks)
    ensures Distinct(ks)
  {
    forall i, j | 0 <= i < j < |ks| ensures ks[i] != ks[j] {
      IncreasingDistinct(ks, i, j);
    }
  }

  /** The per-group sums, added up over a list of keys. */
  function SumKeys<T, K(==)>(rows: seq<T>, key: T -> K, val: T -> int, ks: seq<K>): int
  {
    if |ks| == 0 then 0 else SumWhere(rows, key, ks[0], val) + SumKeys(rows, key, val, ks[1..])
  }

  lemma {:induction false} SumKeysEmpty<T, K>(rows: seq<T>, key: T -> K, val: T -> int, ks: seq<K>)
    requires |rows| == 0
    ensures SumKeys(rows, key, val, ks) == 0
  {
    if |ks| > 0 {
      SumKeysEmpty(rows, key, val, ks[1..]);
    }
  }

  /** Over distinct keys, the first row contributes to at most one group:
      to the one with its key, if that key is listed. */
  lemma {:induction false} SumKeysPeel<T, K>(rows: seq<T>, key: T -> K, val: T -> int, ks: seq<K>)
    requires |rows| > 0
    requires Distinct(ks)
    ensures SumKeys(rows, key, val, ks)
         == (if key(rows[0]) in ks then val(rows[0]) else 0) + SumKeys(rows[1..], key, val, ks)
  {
    if |ks| > 0 {
      SumKeysPeel(rows, key, val, ks[1..]);
      assert key(rows[0]) in ks <==> key(rows[0]) == ks[0] || key(rows[0]) in ks[1..];
      assert key(rows[0]) == ks[0] ==> key(rows[0]) !in ks[1..];
    }
  }

  /** Sum conservation: splitting a table into groups by distinct keys that
      cover every row, and adding up the group sums, gives the table's sum. */
  lemma {:induction false} SumKeysTotal<T, K>(rows: seq<T>, key: T -> K, val: T -> int, ks: seq<K>)
    requires Distinct(ks)
    requires forall r :: r in rows ==> key(r) in ks
    ensures SumKeys(rows, key, val, ks) == Sum(rows, val)
  {
    if |rows| == 0 {
      SumKeysEmpty(rows, key, val, ks);
    } else {
      SumKeysPeel(rows, key, val, ks);
      assert key(rows[0]) in ks;
      SumKeysTotal(rows[1..], key, val, ks);
    }
  }

  /** COUNT over a group is the SUM of ones over it. */
  lemma {:induction false} CountIsSumOfOnes<T, K>(rows: seq<T>, key: T -> K, k: K)
    ensures CountWhere(rows, key, k) == SumWhere(rows, key, k, One)
  {
    if |rows| > 0 {
      CountIsSumOfOnes(rows[1..], key, k);
    }
  }

  /** The sum of ones is the number of rows. */
  lemma {:induction false} SumOfOnes<T>(rows: seq<T>)
    ensures Sum(rows, One) == |rows|
  {
    if |rows| > 0 {
      SumOfOnes(rows[1..]);
    }
  }
}

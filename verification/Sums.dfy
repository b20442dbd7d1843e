/** Sums over a table, one row at a time. */
module Sums {
  function SumBy<T>(rows: seq<T>, value: T -> int): int {
    if rows == [] then 0 else SumBy(rows[..|rows| - 1], value) + value(rows[|rows| - 1])
  }

  lemma SumAppend<T>(rows: seq<T>, row: T, value: T -> int)
    ensures SumBy(rows + [row], value) == SumBy(rows, value) + value(row)
  {
  }

  lemma {:induction false} SumUpdate<T>(rows: seq<T>, i: nat, row: T, value: T -> int)
    requires i < |rows|
    ensures SumBy(rows[i := row], value) == SumBy(rows, value) - value(rows[i]) + value(row)
  {
    var n := |rows| - 1;
    if i == n {
      assert rows[i := row][..n] == rows[..n];
    } else {
      SumUpdate(rows[..n], i, row, value);
      assert rows[i := row][..n] == rows[..n][i := row];
    }
  }

  lemma {:induction false} SumNonNegative<T>(rows: seq<T>, value: T -> int)
    requires forall k :: 0 <= k < |rows| ==> 0 <= value(rows[k])
    ensures 0 <= SumBy(rows, value)
    ensures forall k :: 0 <= k < |rows| ==> value(rows[k]) <= SumBy(rows, value)
  {
    if rows == [] {
    } else {
      var n := |rows| - 1;
      SumNonNegative(rows[..n], value);
      forall k | 0 <= k < |rows| ensures value(rows[k]) <= SumBy(rows, value) {
        assert k < n ==> rows[..n][k] == rows[k];
      }
    }
  }

  lemma {:induction false} SumSame<T>(rows: seq<T>, other: seq<T>, value: T -> int)
    requires |rows| == |other| && forall k :: 0 <= k < |rows| ==> value(rows[k]) == value(other[k])
    ensures SumBy(rows, value) == SumBy(other, value)
  {
    if rows == [] {
    } else {
      SumSame(rows[..|rows| - 1], other[..|other| - 1], value);
    }
  }
}

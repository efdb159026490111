/**
 * The n x n truck location matrix of Server/environment.py (a numpy integer
 * array): entry (i, i) counts trucks standing at node i, entry (i, j) counts
 * trucks travelling from i to j.
 */
module Matrix {
  import opened Base

  type Mat = seq<seq<int>>

  /** Every row is as long as the matrix is high, as for `np.zeros((n, n))`. */
  ghost predicate IsSquare(m: Mat) {
    forall i :: 0 <= i < |m| ==> |m[i]| == |m|
  }

  /** `np.zeros((n, n), dtype=int)`. */
  function Zeros(n: nat): (m: Mat)
    ensures |m| == n && IsSquare(m)
    ensures forall i, j :: 0 <= i < n && 0 <= j < n ==> m[i][j] == 0
  {
    seq(n, i => seq(n, j => 0))
  }

  function RowSum(row: seq<int>): int {
    if |row| == 0 then 0 else row[0] + RowSum(row[1..])
  }

  /** The total over all cells: the number of trucks the matrix accounts for. */
  function Sum(m: Mat): int {
    if |m| == 0 then 0 else RowSum(m[0]) + Sum(m[1..])
  }

  lemma {:induction false} RowSumUpdate(row: seq<int>, j: nat, v: int)
    requires j < |row|
    ensures RowSum(row[j := v]) == RowSum(row) - row[j] + v
    decreases |row|
  {
    if j > 0 {
      assert row[j := v][1..] == row[1..][j - 1 := v];
      RowSumUpdate(row[1..], j - 1, v);
    }
  }

  lemma {:induction false} SumUpdate(m: Mat, i: nat, row: seq<int>)
    requires i < |m|
    ensures Sum(m[i := row]) == Sum(m) - RowSum(m[i]) + RowSum(row)
    decreases |m|
  {
    if i > 0 {
      assert m[i := row][1..] == m[1..][i - 1 := row];
      SumUpdate(m[1..], i - 1, row);
    }
  }

  lemma {:induction false} RowSumZeros(n: nat)
    ensures RowSum(seq(n, j => 0)) == 0
  {
    if n > 0 {
      assert seq(n, j => 0)[1..] == seq(n - 1, j => 0);
      RowSumZeros(n - 1);
    }
  }

  /**
   * `after` is `before` with one truck taken off cell `src` (no cell for a
   * new truck) and stood on cell `dst`; every other cell is as it was.
   */
  ghost predicate MovesOne(before: Mat, after: Mat, src: Option<(nat, nat)>, dst: (nat, nat)) {
    && IsSquare(before) && |after| == |before| && IsSquare(after)
    && forall a, b :: 0 <= a < |before| && 0 <= b < |before| ==>
         after[a][b] == before[a][b] - (if src == Some((a, b)) then 1 else 0) + (if dst == (a, b) then 1 else 0)
  }

  /** A fresh matrix accounts for no truck at all. */
  lemma {:induction false} SumZeros(n: nat)
    ensures Sum(Zeros(n)) == 0
  {
    ZerosSuffix(n, 0);
    assert Zeros(n)[0..] == Zeros(n);
  }

  lemma {:induction false} ZerosSuffix(n: nat, i: nat)
    requires i <= n
    ensures Sum(Zeros(n)[i..]) == 0
    decreases n - i
  {
    if i < n {
      assert Zeros(n)[i..][1..] == Zeros(n)[i + 1..];
      assert Zeros(n)[i..][0] == seq(n, j => 0);
      RowSumZeros(n);
      ZerosSuffix(n, i + 1);
    } else {
      assert Zeros(n)[i..] == [];
    }
  }

  /**
   * `m[i][j] += delta`: exactly cell (i, j) changes, by `delta`, and so does
   * the total.
   */
  function Add(m: Mat, i: nat, j: nat, delta: int): (r: Mat)
    requires IsSquare(m) && i < |m| && j < |m|
    ensures |r| == |m| && IsSquare(r)
    ensures forall a, b :: 0 <= a < |m| && 0 <= b < |m| ==>
      r[a][b] == m[a][b] + (if a == i && b == j then delta else 0)
    ensures Sum(r) == Sum(m) + delta
  {
    var row := m[i][j := m[i][j] + delta];
    RowSumUpdate(m[i], j, m[i][j] + delta);
    SumUpdate(m, i, row);
    m[i := row]
  }
}

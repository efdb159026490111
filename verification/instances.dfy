/**
 * The deterministic parts of Server/instance_generator.py: the connectivity
 * table listing every ordered pair of distinct nodes, the request rows made
 * from the drawn values, and the distance matrix with its zero diagonal.
 * The random draws and the route files are parameters.
 */
module Instances {
  import Environment

  /** Strict lexicographic order on (origin, destination) pairs. */
  predicate PairLess(a: (int, int), b: (int, int)) {
    a.0 < b.0 || (a.0 == b.0 && a.1 < b.1)
  }

  /** The masked row of the `ij` mesh for one origin: every other node, ascending. */
  function OffDiagonal(n: nat, i: nat): (r: seq<(int, int)>)
    requires i < n
    ensures |r| == n - 1
    ensures forall k :: 0 <= k < |r| ==> r[k].0 == i && 0 <= r[k].1 < n && r[k].1 != i
    ensures forall j :: 0 <= j < n && j != i ==> (i, j) in r
    ensures forall a, b :: 0 <= a < b < |r| ==> r[a].1 < r[b].1
  {
    var r := seq(i, j => (i, j)) + seq(n - i - 1, j => (i, i + 1 + j));
    assert forall j :: 0 <= j < n && j != i ==> (i, j) in r by {
      forall j | 0 <= j < n && j != i
        ensures (i, j) in r
      {
        if j < i {
          assert r[j] == (i, j);
        } else {
          assert r[i + (j - i - 1)] == (i, j);
        }
      }
    }
    r
  }

  /** The masked rows of origins `i` up to `n - 1`, flattened in row-major order. */
  function ConnectivityFrom(n: nat, i: nat): (r: seq<(int, int)>)
    requires i <= n
    ensures |r| == (n - i) * (n - 1)
    ensures forall k :: 0 <= k < |r| ==> i <= r[k].0 < n && 0 <= r[k].1 < n && r[k].0 != r[k].1
    ensures forall a, b :: i <= a < n && 0 <= b < n && a != b ==> (a, b) in r
    ensures forall a, b :: 0 <= a < b < |r| ==> PairLess(r[a], r[b])
    decreases n - i
  {
    if i == n then []
    else
      var row := OffDiagonal(n, i);
      var rest := ConnectivityFrom(n, i + 1);
      assert (n - i) * (n - 1) == (n - 1) + (n - (i + 1)) * (n - 1);
      var r := row + rest;
      assert forall a, b :: 0 <= a < b < |r| ==> PairLess(r[a], r[b]) by {
        forall a, b | 0 <= a < b < |r|
          ensures PairLess(r[a], r[b])
        {
          if b < |row| {
          } else if a < |row| {
            assert r[b] == rest[b - |row|];
          } else {
            assert r[a] == rest[a - |row|] && r[b] == rest[b - |row|];
          }
        }
      }
      r
  }

  /**
   * `create_connectivity(N)`: every ordered pair of distinct nodes exactly
   * once, by origin and then destination ascending.
   */
  function CreateConnectivity(n: nat): (r: seq<(int, int)>)
    ensures |r| == n * (n - 1)
    ensures forall k :: 0 <= k < |r| ==> 0 <= r[k].0 < n && 0 <= r[k].1 < n && r[k].0 != r[k].1
    ensures forall a, b :: 0 <= a < n && 0 <= b < n && a != b ==> (a, b) in r
    ensures forall a, b :: 0 <= a < b < |r| ==> PairLess(r[a], r[b])
  {
    ConnectivityFrom(n, 0)
  }

  /** Sorted strictly, the table lists no pair twice. */
  lemma ConnectivityHasNoRepeats(n: nat, a: nat, b: nat)
    requires a < b < |CreateConnectivity(n)|
    ensures CreateConnectivity(n)[a] != CreateConnectivity(n)[b]
  {
  }

  /** The values drawn for one request: the OD pair, amount, price and the two window bounds. */
  datatype Draw = Draw(origin: int, destination: int, amount: int, price: int, bound0: int, bound1: int)

  function Min(a: int, b: int): int {
    if a <= b then a else b
  }

  function Max(a: int, b: int): int {
    if a <= b then b else a
  }

  /**
   * The request rows of `generate_random_instance`: row `i` has id `i`, the
   * drawn values, the window `[min(bounds), max(bounds)]` and shipper 1.
   */
  function GenerateRequests(draws: seq<Draw>): (rows: seq<Environment.RequestRow>)
    ensures |rows| == |draws|
    ensures forall i :: 0 <= i < |draws| ==>
      && rows[i].id == i && rows[i].selected == 1
      && rows[i].orig == draws[i].origin && rows[i].dest == draws[i].destination
      && rows[i].amount == draws[i].amount && rows[i].price == draws[i].price
      && rows[i].lw <= rows[i].uw
      && rows[i].lw <= draws[i].bound0 && rows[i].lw <= draws[i].bound1
      && (rows[i].lw == draws[i].bound0 || rows[i].lw == draws[i].bound1)
      && rows[i].uw >= draws[i].bound0 && rows[i].uw >= draws[i].bound1
      && (rows[i].uw == draws[i].bound0 || rows[i].uw == draws[i].bound1)
  {
    seq(|draws|, i requires 0 <= i < |draws| =>
      var d := draws[i];
      Environment.RequestRow(i, d.origin, d.destination, d.amount, d.price,
                             Min(d.bound0, d.bound1), Max(d.bound0, d.bound1), 1))
  }

  /**
   * The distance matrix: zeros from `np.zeros`, overwritten off the diagonal
   * by the route distances, given here as `d`.
   */
  function Distances(n: nat, d: (int, int) -> real): (m: seq<seq<real>>)
    ensures |m| == n && forall i :: 0 <= i < n ==> |m[i]| == n
    ensures forall i :: 0 <= i < n ==> m[i][i] == 0.0
    ensures forall i, j :: 0 <= i < n && 0 <= j < n && i != j ==> m[i][j] == d(i, j)
  {
    seq(n, i => seq(n, j => if i == j then 0.0 else d(i, j)))
  }

  /** A draw as `np.random.randint` makes it for `num_nodes` nodes and horizon `Tmax`. */
  predicate DrawInRange(d: Draw, n: nat, tMax: int) {
    && 0 <= d.origin < n && 0 <= d.destination < n
    && 1 <= d.bound0 < tMax && 1 <= d.bound1 < tMax
  }

  /**
   * A generated instance always builds: every row's node ids are in the
   * distance matrix, and every SPAWN event is stamped at 0 or later.
   */
  lemma GeneratedInstanceBuilds(n: nat, tMax: int, draws: seq<Draw>, d: (int, int) -> real)
    requires forall i :: 0 <= i < |draws| ==> DrawInRange(draws[i], n, tMax)
    ensures Environment.BuildEnvironment(GenerateRequests(draws), n, Distances(n, d)).Ok?
    ensures forall i :: 0 <= i < |draws| ==> 0 <= GenerateRequests(draws)[i].lw - 1 < tMax - 1
  {
    var rows := GenerateRequests(draws);
    var dist := Distances(n, d);
    forall i | 0 <= i < |rows|
      ensures Environment.MakeRequest(rows[i], dist).Ok?
    {
      assert DrawInRange(draws[i], n, tMax);
    }
  }
}

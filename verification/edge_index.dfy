/**
 * `edgeToPaths` of Frontend/route.js: an index from each road segment to
 * the paths that use it. `paths[i][j]` is a list of points; every pair of
 * consecutive points is a segment, keyed by the JSON text of the pair
 * (here a key function `key`), and the index maps each key to the pairs
 * `[i, j]` of the paths through it, in the order the loops meet them.
 */
module EdgeIndex {
  import opened Base
  import JsMap

  /** The indices `[i, j]` of one path. */
  type PathId = (nat, nat)

  /** `[i, j]` comes no later than `[i', j']` in the loops' order. */
  predicate NoLater(a: PathId, b: PathId) {
    a.0 < b.0 || (a.0 == b.0 && a.1 <= b.1)
  }

  /** The number of segments of a path of `n` points. */
  function Segments(n: nat): nat {
    if n == 0 then 0 else n - 1
  }

  function RowSegments<P>(row: seq<seq<P>>): nat {
    if |row| == 0 then 0 else RowSegments(row[..|row| - 1]) + Segments(|row[|row| - 1]|)
  }

  /** The sum of `max(len - 1, 0)` over every path. */
  function TotalSegments<P>(paths: seq<seq<seq<P>>>): nat {
    if |paths| == 0 then 0 else TotalSegments(paths[..|paths| - 1]) + RowSegments(paths[|paths| - 1])
  }

  /** The innermost loop over one path: each segment's key with the path's indices. */
  function PathVisits<P, K>(p: seq<P>, i: nat, j: nat, key: (P, P) -> K): (r: seq<(K, PathId)>)
    ensures |r| == Segments(|p|)
    ensures forall k :: 0 <= k < |r| ==> r[k] == (key(p[k], p[k + 1]), (i, j))
  {
    if |p| == 0 then [] else seq(|p| - 1, k requires 0 <= k < |p| - 1 => (key(p[k], p[k + 1]), (i, j)))
  }

  /** The two inner loops over `paths[i]`. */
  function RowVisits<P, K>(row: seq<seq<P>>, i: nat, key: (P, P) -> K): (r: seq<(K, PathId)>)
    ensures |r| == RowSegments(row)
  {
    if |row| == 0 then []
    else RowVisits(row[..|row| - 1], i, key) + PathVisits(row[|row| - 1], i, |row| - 1, key)
  }

  /** `[i, j]` names a path of `paths`. */
  predicate Names<P>(paths: seq<seq<seq<P>>>, ij: PathId) {
    ij.0 < |paths| && ij.1 < |paths[ij.0]|
  }

  /** The three loops of `edgeToPaths`: every segment visit, in the order met. */
  function Visits<P, K>(paths: seq<seq<seq<P>>>, key: (P, P) -> K): (r: seq<(K, PathId)>)
    ensures |r| == TotalSegments(paths)
  {
    if |paths| == 0 then []
    else Visits(paths[..|paths| - 1], key) + RowVisits(paths[|paths| - 1], |paths| - 1, key)
  }

  lemma {:induction false} RowVisitAt<P, K>(row: seq<seq<P>>, i: nat, key: (P, P) -> K, n: nat)
    requires n < |RowVisits(row, i, key)|
    ensures RowVisits(row, i, key)[n].1.0 == i && RowVisits(row, i, key)[n].1.1 < |row|
  {
    var front := RowVisits(row[..|row| - 1], i, key);
    if n < |front| {
      RowVisitAt(row[..|row| - 1], i, key, n);
    }
  }

  lemma {:induction false} RowVisitsCover<P, K>(row: seq<seq<P>>, i: nat, key: (P, P) -> K, j: nat, k: nat)
    requires j < |row| && k + 1 < |row[j]|
    ensures (key(row[j][k], row[j][k + 1]), (i, j)) in RowVisits(row, i, key)
  {
    var n := |row| - 1;
    var front := RowVisits(row[..n], i, key);
    var last := PathVisits(row[n], i, n, key);
    var x := (key(row[j][k], row[j][k + 1]), (i, j));
    if j < n {
      assert row[..n][j] == row[j];
      RowVisitsCover(row[..n], i, key, j, k);
      InConcat(front, last, x);
    } else {
      assert last[k] == x;
      InConcat(front, last, x);
    }
  }

  lemma InConcat<T>(a: seq<T>, b: seq<T>, x: T)
    requires x in a || x in b
    ensures x in a + b
  {
  }


  /** Every visit names one of the paths. */
  lemma {:induction false} VisitNamesPath<P, K>(paths: seq<seq<seq<P>>>, key: (P, P) -> K, n: nat)
    requires n < |Visits(paths, key)|
    ensures Names(paths, Visits(paths, key)[n].1)
  {
    var m := |paths| - 1;
    var front := Visits(paths[..m], key);
    if n < |front| {
      VisitNamesPath(paths[..m], key, n);
      assert paths[..m][front[n].1.0] == paths[front[n].1.0];
    } else {
      RowVisitAt(paths[m], m, key, n - |front|);
    }
  }

  /** A run of visits whose path indices never go backwards. */
  predicate Ordered<K>(vs: seq<(K, PathId)>) {
    forall a, b :: 0 <= a < b < |vs| ==> NoLater(vs[a].1, vs[b].1)
  }

  /** Two ordered runs stay ordered when every index of the first comes no later than every one of the second. */
  lemma OrderedConcat<K>(front: seq<(K, PathId)>, last: seq<(K, PathId)>)
    requires Ordered(front) && Ordered(last)
    requires forall x, y :: 0 <= x < |front| && 0 <= y < |last| ==> NoLater(front[x].1, last[y].1)
    ensures Ordered(front + last)
  {
    var r := front + last;
    forall a, b | 0 <= a < b < |r|
      ensures NoLater(r[a].1, r[b].1)
    {
      if b < |front| {
        assert r[a] == front[a] && r[b] == front[b];
      } else if a < |front| {
        assert r[a] == front[a] && r[b] == last[b - |front|];
      } else {
        assert r[a] == last[a - |front|] && r[b] == last[b - |front|];
      }
    }
  }

  lemma {:induction false} RowVisitsOrdered<P, K>(row: seq<seq<P>>, i: nat, key: (P, P) -> K)
    ensures Ordered(RowVisits(row, i, key))
  {
    if |row| > 0 {
      var n := |row| - 1;
      var front := RowVisits(row[..n], i, key);
      var last := PathVisits(row[n], i, n, key);
      RowVisitsOrdered(row[..n], i, key);
      forall x | 0 <= x < |front|
        ensures front[x].1.0 == i && front[x].1.1 < n
      {
        RowVisitAt(row[..n], i, key, x);
      }
      OrderedConcat(front, last);
    }
  }

  /** Visits come in the loops' order. */
  lemma {:induction false} VisitsOrdered<P, K>(paths: seq<seq<seq<P>>>, key: (P, P) -> K)
    ensures Ordered(Visits(paths, key))
  {
    if |paths| > 0 {
      var m := |paths| - 1;
      var front := Visits(paths[..m], key);
      var last := RowVisits(paths[m], m, key);
      VisitsOrdered(paths[..m], key);
      RowVisitsOrdered(paths[m], m, key);
      forall x | 0 <= x < |front|
        ensures front[x].1.0 < m
      {
        VisitNamesPath(paths[..m], key, x);
      }
      forall y | 0 <= y < |last|
        ensures last[y].1.0 == m
      {
        RowVisitAt(paths[m], m, key, y);
      }
      OrderedConcat(front, last);
    }
  }

  /** Every segment of every path is visited, with that path's indices. */
  lemma {:induction false} VisitsCover<P, K>(paths: seq<seq<seq<P>>>, key: (P, P) -> K, i: nat, j: nat, k: nat)
    requires i < |paths| && j < |paths[i]| && k + 1 < |paths[i][j]|
    ensures (key(paths[i][j][k], paths[i][j][k + 1]), (i, j)) in Visits(paths, key)
  {
    var n := |paths| - 1;
    if i < n {
      assert paths[..n][i] == paths[i];
      VisitsCover(paths[..n], key, i, j, k);
    } else {
      RowVisitsCover(paths[n], n, key, j, k);
    }
  }

  /** The indices of the visits of segment `k`, in order: what the index should hold for `k`. */
  function PathsOn<K(==)>(visits: seq<(K, PathId)>, k: K): seq<PathId> {
    if |visits| == 0 then []
    else
      var front := PathsOn(visits[..|visits| - 1], k);
      if visits[|visits| - 1].0 == k then front + [visits[|visits| - 1].1] else front
  }

  /**
   * The map the loops build: for each visit, read the list of the segment
   * (`get(key) || []`), append the path's indices and store it back.
   */
  function Index<K(==)>(visits: seq<(K, PathId)>): (m: JsMap.Map<K, seq<PathId>>)
    ensures JsMap.Wf(m)
  {
    if |visits| == 0 then JsMap.Empty()
    else
      var m := Index(visits[..|visits| - 1]);
      var (k, ij) := visits[|visits| - 1];
      var ods := match JsMap.Get(m, k) case None => [] case Some(l) => l;
      JsMap.SetKeepsWf(m, k, ods + [ij]);
      JsMap.Set(m, k, ods + [ij])
  }

  /**
   * `edgeToPaths(paths)`: every segment key maps to the indices of the
   * paths through it in visiting order, and a key no path visits is absent.
   */
  function EdgeToPaths<P, K(==, !new)>(paths: seq<seq<seq<P>>>, key: (P, P) -> K): (m: JsMap.Map<K, seq<PathId>>)
    ensures JsMap.Wf(m)
    ensures forall k :: JsMap.Get(m, k) == (if PathsOn(Visits(paths, key), k) == [] then None else Some(PathsOn(Visits(paths, key), k)))
  {
    var visits := Visits(paths, key);
    forall k
      ensures JsMap.Get(Index(visits), k) == if PathsOn(visits, k) == [] then None else Some(PathsOn(visits, k))
    {
      IndexIsPathsOn(visits, k);
    }
    Index(visits)
  }

  /**
   * The index holds, for every segment key, exactly the indices of the
   * visits of that segment in visiting order, and no key nobody visited.
   */
  lemma {:induction false} IndexIsPathsOn<K>(visits: seq<(K, PathId)>, k: K)
    ensures JsMap.Get(Index(visits), k) == if PathsOn(visits, k) == [] then None else Some(PathsOn(visits, k))
  {
    if |visits| > 0 {
      var front := visits[..|visits| - 1];
      var m := Index(front);
      var (k', ij) := visits[|visits| - 1];
      IndexIsPathsOn(front, k');
      IndexIsPathsOn(front, k);
      var ods := match JsMap.Get(m, k') case None => [] case Some(l) => l;
      JsMap.GetAfterSet(m, k', ods + [ij], k);
    }
  }

  /** Every path `[i, j]` is listed under the key of each of its segments. */
  lemma EveryPathListed<P, K(!new)>(paths: seq<seq<seq<P>>>, key: (P, P) -> K, i: nat, j: nat, k: nat)
    requires i < |paths| && j < |paths[i]| && k + 1 < |paths[i][j]|
    ensures JsMap.Get(EdgeToPaths(paths, key), key(paths[i][j][k], paths[i][j][k + 1])).Some?
    ensures (i, j) in JsMap.Get(EdgeToPaths(paths, key), key(paths[i][j][k], paths[i][j][k + 1])).value
  {
    var visits := Visits(paths, key);
    var seg := key(paths[i][j][k], paths[i][j][k + 1]);
    VisitsCover(paths, key, i, j, k);
    VisitedIsListed(visits, seg, (i, j));
    IndexIsPathsOn(visits, seg);
  }

  lemma {:induction false} VisitedIsListed<K>(visits: seq<(K, PathId)>, k: K, ij: PathId)
    requires (k, ij) in visits
    ensures ij in PathsOn(visits, k)
  {
    var front := visits[..|visits| - 1];
    if visits[|visits| - 1] != (k, ij) {
      assert (k, ij) in front by {
        var n :| 0 <= n < |visits| && visits[n] == (k, ij);
        assert front[n] == (k, ij);
      }
      VisitedIsListed(front, k, ij);
    }
  }

  /** Each list keeps the loops' order: `[i, j]` entries never go backwards. */
  lemma {:induction false} PathsOnOrdered<K>(visits: seq<(K, PathId)>, k: K)
    requires forall a, b :: 0 <= a < b < |visits| ==> NoLater(visits[a].1, visits[b].1)
    ensures forall a, b :: 0 <= a < b < |PathsOn(visits, k)| ==> NoLater(PathsOn(visits, k)[a], PathsOn(visits, k)[b])
  {
    if |visits| > 0 {
      var n := |visits| - 1;
      var front := visits[..n];
      PathsOnOrdered(front, k);
      PathsOnFromVisits(front, k);
      if visits[n].0 == k {
        var before := PathsOn(front, k);
        var r := before + [visits[n].1];
        forall a, b | 0 <= a < b < |r|
          ensures NoLater(r[a], r[b])
        {
          if b == |before| {
            assert r[a] in before;
            var m :| 0 <= m < |front| && front[m].1 == r[a];
            assert visits[m] == front[m];
          }
        }
      }
    }
  }

  /** Under every key, `edgeToPaths` lists the paths in the order the loops met them. */
  lemma EdgeListsOrdered<P, K(!new)>(paths: seq<seq<seq<P>>>, key: (P, P) -> K, seg: K)
    ensures JsMap.Get(EdgeToPaths(paths, key), seg).Some? ==>
      var ods := JsMap.Get(EdgeToPaths(paths, key), seg).value;
      forall a, b :: 0 <= a < b < |ods| ==> NoLater(ods[a], ods[b])
  {
    var visits := Visits(paths, key);
    VisitsOrdered(paths, key);
    PathsOnOrdered(visits, seg);
    IndexIsPathsOn(visits, seg);
  }

  lemma {:induction false} PathsOnFromVisits<K>(visits: seq<(K, PathId)>, k: K)
    ensures forall x :: x in PathsOn(visits, k) ==> exists n :: 0 <= n < |visits| && visits[n].1 == x
  {
    if |visits| > 0 {
      var front := visits[..|visits| - 1];
      PathsOnFromVisits(front, k);
      forall x | x in PathsOn(visits, k)
        ensures exists n :: 0 <= n < |visits| && visits[n].1 == x
      {
        if x in PathsOn(front, k) {
          var n :| 0 <= n < |front| && front[n].1 == x;
          assert visits[n].1 == x;
        } else {
          assert visits[|visits| - 1].1 == x;
        }
      }
    }
  }

  /** The number of path entries over all keys. */
  function EntryCount<K>(entries: seq<(K, seq<PathId>)>): nat {
    if |entries| == 0 then 0 else EntryCount(entries[..|entries| - 1]) + |entries[|entries| - 1].1|
  }

  lemma {:induction false} EntryCountAppend<K>(entries: seq<(K, seq<PathId>)>, e: (K, seq<PathId>))
    ensures EntryCount(entries + [e]) == EntryCount(entries) + |e.1|
  {
    assert (entries + [e])[..|entries|] == entries;
  }

  lemma {:induction false} EntryCountUpdate<K>(entries: seq<(K, seq<PathId>)>, i: nat, e: (K, seq<PathId>))
    requires i < |entries|
    ensures EntryCount(entries[i := e]) + |entries[i].1| == EntryCount(entries) + |e.1|
  {
    var n := |entries| - 1;
    if i < n {
      assert entries[i := e][..n] == entries[..n][i := e];
      EntryCountUpdate(entries[..n], i, e);
    } else {
      assert entries[i := e][..n] == entries[..n];
    }
  }

  /** Each visit adds exactly one entry: the index holds as many entries as there are visits. */
  lemma {:induction false} IndexCountsVisits<K>(visits: seq<(K, PathId)>)
    ensures EntryCount(Index(visits).entries) == |visits|
  {
    if |visits| > 0 {
      var front := visits[..|visits| - 1];
      IndexCountsVisits(front);
      var m := Index(front);
      var (k, ij) := visits[|visits| - 1];
      match JsMap.IndexOf(m, k)
      case None =>
        EntryCountAppend(m.entries, (k, [ij]));
      case Some(p) =>
        var ods := JsMap.Get(m, k).value;
        assert ods == m.entries[p].1;
        EntryCountUpdate(m.entries, p, (k, ods + [ij]));
    }
  }

  /** The index holds one entry per segment of every path: the sum of `max(len - 1, 0)`. */
  lemma EntriesCountSegments<P, K(!new)>(paths: seq<seq<seq<P>>>, key: (P, P) -> K)
    ensures EntryCount(EdgeToPaths(paths, key).entries) == TotalSegments(paths)
  {
    IndexCountsVisits(Visits(paths, key));
  }
}

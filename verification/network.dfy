/**
 * Server/network.py: the transport network. Each connectivity row names an
 * origin and a destination node; the road route between them, a list of
 * coordinate points, is cut into segments, every distinct segment becomes
 * one link, and the path of the row is the list of its segments' link ids.
 *
 * Coordinates are kept abstract (any type with equality), and the routing
 * service is the parameter `getRoute`.
 */
module Network {
  import opened Base

  datatype Node<C> = Node(name: string, longitude: C, latitude: C)

  datatype Link<C> = Link(startLongitude: C, startLatitude: C, endLongitude: C, endLatitude: C)

  /** `network.Vehicle`: a resource quantity of some type on an OD pair. */
  datatype Vehicle = Vehicle(name: string, origin: int, destination: int, quantity: int)

  /** A route point, `(longitude, latitude)`. */
  type Point<C> = (C, C)

  /** The dictionary key of a link: its four coordinates. */
  type Key<C> = (C, C, C, C)

  function KeyOf<C>(l: Link<C>): Key<C> {
    (l.startLongitude, l.startLatitude, l.endLongitude, l.endLatitude)
  }

  /** The key of segment `k` of a route, from point `k` to point `k + 1`. */
  function SegKey<C>(route: seq<Point<C>>, k: nat): Key<C>
    requires k + 1 < |route|
  {
    (route[k].0, route[k].1, route[k + 1].0, route[k + 1].1)
  }

  /** `range(len(route) - 1)` has this many members. */
  function Segments(n: nat): nat {
    if n < 2 then 0 else n - 1
  }

  /** The link of segment `k` of a route. */
  function SegLink<C>(route: seq<Point<C>>, k: nat): Link<C>
    requires k + 1 < |route|
  {
    Link(route[k].0, route[k].1, route[k + 1].0, route[k + 1].1)
  }

  /** The links of a route's segments, in route order. */
  function RouteLinks<C>(route: seq<Point<C>>): seq<Link<C>>
    decreases |route|
  {
    if |route| < 2 then [] else [SegLink(route, 0)] + RouteLinks(route[1..])
  }

  /**
   * The members of `xs` that are not in `seen`, each once, in the order of
   * their first occurrence.
   */
  function Unseen<T(==)>(seen: seq<T>, xs: seq<T>): seq<T>
    decreases |xs|
  {
    if |xs| == 0 then []
    else if xs[0] in seen then Unseen(seen, xs[1..])
    else [xs[0]] + Unseen(seen + [xs[0]], xs[1..])
  }

  /** `Unseen` keeps exactly the members outside `seen`, and none twice. */
  lemma {:induction false} UnseenMembers<T>(seen: seq<T>, xs: seq<T>)
    ensures forall i :: 0 <= i < |Unseen(seen, xs)| ==> Unseen(seen, xs)[i] in xs && Unseen(seen, xs)[i] !in seen
    ensures forall i :: 0 <= i < |xs| && xs[i] !in seen ==> xs[i] in Unseen(seen, xs)
    ensures forall i, j :: 0 <= i < j < |Unseen(seen, xs)| ==> Unseen(seen, xs)[i] != Unseen(seen, xs)[j]
    decreases |xs|
  {
    if |xs| > 0 {
      assert forall i :: 0 < i < |xs| ==> xs[i] == xs[1..][i - 1];
      if xs[0] in seen {
        UnseenMembers(seen, xs[1..]);
      } else {
        UnseenMembers(seen + [xs[0]], xs[1..]);
        var rest := Unseen(seen + [xs[0]], xs[1..]);
        assert Unseen(seen, xs) == [xs[0]] + rest;
      }
    }
  }

  /** Running `Unseen` over two lists one after the other: the second sees what the first added. */
  lemma {:induction false} UnseenConcat<T>(seen: seq<T>, a: seq<T>, b: seq<T>)
    ensures Unseen(seen, a + b) == Unseen(seen, a) + Unseen(seen + Unseen(seen, a), b)
    decreases |a|
  {
    if |a| == 0 {
      assert a + b == b && seen + [] == seen;
    } else {
      assert (a + b)[1..] == a[1..] + b;
      if a[0] in seen {
        UnseenConcat(seen, a[1..], b);
      } else {
        var s1 := seen + [a[0]];
        UnseenConcat(s1, a[1..], b);
        assert s1 + Unseen(s1, a[1..]) == seen + ([a[0]] + Unseen(s1, a[1..]));
      }
    }
  }

  /** The link list and the `unique_links` dictionary built alongside it. */
  datatype Table<C(==)> = Table(links: seq<Link<C>>, lookup: map<Key<C>, nat>)

  /**
   * The dictionary maps each key to a link with that key, and each link's
   * key back to the link's own index.
   */
  ghost predicate TableWf<C>(t: Table<C>) {
    && (forall k :: k in t.lookup ==> t.lookup[k] < |t.links| && KeyOf(t.links[t.lookup[k]]) == k)
    && (forall i :: 0 <= i < |t.links| ==> KeyOf(t.links[i]) in t.lookup && t.lookup[KeyOf(t.links[i])] == i)
  }

  /** No two links of a well-formed table share their coordinates. */
  lemma WfLinksDistinct<C>(t: Table<C>, i: nat, j: nat)
    requires TableWf(t) && i < j < |t.links|
    ensures t.links[i] != t.links[j]
  {
    assert t.lookup[KeyOf(t.links[i])] == i;
  }

  /** `b` is `a` with links appended: every id of `a` still names the same link. */
  ghost predicate Extends<C>(a: seq<Link<C>>, b: seq<Link<C>>) {
    |a| <= |b| && forall i :: 0 <= i < |a| ==> b[i] == a[i]
  }

  /**
   * The body of the segment loop: a segment already in the dictionary
   * reuses its id; a new one is appended as a link and gets the next id.
   */
  function Intern<C(==)>(t: Table<C>, a: Point<C>, b: Point<C>): (r: (Table<C>, nat))
    requires TableWf(t)
    ensures TableWf(r.0) && Extends(t.links, r.0.links)
    ensures r.1 < |r.0.links| && KeyOf(r.0.links[r.1]) == (a.0, a.1, b.0, b.1)
    ensures (a.0, a.1, b.0, b.1) in t.lookup ==> r.0 == t
    ensures (a.0, a.1, b.0, b.1) !in t.lookup ==>
      r.0.links == t.links + [Link(a.0, a.1, b.0, b.1)] && r.1 == |t.links|
  {
    var key := (a.0, a.1, b.0, b.1);
    if key in t.lookup then (t, t.lookup[key])
    else (Table(t.links + [Link(a.0, a.1, b.0, b.1)], t.lookup[key := |t.links|]), |t.links|)
  }

  /** Every id is an index into the links. */
  ghost predicate IdsValid<C>(links: seq<Link<C>>, ids: seq<nat>) {
    forall k :: 0 <= k < |ids| ==> ids[k] < |links|
  }

  /** `ids` names, one by one, the links of the route's segments. */
  ghost predicate PathMatches<C>(links: seq<Link<C>>, ids: seq<nat>, route: seq<Point<C>>) {
    && |ids| == Segments(|route|)
    && forall k :: 0 <= k < |ids| ==> ids[k] < |links| && KeyOf(links[ids[k]]) == SegKey(route, k)
  }

  /**
   * The segment loop over one route: the ids of its segments, in route
   * order, and the table with the route's new segments appended, each
   * once, in the order the route first reaches them.
   */
  function PathIds<C(==)>(t: Table<C>, route: seq<Point<C>>): (r: (Table<C>, seq<nat>))
    requires TableWf(t)
    ensures TableWf(r.0) && Extends(t.links, r.0.links)
    ensures PathMatches(r.0.links, r.1, route)
    ensures forall i :: |t.links| <= i < |r.0.links| ==> i in r.1
    ensures r.0.links == t.links + Unseen(t.links, RouteLinks(route))
    decreases |route|
  {
    if |route| < 2 then (t, [])
    else
      var (t1, id) := Intern(t, route[0], route[1]);
      var (t2, ids) := PathIds(t1, route[1..]);
      assert t2.links[id] == t1.links[id];
      InternAppendsUnseen(t, route);
      MatchesCons(t2.links, id, ids, route);
      ExtendsTrans(t.links, t1.links, t2.links);
      NewIdsOnPath(|t.links|, |t1.links|, |t2.links|, id, ids);
      (t2, [id] + ids)
  }

  /** The first segment of a route adds its link to the table exactly when the table lacks it. */
  lemma InternAppendsUnseen<C>(t: Table<C>, route: seq<Point<C>>)
    requires TableWf(t) && |route| >= 2
    ensures var t1 := Intern(t, route[0], route[1]).0;
      t1.links + Unseen(t1.links, RouteLinks(route[1..])) == t.links + Unseen(t.links, RouteLinks(route))
  {
    var l := SegLink(route, 0);
    var t1 := Intern(t, route[0], route[1]).0;
    assert t1.links == if l in t.links then t.links else t.links + [l] by {
      KeyedIffLinked(t, l);
    }
    assert RouteLinks(route) == [l] + RouteLinks(route[1..]);
    AppendIfUnseen(t.links, t1.links, l, RouteLinks(route[1..]));
  }

  /** Appending a member unless it is already there, then `Unseen` of the rest, is `Unseen` of both. */
  lemma AppendIfUnseen<T>(a: seq<T>, a1: seq<T>, x: T, rest: seq<T>)
    requires a1 == if x in a then a else a + [x]
    ensures a1 + Unseen(a1, rest) == a + Unseen(a, [x] + rest)
  {
    UnseenCons(a, x, rest);
    if x !in a {
      assert a + ([x] + Unseen(a1, rest)) == a1 + Unseen(a1, rest);
    }
  }

  /** A well-formed table holds a link exactly when its dictionary holds the link's key. */
  lemma KeyedIffLinked<C>(t: Table<C>, l: Link<C>)
    requires TableWf(t)
    ensures KeyOf(l) in t.lookup <==> l in t.links
  {
    if KeyOf(l) in t.lookup {
      assert t.links[t.lookup[KeyOf(l)]] == l;
    }
    if l in t.links {
      var i :| 0 <= i < |t.links| && t.links[i] == l;
    }
  }

  /** One step of `Unseen`: a member already seen is skipped, a new one is kept and seen from then on. */
  lemma UnseenCons<T>(seen: seq<T>, x: T, rest: seq<T>)
    ensures x in seen ==> Unseen(seen, [x] + rest) == Unseen(seen, rest)
    ensures x !in seen ==> Unseen(seen, [x] + rest) == [x] + Unseen(seen + [x], rest)
  {
    assert ([x] + rest)[1..] == rest;
  }

  /** Two rounds of `Unseen`, the second over what the first left, are one round over both lists. */
  lemma UnseenTwice<T>(a: seq<T>, b: seq<T>, c: seq<T>, x: seq<T>, y: seq<T>)
    requires b == a + Unseen(a, x) && c == b + Unseen(b, y)
    ensures c == a + Unseen(a, x + y)
  {
    UnseenConcat(a, x, y);
  }

  /** The id of a new first segment and the ids new on the rest of the route cover all new ids. */
  lemma NewIdsOnPath(lo: nat, mid: nat, hi: nat, id: nat, ids: seq<nat>)
    requires mid == lo || (mid == lo + 1 && id == lo)
    requires forall i :: mid <= i < hi ==> i in ids
    ensures forall i :: lo <= i < hi ==> i in [id] + ids
  {
    forall i | lo <= i < hi
      ensures i in [id] + ids
    {
      if i >= mid {
        assert i in ids;
      }
    }
  }

  lemma ExtendsTrans<C>(a: seq<Link<C>>, b: seq<Link<C>>, c: seq<Link<C>>)
    requires Extends(a, b) && Extends(b, c)
    ensures Extends(a, c)
  {
  }

  /** A segment's id followed by the path of the rest of the route is the path of the route. */
  lemma MatchesCons<C>(links: seq<Link<C>>, id: nat, ids: seq<nat>, route: seq<Point<C>>)
    requires |route| >= 2 && id < |links| && KeyOf(links[id]) == SegKey(route, 0)
    requires PathMatches(links, ids, route[1..])
    ensures PathMatches(links, [id] + ids, route)
  {
    var r := [id] + ids;
    forall k | 0 <= k < |r|
      ensures r[k] < |links| && KeyOf(links[r[k]]) == SegKey(route, k)
    {
      if k > 0 {
        assert r[k] == ids[k - 1];
        assert SegKey(route[1..], k - 1) == SegKey(route, k);
      }
    }
  }

  /** A connectivity row: origin id, destination id. */
  type Row = (int, int)

  /** Both node ids of the row are valid Python subscripts of the node list. */
  predicate RowInRange(n: nat, row: Row) {
    PyIndex(row.0, n).Some? && PyIndex(row.1, n).Some?
  }

  /** Every row's node ids are in range. */
  predicate RowsInRange(n: nat, rows: seq<Row>) {
    forall i :: 0 <= i < |rows| ==> RowInRange(n, rows[i])
  }

  lemma RowsInRangeCons(n: nat, rows: seq<Row>)
    requires |rows| > 0
    ensures RowsInRange(n, rows) <==> RowInRange(n, rows[0]) && RowsInRange(n, rows[1..])
  {
    if RowInRange(n, rows[0]) && RowsInRange(n, rows[1..]) {
      forall i | 0 < i < |rows|
        ensures RowInRange(n, rows[i])
      {
        assert rows[i] == rows[1..][i - 1];
      }
    }
  }

  /** The route the routing service gives for a row. */
  function RouteOf<C>(nodes: seq<Node<C>>, getRoute: (C, C, C, C) -> seq<Point<C>>, row: Row): seq<Point<C>>
    requires RowInRange(|nodes|, row)
  {
    var o := nodes[PyIndex(row.0, |nodes|).value];
    var d := nodes[PyIndex(row.1, |nodes|).value];
    getRoute(o.longitude, o.latitude, d.longitude, d.latitude)
  }

  /** The links of every row's route, row after row: the order the loop visits segments in. */
  function VisitLinks<C>(nodes: seq<Node<C>>, getRoute: (C, C, C, C) -> seq<Point<C>>, rows: seq<Row>): seq<Link<C>>
    requires RowsInRange(|nodes|, rows)
    decreases |rows|
  {
    if |rows| == 0 then []
    else
      RowsInRangeCons(|nodes|, rows);
      RouteLinks(RouteOf(nodes, getRoute, rows[0])) + VisitLinks(nodes, getRoute, rows[1..])
  }

  /**
   * Over a well-formed table a route has one path only: each segment's id
   * is the one the dictionary holds for its key, so a segment seen before
   * reuses its id.
   */
  lemma PathIsDetermined<C>(t: Table<C>, ids1: seq<nat>, ids2: seq<nat>, route: seq<Point<C>>)
    requires TableWf(t) && PathMatches(t.links, ids1, route) && PathMatches(t.links, ids2, route)
    ensures ids1 == ids2
  {
    forall k | 0 <= k < |ids1|
      ensures ids1[k] == ids2[k]
    {
      assert t.lookup[KeyOf(t.links[ids1[k]])] == ids1[k];
      assert t.lookup[KeyOf(t.links[ids2[k]])] == ids2[k];
    }
  }

  /** A path stays valid when links are appended. */
  lemma MatchesExtend<C>(a: seq<Link<C>>, b: seq<Link<C>>, ids: seq<nat>, route: seq<Point<C>>)
    requires Extends(a, b) && PathMatches(a, ids, route)
    ensures PathMatches(b, ids, route)
  {
    forall k | 0 <= k < |ids|
      ensures ids[k] < |b| && KeyOf(b[ids[k]]) == SegKey(route, k)
    {
      assert b[ids[k]] == a[ids[k]];
    }
  }

  /** Link id `i` is on the path of one of the rows. */
  ghost predicate OnSomePath(paths: map<Row, seq<nat>>, rows: seq<Row>, i: nat) {
    exists key :: key in rows && key in paths && i in paths[key]
  }

  /**
   * Ids `lo` up to `mid` are on the path of the first row, and ids from
   * `mid` up to `hi` on the path of a later row: all are on some row's path.
   */
  lemma NewLinksOnPaths(paths: map<Row, seq<nat>>, rows: seq<Row>, ids: seq<nat>, lo: nat, mid: nat, hi: nat)
    requires |rows| > 0 && rows[0] in paths && paths[rows[0]] == ids
    requires forall i :: lo <= i < mid ==> i in ids
    requires forall i :: mid <= i < hi ==> OnSomePath(paths, rows[1..], i)
    ensures forall i :: lo <= i < hi ==> OnSomePath(paths, rows, i)
  {
    forall i | lo <= i < hi
      ensures OnSomePath(paths, rows, i)
    {
      if i < mid {
        assert rows[0] in rows;
      } else {
        assert OnSomePath(paths, rows[1..], i);
        var key :| key in rows[1..] && key in paths && i in paths[key];
        assert key in rows;
      }
    }
  }

  /**
   * The loop over the connectivity rows from a given table and path
   * dictionary. A node id out of range raises IndexError. Otherwise every
   * row's pair gets the path of its route. A later row naming the same pair
   * overwrites the path, with the same ids, since the route is the same.
   * The links appended are the segments not linked before, each once, in
   * the order the rows' routes first reach them, and each is on the path
   * of some row.
   */
  function BuildFrom<C(==)>(nodes: seq<Node<C>>, rows: seq<Row>, getRoute: (C, C, C, C) -> seq<Point<C>>,
                            t: Table<C>, paths: map<Row, seq<nat>>): (r: Result<(Table<C>, map<Row, seq<nat>>)>)
    requires TableWf(t)
    requires forall key :: key in paths ==> IdsValid(t.links, paths[key])
    ensures r.Ok? <==> RowsInRange(|nodes|, rows)
    ensures r.Err? ==> r.error == IndexError
    ensures r.Ok? ==> TableWf(r.value.0) && Extends(t.links, r.value.0.links)
    ensures r.Ok? ==> forall key :: key in r.value.1 <==> key in paths || key in rows
    ensures r.Ok? ==> forall key :: key in r.value.1 ==> IdsValid(r.value.0.links, r.value.1[key])
    ensures r.Ok? ==> forall key :: key in paths && key !in rows ==> r.value.1[key] == paths[key]
    ensures r.Ok? ==> forall key :: key in rows ==>
      RowInRange(|nodes|, key) && PathMatches(r.value.0.links, r.value.1[key], RouteOf(nodes, getRoute, key))
    ensures r.Ok? ==> r.value.0.links == t.links + Unseen(t.links, VisitLinks(nodes, getRoute, rows))
    ensures r.Ok? ==> forall i :: |t.links| <= i < |r.value.0.links| ==> OnSomePath(r.value.1, rows, i)
    decreases |rows|
  {
    if |rows| == 0 then Ok((t, paths))
    else
      var row := rows[0];
      RowsInRangeCons(|nodes|, rows);
      var _ :- Subscript(row.0, |nodes|);
      var _ :- Subscript(row.1, |nodes|);
      var (t1, ids) := PathIds(t, RouteOf(nodes, getRoute, row));
      var p1 := paths[row := ids];
      assert forall key :: key in p1 ==> IdsValid(t1.links, p1[key]) by {
        forall key | key in p1
          ensures IdsValid(t1.links, p1[key])
        {
          if key != row {
            assert IdsValid(t.links, paths[key]);
          }
        }
      }
      var r := BuildFrom(nodes, rows[1..], getRoute, t1, p1);
      assert rows == [row] + rows[1..];
      if r.Ok? then
        var route := RouteOf(nodes, getRoute, row);
        MatchesExtend(t1.links, r.value.0.links, ids, route);
        assert VisitLinks(nodes, getRoute, rows) == RouteLinks(route) + VisitLinks(nodes, getRoute, rows[1..]);
        UnseenTwice(t.links, t1.links, r.value.0.links, RouteLinks(route), VisitLinks(nodes, getRoute, rows[1..]));
        assert r.value.1[row] == ids by {
          if row in rows[1..] {
            PathIsDetermined(r.value.0, ids, r.value.1[row], route);
          }
        }
        NewLinksOnPaths(r.value.1, rows, ids, |t.links|, |t1.links|, |r.value.0.links|);
        r
      else
        r
  }

  /** `Network`, with the per-link and per-node resource lists. */
  datatype Net<C(==)> = Net(
    nodes: seq<Node<C>>, links: seq<Link<C>>, paths: map<Row, seq<nat>>,
    linkIdLookup: map<Key<C>, nat>, linkVehicles: seq<seq<Vehicle>>, nodeVehicles: seq<seq<Vehicle>>)

  /**
   * The dictionary comprehension over `enumerate(links)`: each key maps to
   * an index of a link with that key, the last such index when keys repeat.
   */
  function EnumLookup<C(==,!new)>(links: seq<Link<C>>): map<Key<C>, nat>
    decreases |links|
  {
    if |links| == 0 then map[]
    else EnumLookup(links[..|links| - 1])[KeyOf(links[|links| - 1]) := |links| - 1]
  }

  /** Every link's key is in the computed lookup. */
  lemma {:induction false} EnumLookupCovers<C(!new)>(links: seq<Link<C>>)
    ensures forall i :: 0 <= i < |links| ==> KeyOf(links[i]) in EnumLookup(links)
    decreases |links|
  {
    if |links| > 0 {
      var init := links[..|links| - 1];
      EnumLookupCovers(init);
      forall i | 0 <= i < |init|
        ensures KeyOf(links[i]) in EnumLookup(init)
      {
        assert init[i] == links[i];
      }
    }
  }

  /** Each key of the computed lookup names a link with that key. */
  lemma {:induction false} EnumLookupPoints<C(!new)>(links: seq<Link<C>>)
    ensures forall k :: k in EnumLookup(links) ==>
      EnumLookup(links)[k] < |links| && KeyOf(links[EnumLookup(links)[k]]) == k
    decreases |links|
  {
    if |links| > 0 {
      var init := links[..|links| - 1];
      EnumLookupPoints(init);
      var m := EnumLookup(init);
      forall k | k in m
        ensures m[k] < |links| && KeyOf(links[m[k]]) == k
      {
        assert init[m[k]] == links[m[k]];
      }
    }
  }

  /** When keys repeat, the computed lookup keeps the last link with the key. */
  lemma {:induction false} EnumLookupLast<C(!new)>(links: seq<Link<C>>, k: Key<C>, j: nat)
    requires k in EnumLookup(links) && EnumLookup(links)[k] < j < |links|
    ensures KeyOf(links[j]) != k
    decreases |links|
  {
    var n := |links| - 1;
    var init := links[..n];
    if k != KeyOf(links[n]) && j < n {
      EnumLookupLast(init, k, j);
      assert init[j] == links[j];
    }
  }

  /**
   * `Network.__post_init__`: a lookup is computed from the links when none
   * is given, and each link and each node starts with an empty resource list.
   */
  function PostInit<C(==,!new)>(nodes: seq<Node<C>>, links: seq<Link<C>>, paths: map<Row, seq<nat>>,
                           lookup: Option<map<Key<C>, nat>>): (n: Net<C>)
    ensures n.nodes == nodes && n.links == links && n.paths == paths
    ensures lookup.Some? ==> n.linkIdLookup == lookup.value
    ensures lookup.None? ==> forall k :: k in n.linkIdLookup ==>
      n.linkIdLookup[k] < |links| && KeyOf(links[n.linkIdLookup[k]]) == k
    ensures lookup.None? ==> forall i :: 0 <= i < |links| ==> KeyOf(links[i]) in n.linkIdLookup
    ensures |n.linkVehicles| == |links| && forall i :: 0 <= i < |links| ==> n.linkVehicles[i] == []
    ensures |n.nodeVehicles| == |nodes| && forall i :: 0 <= i < |nodes| ==> n.nodeVehicles[i] == []
  {
    EnumLookupCovers(links);
    EnumLookupPoints(links);
    var m := match lookup
      case Some(m) => m
      case None => EnumLookup(links);
    Net(nodes, links, paths, m, seq(|links|, _ => []), seq(|nodes|, _ => []))
  }

  /**
   * The dictionary `build_network` hands over is the one `__post_init__`
   * would compute from the links itself.
   */
  lemma BuiltLookupIsEnumeration<C(!new)>(t: Table<C>)
    requires TableWf(t)
    ensures EnumLookup(t.links) == t.lookup
  {
    var e := EnumLookup(t.links);
    EnumLookupCovers(t.links);
    EnumLookupPoints(t.links);
    forall k | k in e
      ensures k in t.lookup && e[k] == t.lookup[k]
    {
      assert t.lookup[KeyOf(t.links[e[k]])] == e[k];
    }
    forall k | k in t.lookup
      ensures k in e
    {
      assert KeyOf(t.links[t.lookup[k]]) == k;
    }
  }

  /**
   * `build_network`: the node list in row order, then the links and paths of
   * all connectivity rows; an out-of-range node id raises IndexError. Every
   * id of every path is a link, no two links coincide, the lookup maps each
   * link's key to its own id, and each pair's path follows the route of the
   * last row naming it. The links are the segments of the rows' routes,
   * each once, in the order the rows first reach them, and every link is
   * on the path of some row.
   */
  function BuildNetwork<C(==,!new)>(nodeRows: seq<(string, C, C)>, rows: seq<Row>,
                               getRoute: (C, C, C, C) -> seq<Point<C>>): (r: Result<Net<C>>)
    ensures r.Ok? <==> RowsInRange(|nodeRows|, rows)
    ensures r.Err? ==> r.error == IndexError
    ensures r.Ok? ==> |r.value.nodes| == |nodeRows|
    ensures r.Ok? ==> forall i :: 0 <= i < |nodeRows| ==> r.value.nodes[i] == Node(nodeRows[i].0, nodeRows[i].1, nodeRows[i].2)
    ensures r.Ok? ==> TableWf(Table(r.value.links, r.value.linkIdLookup))
    ensures r.Ok? ==> forall key :: key in r.value.paths <==> key in rows
    ensures r.Ok? ==> forall key :: key in r.value.paths ==> IdsValid(r.value.links, r.value.paths[key])
    ensures r.Ok? ==> forall key :: key in rows ==>
      RowInRange(|r.value.nodes|, key) && PathMatches(r.value.links, r.value.paths[key], RouteOf(r.value.nodes, getRoute, key))
    ensures r.Ok? ==> |r.value.linkVehicles| == |r.value.links| && |r.value.nodeVehicles| == |nodeRows|
    ensures r.Ok? ==> r.value.links == Unseen([], VisitLinks(r.value.nodes, getRoute, rows))
    ensures r.Ok? ==> forall i :: 0 <= i < |r.value.links| ==> OnSomePath(r.value.paths, rows, i)
  {
    var nodes := seq(|nodeRows|, i requires 0 <= i < |nodeRows| => Node(nodeRows[i].0, nodeRows[i].1, nodeRows[i].2));
    var (t, paths) :- BuildFrom(nodes, rows, getRoute, Table([], map[]), map[]);
    var net := PostInit(nodes, t.links, paths, Some(t.lookup));
    assert net.nodes == nodes && net.links == t.links && net.paths == paths;
    assert t.links == Unseen([], VisitLinks(nodes, getRoute, rows)) by {
      assert [] + Unseen([], VisitLinks(nodes, getRoute, rows)) == Unseen([], VisitLinks(nodes, getRoute, rows));
    }
    Ok(net)
  }
}

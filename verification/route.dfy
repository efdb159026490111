/**
 * The map objects of Frontend/route.js: a `Node` with its coordinates and
 * resource amounts, a `Link` with an intensity and a two-point polyline,
 * and `combinePaths`, which adds up the intensities of the links several
 * paths share.
 */
module Route {
  import opened Base
  import JsMap

  /** A coordinate array of length 2 (longitude and latitude, or the reverse). */
  type Coord = s: seq<real> | |s| == 2 witness [0.0, 0.0]

  const SizeError: string := "Coordinates must be an array of size 2"
  const AmountError: string := "Amount must be an integer"

  datatype Node = Node(coordinates: Coord, resources: JsMap.Map<string, real>)

  /** `new Node(coordinates, resources)`: throws unless there are exactly two coordinates. */
  function NewNode(coordinates: seq<real>, resources: JsMap.Map<string, real>): (r: Result<Node>)
    ensures r.Ok? <==> |coordinates| == 2
    ensures r.Ok? ==> r.value.coordinates == coordinates && r.value.resources == resources
    ensures r.Err? ==> r.error == InvalidArgument(SizeError)
  {
    if |coordinates| != 2 then Err(InvalidArgument(SizeError))
    else Ok(Node(coordinates, resources))
  }

  /** `Number.isInteger` on a finite number. */
  predicate IsInteger(x: real) {
    x == x.Floor as real
  }

  /** `getResource(name)`: the stored amount, or 0 for a name never set. */
  function GetResource(n: Node, name: string): (amount: real)
    ensures name !in JsMap.Keys(n.resources) ==> amount == 0.0
    ensures name in JsMap.Keys(n.resources) ==> (name, amount) in n.resources.entries
  {
    match JsMap.Get(n.resources, name)
    case None => 0.0
    case Some(v) => v
  }

  /** `addResource(name, amount)`: throws for a fractional amount, otherwise stores it under the name. */
  function AddResource(n: Node, name: string, amount: real): (r: Result<Node>)
    ensures r.Ok? <==> IsInteger(amount)
    ensures r.Err? ==> r.error == InvalidArgument(AmountError)
    ensures r.Ok? ==> r.value.coordinates == n.coordinates
    ensures r.Ok? ==> JsMap.Get(r.value.resources, name) == Some(amount)
  {
    if !IsInteger(amount) then Err(InvalidArgument(AmountError))
    else Ok(n.(resources := JsMap.Set(n.resources, name, amount)))
  }

  /** After a successful `addResource`, the name reads back the amount and every other name is as it was. */
  lemma ResourceAfterAdd(n: Node, name: string, amount: real, other: string)
    requires JsMap.Wf(n.resources)
    requires IsInteger(amount)
    ensures GetResource(AddResource(n, name, amount).value, name) == amount
    ensures other != name ==> GetResource(AddResource(n, name, amount).value, other) == GetResource(n, other)
  {
    JsMap.GetAfterSet(n.resources, name, amount, other);
  }

  /**
   * A polyline array. `combinePaths` keys its map by the array object, so
   * the model gives every array an identity `id`: two links share a key
   * exactly when they share the array.
   */
  datatype Polyline = Polyline(id: nat, origin: Coord, destination: Coord)

  datatype Link = Link(intensity: real, polyline: Polyline)

  /**
   * `new Link(origin, destination, intensity)`: throws unless both ends
   * have two coordinates; the polyline is a new array `[origin, destination]`,
   * whose identity the caller supplies as `id`.
   */
  function NewLink(id: nat, origin: seq<real>, destination: seq<real>, intensity: real): (r: Result<Link>)
    ensures r.Ok? <==> |origin| == 2 && |destination| == 2
    ensures r.Err? ==> r.error == InvalidArgument(SizeError)
    ensures r.Ok? ==> r.value.intensity == intensity
    ensures r.Ok? ==> r.value.polyline.origin == origin && r.value.polyline.destination == destination
  {
    if |origin| != 2 || |destination| != 2 then Err(InvalidArgument(SizeError))
    else Ok(Link(intensity, Polyline(id, origin, destination)))
  }

  /** The links of every path, in the order the two `for … of` loops visit them. */
  function Flatten(paths: seq<seq<Link>>): (links: seq<Link>)
    ensures forall p, l :: 0 <= p < |paths| && l in paths[p] ==> l in links
  {
    if |paths| == 0 then []
    else
      var front := Flatten(paths[..|paths| - 1]);
      assert forall p :: 0 <= p < |paths| - 1 ==> paths[..|paths| - 1][p] == paths[p];
      front + paths[|paths| - 1]
  }

  /** `Math.max`. */
  function Max(a: real, b: real): real {
    if a >= b then a else b
  }

  /** The running state of the loops: the map of sums and the running maximum. */
  datatype Totals = Totals(sums: JsMap.Map<Polyline, real>, intensityMax: real)

  /**
   * The loops of `combinePaths`: add each link's intensity to the sum of
   * its polyline (`get(key) || 0`) and raise the maximum to the new sum.
   */
  function Combine(links: seq<Link>): (t: Totals)
    ensures JsMap.Wf(t.sums)
  {
    if |links| == 0 then Totals(JsMap.Empty(), 0.0)
    else
      var t := Combine(links[..|links| - 1]);
      var l := links[|links| - 1];
      var current := match JsMap.Get(t.sums, l.polyline) case None => 0.0 case Some(v) => v;
      JsMap.SetKeepsWf(t.sums, l.polyline, current + l.intensity);
      Totals(JsMap.Set(t.sums, l.polyline, current + l.intensity), Max(t.intensityMax, current + l.intensity))
  }

  /** The result of `combinePaths`: one new link per polyline, and the largest sum seen. */
  datatype Combined = Combined(links: seq<Link>, intensityMax: real)

  /**
   * `combinePaths(paths)`: a new `Link` for each entry of the map in its
   * order, on the same two points, carrying the summed intensity. The new
   * polyline arrays get the identities `next`, `next + 1`, ….
   */
  function CombinePaths(paths: seq<seq<Link>>, next: nat): (r: Combined)
    ensures |r.links| == |Combine(Flatten(paths)).sums.entries|
    ensures forall i :: 0 <= i < |r.links| ==> r.links[i].polyline.id == next + i
    ensures forall i, j :: 0 <= i < j < |r.links| ==> r.links[i].polyline != r.links[j].polyline
  {
    var t := Combine(Flatten(paths));
    var es := t.sums.entries;
    Combined(seq(|es|, i requires 0 <= i < |es| =>
                   Link(es[i].1, Polyline(next + i, es[i].0.origin, es[i].0.destination))),
             t.intensityMax)
  }

  /** The intensities of the links on polyline `p`, added up in visiting order. */
  function SumOn(links: seq<Link>, p: Polyline): real {
    if |links| == 0 then 0.0
    else
      var l := links[|links| - 1];
      SumOn(links[..|links| - 1], p) + (if l.polyline == p then l.intensity else 0.0)
  }

  /** Some link lies on polyline `p`. */
  predicate Uses(links: seq<Link>, p: Polyline) {
    exists l :: l in links && l.polyline == p
  }

  /** The map holds, for every polyline some link lies on, the sum of their intensities, and nothing else. */
  lemma {:induction false} CombineSums(links: seq<Link>, p: Polyline)
    ensures JsMap.Get(Combine(links).sums, p) == if Uses(links, p) then Some(SumOn(links, p)) else None
  {
    if |links| > 0 {
      var front := links[..|links| - 1];
      var l := links[|links| - 1];
      var t := Combine(front);
      CombineSums(front, p);
      var current := match JsMap.Get(t.sums, l.polyline) case None => 0.0 case Some(v) => v;
      UsesLast(links, p);
      if l.polyline == p {
        JsMap.GetAfterSet(t.sums, p, current + l.intensity, p);
        if !Uses(front, p) {
          NoUseSumsZero(front, p);
        }
      } else {
        JsMap.GetAfterSet(t.sums, l.polyline, current + l.intensity, p);
      }
    }
  }

  /** A link list uses `p` when its front does or its last link lies on `p`. */
  lemma UsesLast(links: seq<Link>, p: Polyline)
    requires |links| > 0
    ensures Uses(links, p) <==> Uses(links[..|links| - 1], p) || links[|links| - 1].polyline == p
  {
    var front := links[..|links| - 1];
    assert links == front + [links[|links| - 1]];
  }

  lemma {:induction false} NoUseSumsZero(links: seq<Link>, p: Polyline)
    requires !Uses(links, p)
    ensures SumOn(links, p) == 0.0
  {
    if |links| > 0 {
      UsesLast(links, p);
      NoUseSumsZero(links[..|links| - 1], p);
    }
  }

  /** The running maximum is never negative and is at least every sum in the map. */
  lemma {:induction false} MaxBoundsSums(links: seq<Link>)
    ensures Combine(links).intensityMax >= 0.0
    ensures forall e :: e in Combine(links).sums.entries ==> e.1 <= Combine(links).intensityMax
  {
    if |links| > 0 {
      var front := links[..|links| - 1];
      var l := links[|links| - 1];
      var t := Combine(front);
      MaxBoundsSums(front);
      var current := match JsMap.Get(t.sums, l.polyline) case None => 0.0 case Some(v) => v;
      var v := current + l.intensity;
      var r := Combine(links);
      forall e | e in r.sums.entries
        ensures e.1 <= r.intensityMax
      {
        var i :| 0 <= i < |r.sums.entries| && r.sums.entries[i] == e;
        if e.0 == l.polyline {
          JsMap.GetFindsEntry(r.sums, e.0, e.1);
          JsMap.GetAfterSet(t.sums, l.polyline, v, l.polyline);
        } else {
          JsMap.GetFindsEntry(r.sums, e.0, e.1);
          JsMap.GetAfterSet(t.sums, l.polyline, v, e.0);
          JsMap.GetFindsEntry(t.sums, e.0, e.1);
        }
      }
    }
  }

  /**
   * With no negative intensity, sums only grow, so the maximum is either
   * the initial 0 or the final sum of some polyline.
   */
  lemma {:induction false} MaxIsAttained(links: seq<Link>)
    requires forall i :: 0 <= i < |links| ==> links[i].intensity >= 0.0
    ensures Combine(links).intensityMax == 0.0 ||
      exists e :: e in Combine(links).sums.entries && e.1 == Combine(links).intensityMax
  {
    if |links| > 0 {
      var front := links[..|links| - 1];
      var l := links[|links| - 1];
      var t := Combine(front);
      MaxIsAttained(front);
      var current := match JsMap.Get(t.sums, l.polyline) case None => 0.0 case Some(v) => v;
      var v := current + l.intensity;
      if v >= t.intensityMax {
        JsMap.SetHolds(t.sums, l.polyline, v);
      } else if t.intensityMax != 0.0 {
        var e :| e in t.sums.entries && e.1 == t.intensityMax;
        assert e.0 != l.polyline by {
          JsMap.GetFindsEntry(t.sums, e.0, e.1);
        }
        JsMap.SetKeeps(t.sums, l.polyline, v, e);
      }
    }
  }

  /**
   * Each new link of `combinePaths` stands for one polyline of the input:
   * the same two points, and the sum of the intensities of the links on it.
   */
  lemma CombinedLinkSums(paths: seq<seq<Link>>, next: nat, i: nat)
    requires i < |CombinePaths(paths, next).links|
    ensures var p := JsMap.Keys(Combine(Flatten(paths)).sums)[i];
      && Uses(Flatten(paths), p)
      && CombinePaths(paths, next).links[i].intensity == SumOn(Flatten(paths), p)
      && CombinePaths(paths, next).links[i].polyline.origin == p.origin
      && CombinePaths(paths, next).links[i].polyline.destination == p.destination
  {
    var links := Flatten(paths);
    var t := Combine(links);
    var e := t.sums.entries[i];
    JsMap.GetFindsEntry(t.sums, e.0, e.1);
    CombineSums(links, e.0);
  }

  /** Every polyline of the input gets exactly one new link: the map's keys are its polylines, once each. */
  lemma EveryPolylineCombined(paths: seq<seq<Link>>, p: Polyline)
    ensures p in JsMap.Keys(Combine(Flatten(paths)).sums) <==> Uses(Flatten(paths), p)
    ensures JsMap.Wf(Combine(Flatten(paths)).sums)
  {
    CombineSums(Flatten(paths), p);
  }

  /** `intensity_max` is never negative and is at least the intensity of every new link. */
  lemma CombinedMaxBounds(paths: seq<seq<Link>>, next: nat)
    ensures CombinePaths(paths, next).intensityMax >= 0.0
    ensures forall i :: 0 <= i < |CombinePaths(paths, next).links| ==>
      CombinePaths(paths, next).links[i].intensity <= CombinePaths(paths, next).intensityMax
  {
    var t := Combine(Flatten(paths));
    MaxBoundsSums(Flatten(paths));
    forall i | 0 <= i < |CombinePaths(paths, next).links|
      ensures CombinePaths(paths, next).links[i].intensity <= CombinePaths(paths, next).intensityMax
    {
      assert t.sums.entries[i] in t.sums.entries;
    }
  }

  /** With no negative intensity, `intensity_max` is 0 or the intensity of one of the new links. */
  lemma CombinedMaxAttained(paths: seq<seq<Link>>, next: nat)
    requires forall l :: l in Flatten(paths) ==> l.intensity >= 0.0
    ensures CombinePaths(paths, next).intensityMax == 0.0 ||
      exists i :: 0 <= i < |CombinePaths(paths, next).links| &&
        CombinePaths(paths, next).links[i].intensity == CombinePaths(paths, next).intensityMax
  {
    var flat := Flatten(paths);
    var t := Combine(flat);
    var r := CombinePaths(paths, next);
    forall i | 0 <= i < |flat|
      ensures flat[i].intensity >= 0.0
    {
      assert flat[i] in flat;
    }
    MaxIsAttained(flat);
    if r.intensityMax != 0.0 {
      var e :| e in t.sums.entries && e.1 == t.intensityMax;
      var i :| 0 <= i < |t.sums.entries| && t.sums.entries[i] == e;
      assert r.links[i].intensity == e.1;
    }
  }
}

/**
 * The query-string helpers of Frontend/utils.js: `addParameter` appends one
 * `name=value` pair to a URL, and `filterVisibleLayers` lists the layers
 * switched on. The pair is serialised by `URLSearchParams`, i.e. the
 * application/x-www-form-urlencoded serializer of section 5.2 of the WHATWG
 * URL Standard, applied to the name and to the JSON text of the value; both
 * the serializer (`encode`) and the JSON text are given to the model.
 */
module Query {
  import opened Base

  /** The separator `addParameter` puts before the pair: `?` for a URL without one, else `&`. */
  function Separator(url: string): (c: char)
    ensures c == '?' <==> '?' !in url
    ensures c == '&' <==> '?' in url
  {
    if '?' in url then '&' else '?'
  }

  /** `params.toString()` for a single pair: the serialised name, `=`, the serialised value. */
  function Pair(name: string, json: string, encode: string -> string): string {
    encode(name) + "=" + encode(json)
  }

  /** `addParameter(url, name, value)`, with `json` the text `JSON.stringify(value)` gives. */
  function AddParameter(url: string, name: string, json: string, encode: string -> string): (r: string)
    ensures |r| == |url| + 1 + |Pair(name, json, encode)|
    ensures r[..|url|] == url
    ensures r[|url|] == Separator(url)
    ensures r[|url| + 1..] == Pair(name, json, encode)
  {
    url + [Separator(url)] + Pair(name, json, encode)
  }

  /** The position of the first `?` in a text that has one. */
  function FirstMark(s: string): (i: nat)
    requires '?' in s
    ensures i < |s| && s[i] == '?' && '?' !in s[..i]
  {
    if s[0] == '?' then 0
    else
      assert '?' in s[1..] by {
        var k :| 0 <= k < |s| && s[k] == '?';
        assert s[1..][k - 1] == '?';
      }
      var i := 1 + FirstMark(s[1..]);
      assert s[..i] == [s[0]] + s[1..][..i - 1];
      i
  }

  /** The query of a URL: the text after its first `?`, or None when there is none. */
  function QueryOf(url: string): Option<string> {
    if '?' in url then Some(url[FirstMark(url) + 1..]) else None
  }

  lemma MarkInPrefix(url: string, rest: string)
    requires '?' in url
    ensures '?' in url + rest && FirstMark(url + rest) == FirstMark(url)
  {
    var i := FirstMark(url);
    var s := url + rest;
    assert s[i] == '?';
    var j := FirstMark(s);
    assert s[..i] == url[..i];
  }

  lemma MarkAfterPrefix(url: string, rest: string)
    requires '?' !in url
    requires |rest| > 0 && rest[0] == '?'
    ensures '?' in url + rest && FirstMark(url + rest) == |url|
  {
    var s := url + rest;
    assert s[|url|] == '?';
    assert s[..|url|] == url;
  }

  /**
   * The server reads back the pair: a URL without a query gains the query
   * holding just the pair; a URL with one has the pair joined to it by `&`.
   */
  lemma QueryAfterAdd(url: string, name: string, json: string, encode: string -> string)
    ensures QueryOf(AddParameter(url, name, json, encode)) ==
      match QueryOf(url)
      case None => Some(Pair(name, json, encode))
      case Some(q) => Some(q + "&" + Pair(name, json, encode))
  {
    var r := AddParameter(url, name, json, encode);
    var rest := [Separator(url)] + Pair(name, json, encode);
    assert r == url + rest;
    if '?' in url {
      MarkInPrefix(url, rest);
      var i := FirstMark(url);
      assert r[i + 1..] == url[i + 1..] + "&" + Pair(name, json, encode);
    } else {
      MarkAfterPrefix(url, rest);
    }
  }

  /**
   * Two parameters added to a URL without a query, as `fetchSnapshot`,
   * `fetchNodeInfo` and `fetchLinkInfo` do, give the query of both pairs.
   */
  lemma TwoParameters(url: string, name1: string, json1: string, name2: string, json2: string, encode: string -> string)
    requires '?' !in url
    ensures QueryOf(AddParameter(AddParameter(url, name1, json1, encode), name2, json2, encode)) ==
      Some(Pair(name1, json1, encode) + "&" + Pair(name2, json2, encode))
  {
    QueryAfterAdd(url, name1, json1, encode);
    QueryAfterAdd(AddParameter(url, name1, json1, encode), name2, json2, encode);
  }

  /**
   * The positions of the layers switched on, ascending. The layers come in
   * the order `Object.keys` lists them, each with its visibility flag.
   */
  function VisiblePositions(layers: seq<(string, bool)>): (pos: seq<nat>)
    ensures forall a, b :: 0 <= a < b < |pos| ==> pos[a] < pos[b]
    ensures forall a :: 0 <= a < |pos| ==> pos[a] < |layers|
    ensures forall i :: 0 <= i < |layers| ==> (layers[i].1 <==> i in pos)
  {
    if |layers| == 0 then []
    else
      var front := VisiblePositions(layers[..|layers| - 1]);
      var n := |layers| - 1;
      assert forall i :: 0 <= i < n ==> layers[..n][i] == layers[i];
      if layers[n].1 then front + [n] else front
  }

  /**
   * `filterVisibleLayers(layerVisibility)`: the keys whose flag is set, in
   * key order — exactly the keys at the visible positions.
   */
  function FilterVisibleLayers(layers: seq<(string, bool)>): (r: seq<string>)
    ensures |r| == |VisiblePositions(layers)|
    ensures forall a :: 0 <= a < |r| ==> r[a] == layers[VisiblePositions(layers)[a]].0
  {
    if |layers| == 0 then []
    else
      var n := |layers| - 1;
      var front := FilterVisibleLayers(layers[..n]);
      assert forall a :: 0 <= a < |front| ==> front[a] == layers[VisiblePositions(layers[..n])[a]].0;
      if layers[n].1 then front + [layers[n].0] else front
  }

  /** A layer name is listed exactly when some entry with that name is switched on. */
  lemma VisibleIffOn(layers: seq<(string, bool)>, name: string)
    ensures name in FilterVisibleLayers(layers) <==> (name, true) in layers
  {
    var r := FilterVisibleLayers(layers);
    var pos := VisiblePositions(layers);
    if name in r {
      var a :| 0 <= a < |r| && r[a] == name;
      assert layers[pos[a]] == (name, true);
    }
    if (name, true) in layers {
      var i :| 0 <= i < |layers| && layers[i] == (name, true);
      var a :| 0 <= a < |pos| && pos[a] == i;
      assert r[a] == name;
    }
  }
}

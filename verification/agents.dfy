/**
 * The negotiation agents of Server/agents.py and the files under Server/Agents.
 *
 * The source wires agents by object reference (a shipper holds its LSPs, an
 * LSP holds its carriers). Here one `Registry` owns all agents and the
 * relations are lists of positions in it.
 */
module Agents {
  import opened Base

  /** The hourly price every carrier charges (`price = 100`). */
  const Price: real := 100.0

  /** The speed every carrier estimates with (`estimated_average_speed = 50`). */
  const EstimatedSpeed: real := 50.0

  datatype Carrier = Carrier(
    id: int,
    assignedContainers: seq<int>,
    totalDistance: real,
    totalTravelTime: real,
    estimatedAverageSpeed: real)

  datatype Lsp = Lsp(
    id: int,
    carriers: seq<nat>,
    containersNotDeparted: seq<int>,
    containersInTransit: seq<int>,
    containersDelivered: seq<int>)

  datatype Shipper = Shipper(id: int, lspList: seq<nat>)

  datatype Registry = Registry(shippers: seq<Shipper>, lsps: seq<Lsp>, carriers: seq<Carrier>)

  /** A quote is the pair an agent answers with: a carrier id and a price. */
  type Quote = (int, real)

  function NewCarrier(id: int): Carrier {
    Carrier(id, [], 0.0, 0.0, EstimatedSpeed)
  }

  function NewLsp(id: int): Lsp {
    Lsp(id, [], [], [], [])
  }

  function NewShipper(id: int): Shipper {
    Shipper(id, [])
  }

  /** Every relation points into the registry and every carrier has a usable speed. */
  ghost predicate Wf(reg: Registry) {
    && (forall s :: s in reg.shippers ==> ValidLsps(reg, s.lspList))
    && (forall p :: p in reg.lsps ==> LspWf(reg, p))
    && (forall c :: c in reg.carriers ==> c.estimatedAverageSpeed > 0.0)
  }

  ghost predicate LspWf(reg: Registry, lsp: Lsp) {
    forall i :: 0 <= i < |lsp.carriers| ==>
      lsp.carriers[i] < |reg.carriers| && reg.carriers[lsp.carriers[i]].estimatedAverageSpeed > 0.0
  }

  ghost predicate ValidLsps(reg: Registry, lsps: seq<nat>) {
    forall i :: 0 <= i < |lsps| ==> lsps[i] < |reg.lsps|
  }

  /**
   * `Carrier.quota`: the travel time at the estimated speed times the hourly
   * price. The request enters only through its distance; the simulation
   * environment argument is unused.
   */
  function Quota(c: Carrier, distance: real): (price: real)
    requires c.estimatedAverageSpeed > 0.0
    ensures price * c.estimatedAverageSpeed == distance * Price
    ensures c.estimatedAverageSpeed == EstimatedSpeed ==> price == 2.0 * distance
  {
    distance / c.estimatedAverageSpeed * Price
  }

  /** A quote never falls below zero for a real distance and grows with it. */
  lemma QuotaMonotone(c: Carrier, d1: real, d2: real)
    requires c.estimatedAverageSpeed > 0.0
    requires 0.0 <= d1 <= d2
    ensures 0.0 <= Quota(c, d1) <= Quota(c, d2)
  {
  }

  function Prices(quotes: seq<Quote>): (r: seq<real>)
    ensures |r| == |quotes|
    ensures forall i :: 0 <= i < |quotes| ==> r[i] == quotes[i].1
  {
    seq(|quotes|, i requires 0 <= i < |quotes| => quotes[i].1)
  }

  /**
   * `chosen` is what `min(quotes, key=lambda x: x[1])` returns: a quote
   * with the least price, and the earliest one among equal prices.
   */
  ghost predicate SelectsFirstCheapest(quotes: seq<Quote>, chosen: Quote) {
    && chosen in quotes
    && (forall q :: q in quotes ==> chosen.1 <= q.1)
    && (forall i :: 0 <= i < |quotes| && quotes[i].1 == chosen.1 ==>
          quotes[i] == chosen || exists j :: 0 <= j < i && quotes[j] == chosen)
  }

  /** Python's `min` by price; an empty list raises. */
  function MinQuote(quotes: seq<Quote>): (r: Result<Quote>)
    ensures r.Ok? <==> |quotes| > 0
    ensures r.Ok? ==> SelectsFirstCheapest(quotes, r.value)
    ensures r.Err? ==> r.error == EmptyArgument
  {
    var k :- FirstMin(Prices(quotes));
    assert forall i :: 0 <= i < |quotes| && quotes[i].1 == quotes[k].1 ==> k <= i;
    Ok(quotes[k])
  }

  /** One quote per carrier of the LSP, in list order. */
  function CarrierQuotes(reg: Registry, lsp: Lsp, distance: real): (r: seq<Quote>)
    requires LspWf(reg, lsp)
    ensures |r| == |lsp.carriers|
    ensures forall i :: 0 <= i < |r| ==>
      r[i] == (reg.carriers[lsp.carriers[i]].id, Quota(reg.carriers[lsp.carriers[i]], distance))
  {
    seq(|lsp.carriers|, i requires 0 <= i < |lsp.carriers| =>
      (reg.carriers[lsp.carriers[i]].id, Quota(reg.carriers[lsp.carriers[i]], distance)))
  }

  /**
   * `LSP.process_request` (selection only): the id of the carrier with the
   * first least quote, with that quote. The LSP itself is not changed.
   */
  function ProcessRequest(reg: Registry, lsp: Lsp, distance: real): (r: Result<Quote>)
    requires LspWf(reg, lsp)
    ensures r.Ok? <==> |lsp.carriers| > 0
    ensures r.Ok? ==> SelectsFirstCheapest(CarrierQuotes(reg, lsp, distance), r.value)
    ensures r.Err? ==> r.error == EmptyArgument
  {
    MinQuote(CarrierQuotes(reg, lsp, distance))
  }

  /** Every LSP named in the list has at least one carrier. */
  ghost predicate AllServed(reg: Registry, lsps: seq<nat>)
    requires ValidLsps(reg, lsps)
  {
    forall i :: 0 <= i < |lsps| ==> |reg.lsps[lsps[i]].carriers| > 0
  }

  /** The shipper's quote collection: one `process_request` answer per LSP, in list order. */
  function CollectQuotes(reg: Registry, lsps: seq<nat>, distance: real): (r: Result<seq<Quote>>)
    requires Wf(reg)
    requires ValidLsps(reg, lsps)
    ensures r.Ok? <==> AllServed(reg, lsps)
    ensures r.Ok? ==> |r.value| == |lsps|
    ensures r.Ok? ==> forall i :: 0 <= i < |lsps| ==>
      ProcessRequest(reg, reg.lsps[lsps[i]], distance) == Ok(r.value[i])
    ensures r.Err? ==> r.error == EmptyArgument
    decreases |lsps|
  {
    if |lsps| == 0 then Ok([])
    else
      assert reg.lsps[lsps[0]] in reg.lsps;
      var first :- ProcessRequest(reg, reg.lsps[lsps[0]], distance);
      var rest :- CollectQuotes(reg, lsps[1..], distance);
      assert forall i :: 1 <= i < |lsps| ==> lsps[i] == lsps[1..][i - 1];
      Ok([first] + rest)
  }

  /** The outcome of `process_dispatch_request`: the chosen carrier and the wait requested. */
  datatype Dispatch = Dispatch(selected: int, wait: int)

  /**
   * `Shipper.process_dispatch_request`: ask every LSP, keep the first
   * cheapest answer and take its first component (the carrier that LSP
   * chose), then wait until the time window opens. The simulation library
   * rejects a negative wait.
   */
  function ProcessDispatchRequest(reg: Registry, shipper: Shipper, distance: real, windowStart: int, now: int): (r: Result<Dispatch>)
    requires Wf(reg)
    requires ValidLsps(reg, shipper.lspList)
    ensures r.Ok? <==> |shipper.lspList| > 0 && AllServed(reg, shipper.lspList) && now <= windowStart
    ensures r.Ok? ==> r.value.wait == windowStart - now
    ensures r.Ok? ==>
      && CollectQuotes(reg, shipper.lspList, distance).Ok?
      && SelectsFirstCheapest(CollectQuotes(reg, shipper.lspList, distance).value,
                              MinQuote(CollectQuotes(reg, shipper.lspList, distance).value).value)
      && r.value.selected == MinQuote(CollectQuotes(reg, shipper.lspList, distance).value).value.0
  {
    var quotes :- CollectQuotes(reg, shipper.lspList, distance);
    var best :- MinQuote(quotes);
    if windowStart - now < 0 then Err(InvalidArgument("Negative delay"))
    else Ok(Dispatch(best.0, windowStart - now))
  }

  /** `Carrier.assign_container`. */
  function AssignContainer(c: Carrier, container: int, distance: real, travelTime: real): (r: Carrier)
    ensures r.assignedContainers == c.assignedContainers + [container]
    ensures r.totalDistance - c.totalDistance == distance
    ensures r.totalTravelTime - c.totalTravelTime == travelTime
    ensures r.id == c.id && r.estimatedAverageSpeed == c.estimatedAverageSpeed
  {
    c.(assignedContainers := c.assignedContainers + [container],
       totalDistance := c.totalDistance + distance,
       totalTravelTime := c.totalTravelTime + travelTime)
  }

  /** One call of `assign_container`: the container with its distance and travel time. */
  datatype Assignment = Assignment(container: int, distance: real, travelTime: real)

  function AssignAll(c: Carrier, xs: seq<Assignment>): Carrier
    decreases |xs|
  {
    if |xs| == 0 then c else AssignAll(AssignContainer(c, xs[0].container, xs[0].distance, xs[0].travelTime), xs[1..])
  }

  function Containers(xs: seq<Assignment>): (r: seq<int>)
    ensures |r| == |xs|
    ensures forall i :: 0 <= i < |xs| ==> r[i] == xs[i].container
  {
    seq(|xs|, i requires 0 <= i < |xs| => xs[i].container)
  }

  function SumDistance(xs: seq<Assignment>): real {
    if |xs| == 0 then 0.0 else xs[0].distance + SumDistance(xs[1..])
  }

  function SumTravelTime(xs: seq<Assignment>): real {
    if |xs| == 0 then 0.0 else xs[0].travelTime + SumTravelTime(xs[1..])
  }

  /**
   * After any sequence of assignments to a new carrier, its list is the
   * assigned containers in call order and its totals are the sums of the
   * arguments.
   */
  lemma {:induction false} AssignAllTotals(c: Carrier, xs: seq<Assignment>)
    ensures AssignAll(c, xs).assignedContainers == c.assignedContainers + Containers(xs)
    ensures AssignAll(c, xs).totalDistance == c.totalDistance + SumDistance(xs)
    ensures AssignAll(c, xs).totalTravelTime == c.totalTravelTime + SumTravelTime(xs)
    decreases |xs|
  {
    if |xs| > 0 {
      var c1 := AssignContainer(c, xs[0].container, xs[0].distance, xs[0].travelTime);
      AssignAllTotals(c1, xs[1..]);
      assert Containers(xs) == [xs[0].container] + Containers(xs[1..]);
    }
  }

  lemma NewCarrierAfterAssignments(id: int, xs: seq<Assignment>)
    ensures AssignAll(NewCarrier(id), xs).assignedContainers == Containers(xs)
    ensures |AssignAll(NewCarrier(id), xs).assignedContainers| == |xs|
    ensures AssignAll(NewCarrier(id), xs).totalDistance == SumDistance(xs)
    ensures AssignAll(NewCarrier(id), xs).totalTravelTime == SumTravelTime(xs)
  {
    AssignAllTotals(NewCarrier(id), xs);
  }

  /** Fresh carriers with ids 0..n-1. */
  function FreshCarriers(n: nat): (r: seq<Carrier>)
    ensures |r| == n
    ensures forall i :: 0 <= i < n ==> r[i] == Carrier(i, [], 0.0, 0.0, EstimatedSpeed)
  {
    seq(n, i => NewCarrier(i))
  }

  /** Fresh LSPs with ids 0..n-1, LSP 0 given carriers [0, 1] and LSP 1 carriers [2, 3]. */
  function WiredLsps(n: nat): (r: seq<Lsp>)
    requires n >= 2
    ensures |r| == n
    ensures r[0].carriers == [0, 1] && r[1].carriers == [2, 3]
    ensures forall i :: 2 <= i < n ==> r[i].carriers == []
    ensures forall i :: 0 <= i < n ==>
      r[i].id == i && r[i].containersNotDeparted == [] &&
      r[i].containersInTransit == [] && r[i].containersDelivered == []
  {
    var lsps := seq(n, i => NewLsp(i));
    lsps[0 := lsps[0].(carriers := [0, 1])][1 := lsps[1].(carriers := [2, 3])]
  }

  /** Fresh shippers with ids 0..n-1, shipper 0 given LSPs [0, 1]. */
  function WiredShippers(n: nat): (r: seq<Shipper>)
    requires n >= 1
    ensures |r| == n
    ensures r[0].lspList == [0, 1]
    ensures forall i :: 1 <= i < n ==> r[i].lspList == []
    ensures forall i :: 0 <= i < n ==> r[i].id == i
  {
    var shippers := seq(n, i => NewShipper(i));
    shippers[0 := shippers[0].(lspList := [0, 1])]
  }

  /**
   * `generate_and_assign_agents`: `n` fresh agents of each kind with ids
   * 0..n-1, then the fixed wiring shipper 0 -> LSPs [0, 1],
   * LSP 0 -> carriers [0, 1], LSP 1 -> carriers [2, 3]. Too few agents of
   * a kind make one of those subscripts raise IndexError.
   */
  function GenerateAndAssignAgents(numShippers: int, numLsps: int, numCarriers: int): (r: Result<Registry>)
    ensures r.Ok? <==> numShippers >= 1 && numLsps >= 2 && numCarriers >= 4
    ensures r.Err? ==> r.error == IndexError
    ensures r.Ok? ==> Wf(r.value)
    ensures r.Ok? ==> |r.value.shippers| == numShippers && |r.value.lsps| == numLsps && |r.value.carriers| == numCarriers
    ensures r.Ok? ==> r.value.shippers[0].lspList == [0, 1]
    ensures r.Ok? ==> r.value.lsps[0].carriers == [0, 1] && r.value.lsps[1].carriers == [2, 3]
    ensures r.Ok? ==> forall i :: 1 <= i < numShippers ==> r.value.shippers[i].lspList == []
    ensures r.Ok? ==> forall i :: 2 <= i < numLsps ==> r.value.lsps[i].carriers == []
    ensures r.Ok? ==> forall i :: 0 <= i < numShippers ==> r.value.shippers[i].id == i
    ensures r.Ok? ==> forall i :: 0 <= i < numLsps ==>
      r.value.lsps[i].id == i && r.value.lsps[i].containersNotDeparted == [] &&
      r.value.lsps[i].containersInTransit == [] && r.value.lsps[i].containersDelivered == []
    ensures r.Ok? ==> forall i :: 0 <= i < numCarriers ==>
      r.value.carriers[i] == Carrier(i, [], 0.0, 0.0, EstimatedSpeed)
  {
    if numShippers < 1 || numLsps < 2 || numCarriers < 4 then Err(IndexError)
    else
      var reg := Registry(WiredShippers(numShippers), WiredLsps(numLsps), FreshCarriers(numCarriers));
      assert forall c :: c in reg.carriers ==> c.estimatedAverageSpeed > 0.0;
      assert forall p :: p in reg.lsps ==> LspWf(reg, p) by {
        forall p | p in reg.lsps
          ensures LspWf(reg, p)
        {
          var i :| 0 <= i < |reg.lsps| && reg.lsps[i] == p;
          assert p.carriers == [] || p.carriers == [0, 1] || p.carriers == [2, 3];
        }
      }
      assert forall s :: s in reg.shippers ==> ValidLsps(reg, s.lspList) by {
        forall s | s in reg.shippers
          ensures ValidLsps(reg, s.lspList)
        {
          var i :| 0 <= i < |reg.shippers| && reg.shippers[i] == s;
          assert s.lspList == [] || s.lspList == [0, 1];
        }
      }
      Ok(reg)
  }

  /** Among quotes of one price, Python's `min` keeps the first. */
  lemma FirstOfTies(quotes: seq<Quote>)
    requires |quotes| > 0
    requires forall i :: 0 <= i < |quotes| ==> quotes[i].1 == quotes[0].1
    ensures MinQuote(quotes) == Ok(quotes[0])
  {
  }

  /** An LSP whose carriers all use the standard speed picks its first carrier, at twice the distance. */
  lemma StandardCarriersTie(reg: Registry, lsp: Lsp, distance: real)
    requires LspWf(reg, lsp) && |lsp.carriers| > 0
    requires forall i :: 0 <= i < |lsp.carriers| ==> reg.carriers[lsp.carriers[i]].estimatedAverageSpeed == EstimatedSpeed
    ensures ProcessRequest(reg, lsp, distance) == Ok((reg.carriers[lsp.carriers[0]].id, 2.0 * distance))
  {
    FirstOfTies(CarrierQuotes(reg, lsp, distance));
  }

  /** The registry `generate_and_assign_agents` wires: the facts the selection depends on. */
  ghost predicate FixedWiring(reg: Registry) {
    && Wf(reg)
    && |reg.shippers| >= 1 && reg.shippers[0].lspList == [0, 1]
    && |reg.lsps| >= 2 && reg.lsps[0].carriers == [0, 1] && reg.lsps[1].carriers == [2, 3]
    && |reg.carriers| >= 4 && reg.carriers[0].id == 0 && reg.carriers[2].id == 2
    && (forall c :: c in reg.carriers ==> c.estimatedAverageSpeed == EstimatedSpeed)
  }

  lemma FixedWiringSelects(reg: Registry, distance: real, windowStart: int, now: int)
    requires FixedWiring(reg)
    requires now <= windowStart
    ensures ProcessDispatchRequest(reg, reg.shippers[0], distance, windowStart, now) == Ok(Dispatch(0, windowStart - now))
  {
    var quotes := FixedWiringQuotes(reg, distance);
    FirstOfTies(quotes);
    var r := ProcessDispatchRequest(reg, reg.shippers[0], distance, windowStart, now);
    assert r.Ok?;
    assert r.value.selected == 0;
  }

  /** With the fixed wiring, LSP 0 answers carrier 0 and LSP 1 carrier 2, both at twice the distance. */
  lemma FixedWiringQuotes(reg: Registry, distance: real) returns (quotes: seq<Quote>)
    requires FixedWiring(reg)
    ensures CollectQuotes(reg, [0, 1], distance) == Ok(quotes)
    ensures quotes == [(0, 2.0 * distance), (2, 2.0 * distance)]
  {
    assert reg.lsps[0] in reg.lsps && reg.lsps[1] in reg.lsps;
    assert reg.carriers[0] in reg.carriers && reg.carriers[1] in reg.carriers;
    assert reg.carriers[2] in reg.carriers && reg.carriers[3] in reg.carriers;
    StandardCarriersTie(reg, reg.lsps[0], distance);
    StandardCarriersTie(reg, reg.lsps[1], distance);
    quotes := CollectQuotes(reg, [0, 1], distance).value;
  }

  /**
   * Every carrier quotes twice the distance, so with the fixed wiring the
   * shipper's choice always ends at carrier 0: LSP 0 wins the tie between
   * the LSPs and carrier 0 wins the tie inside LSP 0.
   */
  lemma FixedWiringSelectsCarrierZero(numShippers: int, numLsps: int, numCarriers: int, distance: real, windowStart: int, now: int)
    requires GenerateAndAssignAgents(numShippers, numLsps, numCarriers).Ok?
    requires now <= windowStart
    ensures var reg := GenerateAndAssignAgents(numShippers, numLsps, numCarriers).value;
      ProcessDispatchRequest(reg, reg.shippers[0], distance, windowStart, now) == Ok(Dispatch(0, windowStart - now))
  {
    var reg := GenerateAndAssignAgents(numShippers, numLsps, numCarriers).value;
    assert FixedWiring(reg) by {
      assert forall c :: c in reg.carriers ==> c.estimatedAverageSpeed == EstimatedSpeed;
    }
    FixedWiringSelects(reg, distance, windowStart, now);
  }
}

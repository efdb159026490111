/**
 * The simulation environment of Server/environment.py: a clock, the
 * requests, the agents, the truck location matrix and a priority queue of
 * events, advanced one time unit per `step`.
 *
 * Events are `(timestamp, kind, request id)`. The queue is kept in insertion
 * order; it hands out an event of least timestamp, the earliest inserted
 * among equal timestamps (the source's heap leaves that choice to its
 * layout). The shipper's delivery-time answer that `spawn_vehicle` asks for
 * is the parameter `contact`.
 */
module Environment {
  import opened Base
  import opened Matrix
  import Agents

  /** The agent counts `build_environment` uses. */
  const NumShippers: int := 1
  const NumLsps: int := 2
  const NumCarriers: int := 4

  datatype Kind = Spawn | Dispatch | Delivery | Unrecognised

  datatype EnvEvent = EnvEvent(timestamp: int, kind: Kind, requestId: int)

  datatype Request = Request(
    id: int,
    origin: int,
    destination: int,
    amount: int,
    price: int,
    timeWindow: (int, int),
    selectedShipper: int,
    distance: real)

  type Queue = seq<EnvEvent>

  datatype Env = Env(time: int, requests: seq<Request>, agents: Agents.Registry, trucks: Mat, events: Queue)

  // ---------------------------------------------------------------------
  // Counting events

  function Count(q: Queue, p: EnvEvent -> bool): nat {
    if |q| == 0 then 0 else (if p(q[0]) then 1 else 0) + Count(q[1..], p)
  }

  predicate IsSpawn(e: EnvEvent) {
    e.kind == Spawn
  }

  /** Spawn events still waiting: each one will add a truck to the matrix. */
  function SpawnCount(q: Queue): nat {
    Count(q, IsSpawn)
  }

  /** Events due at or before time `t`. */
  function DueBy(t: int): EnvEvent -> bool {
    (e: EnvEvent) => e.timestamp <= t
  }

  function DueCount(q: Queue, t: int): nat {
    Count(q, DueBy(t))
  }

  lemma {:induction false} CountConcat(a: Queue, b: Queue, p: EnvEvent -> bool)
    ensures Count(a + b, p) == Count(a, p) + Count(b, p)
    decreases |a|
  {
    if |a| > 0 {
      assert (a + b)[0] == a[0];
      assert (a + b)[1..] == a[1..] + b;
      CountConcat(a[1..], b, p);
    } else {
      assert a + b == b;
    }
  }

  /** Taking the event at `k` out of a queue takes its share out of the count. */
  lemma CountRemove(b: Queue, k: nat, p: EnvEvent -> bool)
    requires k < |b|
    ensures Count(b, p) == (if p(b[k]) then 1 else 0) + Count(b[..k] + b[k + 1..], p)
  {
    var front, back := b[..k], b[k + 1..];
    assert b == front + ([b[k]] + back);
    CountConcat(front, [b[k]] + back, p);
    assert ([b[k]] + back)[1..] == back;
    CountConcat(front, back, p);
  }

  lemma MultisetRemove(b: Queue, k: nat)
    requires k < |b|
    ensures multiset(b[..k] + b[k + 1..]) == multiset(b) - multiset{b[k]}
  {
    assert b == b[..k] + [b[k]] + b[k + 1..];
  }

  /** A count depends only on which events the queue holds, not on their order. */
  lemma {:induction false} CountMultiset(a: Queue, b: Queue, p: EnvEvent -> bool)
    requires multiset(a) == multiset(b)
    ensures Count(a, p) == Count(b, p)
    decreases |a|
  {
    if |a| == 0 {
      assert |b| == |multiset(b)| == 0;
    } else {
      assert a[0] in multiset(b);
      var k :| 0 <= k < |b| && b[k] == a[0];
      MultisetRemove(b, k);
      assert multiset(a[1..]) == multiset(a) - multiset{a[0]} by {
        assert a == [a[0]] + a[1..];
      }
      CountMultiset(a[1..], b[..k] + b[k + 1..], p);
      CountRemove(b, k, p);
    }
  }

  // ---------------------------------------------------------------------
  // The event queue (`EventQueue`, a `queue.PriorityQueue`)

  ghost predicate IsEarliest(q: Queue, k: nat) {
    k < |q| && forall j :: 0 <= j < |q| ==> q[k].timestamp <= q[j].timestamp
  }

  function EarliestFrom(q: Queue, best: nat, i: nat): (k: nat)
    requires best < i <= |q|
    requires forall j :: 0 <= j < i ==> q[best].timestamp <= q[j].timestamp
    ensures IsEarliest(q, k)
    decreases |q| - i
  {
    if i == |q| then best
    else if q[i].timestamp < q[best].timestamp then EarliestFrom(q, i, i + 1)
    else EarliestFrom(q, best, i + 1)
  }

  function Earliest(q: Queue): (k: nat)
    requires |q| > 0
    ensures IsEarliest(q, k)
  {
    EarliestFrom(q, 0, 1)
  }

  /** `EventQueue.peek`: None when empty, else an event no other event precedes; the queue is untouched. */
  function Peek(q: Queue): (r: Option<EnvEvent>)
    ensures r.None? <==> |q| == 0
    ensures r.Some? ==> r.value in q && forall e :: e in q ==> r.value.timestamp <= e.timestamp
  {
    if |q| == 0 then None else Some(q[Earliest(q)])
  }

  /** `queue.get()`: the event `peek` shows, and the queue without exactly that one. */
  function Pop(q: Queue): (r: (EnvEvent, Queue))
    requires |q| > 0
    ensures Peek(q) == Some(r.0)
    ensures multiset(r.1) + multiset{r.0} == multiset(q)
    ensures |r.1| == |q| - 1
  {
    var k := Earliest(q);
    assert q == q[..k] + [q[k]] + q[k + 1..];
    (q[k], q[..k] + q[k + 1..])
  }

  /** `queue.put()`. */
  function Put(q: Queue, e: EnvEvent): (r: Queue)
    ensures multiset(r) == multiset(q) + multiset{e}
    ensures |r| == |q| + 1 && r[..|q|] == q && r[|q|] == e
  {
    q + [e]
  }

  lemma {:induction false} CountNone(q: Queue, p: EnvEvent -> bool)
    requires forall x :: x in q ==> !p(x)
    ensures Count(q, p) == 0
    decreases |q|
  {
    if |q| > 0 {
      assert q[0] in q;
      assert forall x :: x in q[1..] ==> x in q;
      CountNone(q[1..], p);
    }
  }

  lemma PopCount(q: Queue, p: EnvEvent -> bool)
    requires |q| > 0
    ensures Count(Pop(q).1, p) + (if p(Pop(q).0) then 1 else 0) == Count(q, p)
  {
    var (e, rest) := Pop(q);
    CountConcat(rest, [e], p);
    CountMultiset(rest + [e], q, p);
  }

  // ---------------------------------------------------------------------
  // Event handlers

  /** `self.requests[request_id]`. */
  function RequestOf(env: Env, id: int): Result<Request> {
    var k :- Subscript(id, |env.requests|);
    Ok(env.requests[k])
  }

  /**
   * `spawn_vehicle`: find the request and its shipper, schedule the DELIVER
   * event `contact(request) + 1` after now, and stand one more truck at the
   * request's origin.
   */
  function SpawnVehicle(env: Env, e: EnvEvent, contact: Request -> nat): (r: Result<Env>)
    requires IsSquare(env.trucks)
    ensures r.Ok? <==>
      && RequestOf(env, e.requestId).Ok?
      && PyIndex(RequestOf(env, e.requestId).value.selectedShipper, |env.agents.shippers|).Some?
      && PyIndex(RequestOf(env, e.requestId).value.origin, |env.trucks|).Some?
    ensures r.Ok? ==>
      var req := RequestOf(env, e.requestId).value;
      var o := PyIndex(req.origin, |env.trucks|).value;
      && r.value == r.value.(time := env.time, requests := env.requests, agents := env.agents)
      && multiset(r.value.events) == multiset(env.events) + multiset{EnvEvent(env.time + contact(req) + 1, Delivery, e.requestId)}
      && |r.value.events| == |env.events| + 1
      && r.value.events[..|env.events|] == env.events
      && MovesOne(env.trucks, r.value.trucks, None, (o, o))
      && Sum(r.value.trucks) == Sum(env.trucks) + 1
  {
    var req :- RequestOf(env, e.requestId);
    var _ :- Subscript(req.selectedShipper, |env.agents.shippers|);
    var events := Put(env.events, EnvEvent(env.time + contact(req) + 1, Delivery, e.requestId));
    var o :- Subscript(req.origin, |env.trucks|);
    Ok(env.(events := events, trucks := Add(env.trucks, o, o, 1)))
  }

  /**
   * `dispatch_vehicle`: one truck leaves the origin cell for the
   * origin-to-destination cell.
   */
  function DispatchVehicle(env: Env, e: EnvEvent): (r: Result<Env>)
    requires IsSquare(env.trucks)
    ensures r.Ok? <==>
      && RequestOf(env, e.requestId).Ok?
      && PyIndex(RequestOf(env, e.requestId).value.origin, |env.trucks|).Some?
      && PyIndex(RequestOf(env, e.requestId).value.destination, |env.trucks|).Some?
    ensures r.Ok? ==>
      var req := RequestOf(env, e.requestId).value;
      var o := PyIndex(req.origin, |env.trucks|).value;
      var d := PyIndex(req.destination, |env.trucks|).value;
      && r.value == env.(trucks := r.value.trucks)
      && MovesOne(env.trucks, r.value.trucks, Some((o, o)), (o, d))
      && Sum(r.value.trucks) == Sum(env.trucks)
  {
    var req :- RequestOf(env, e.requestId);
    var o :- Subscript(req.origin, |env.trucks|);
    var d :- Subscript(req.destination, |env.trucks|);
    Ok(env.(trucks := Add(Add(env.trucks, o, o, -1), o, d, 1)))
  }

  /**
   * `deliver`: one truck leaves the origin-to-destination cell and stands
   * at the destination.
   */
  function Deliver(env: Env, e: EnvEvent): (r: Result<Env>)
    requires IsSquare(env.trucks)
    ensures r.Ok? <==>
      && RequestOf(env, e.requestId).Ok?
      && PyIndex(RequestOf(env, e.requestId).value.origin, |env.trucks|).Some?
      && PyIndex(RequestOf(env, e.requestId).value.destination, |env.trucks|).Some?
    ensures r.Ok? ==>
      var req := RequestOf(env, e.requestId).value;
      var o := PyIndex(req.origin, |env.trucks|).value;
      var d := PyIndex(req.destination, |env.trucks|).value;
      && r.value == env.(trucks := r.value.trucks)
      && MovesOne(env.trucks, r.value.trucks, Some((o, d)), (d, d))
      && Sum(r.value.trucks) == Sum(env.trucks)
  {
    var req :- RequestOf(env, e.requestId);
    var o :- Subscript(req.origin, |env.trucks|);
    var d :- Subscript(req.destination, |env.trucks|);
    Ok(env.(trucks := Add(Add(env.trucks, o, d, -1), d, d, 1)))
  }

  /**
   * The cells the handler of an event of kind SPAWN, DISPATCH or DELIVER
   * moves a truck between, with the request's origin `o` and destination `d`
   * read as subscripts of an n x n matrix: SPAWN stands a new truck on
   * (o, o), DISPATCH moves one from (o, o) to (o, d), DELIVER from (o, d) to
   * (d, d). None when a subscript the handler takes fails, or for an
   * unknown kind, whose handler moves nothing.
   */
  function HandlerCells(requests: seq<Request>, n: nat, e: EnvEvent): Option<(Option<(nat, nat)>, (nat, nat))> {
    var k := PyIndex(e.requestId, |requests|);
    if k.None? then None
    else
      var o := PyIndex(requests[k.value].origin, n);
      var d := PyIndex(requests[k.value].destination, n);
      match e.kind
      case Spawn => if o.Some? then Some((None, (o.value, o.value))) else None
      case Dispatch => if o.Some? && d.Some? then Some((Some((o.value, o.value)), (o.value, d.value))) else None
      case Delivery => if o.Some? && d.Some? then Some((Some((o.value, d.value)), (d.value, d.value))) else None
      case Unrecognised => None
  }

  /** The matrix `after` is `before` with the move the handler of `e` makes. */
  ghost predicate HandlerMoved(requests: seq<Request>, before: Mat, e: EnvEvent, after: Mat) {
    var cells := HandlerCells(requests, |before|, e);
    cells.Some? && MovesOne(before, after, cells.value.0, cells.value.1)
  }

  /**
   * `process_event`: dispatch on the kind; an unknown kind is only
   * reported, so the state stays as it is. Only a spawn adds to the matrix
   * total, and only a spawn adds an event: a DELIVER strictly in the future.
   */
  function ProcessEvent(env: Env, e: EnvEvent, contact: Request -> nat): (r: Result<Env>)
    requires IsSquare(env.trucks)
    ensures e.kind == Unrecognised ==> r == Ok(env)
    ensures r.Ok? && e.kind != Unrecognised ==> HandlerMoved(env.requests, env.trucks, e, r.value.trucks)
    ensures e.kind == Dispatch || e.kind == Delivery ==> (r.Ok? <==> HandlerCells(env.requests, |env.trucks|, e).Some?)
    ensures e.kind == Spawn ==> (r.Ok? <==>
      HandlerCells(env.requests, |env.trucks|, e).Some? && RequestOf(env, e.requestId).Ok? &&
      PyIndex(RequestOf(env, e.requestId).value.selectedShipper, |env.agents.shippers|).Some?)
    ensures r.Ok? ==> r.value.time == env.time && r.value.requests == env.requests && r.value.agents == env.agents
    ensures r.Ok? ==> |r.value.trucks| == |env.trucks| && IsSquare(r.value.trucks)
    ensures r.Ok? ==> Sum(r.value.trucks) == Sum(env.trucks) + (if e.kind == Spawn then 1 else 0)
    ensures r.Ok? && e.kind != Spawn ==> r.value.events == env.events
    ensures r.Ok? ==> forall x :: x in r.value.events ==> x in env.events || x.kind == Delivery
    ensures r.Ok? && e.kind == Spawn ==>
      && |r.value.events| == |env.events| + 1
      && r.value.events[..|env.events|] == env.events
      && r.value.events[|env.events|].kind == Delivery
      && r.value.events[|env.events|].requestId == e.requestId
      && r.value.events[|env.events|].timestamp > env.time
  {
    match e.kind
    case Spawn => SpawnVehicle(env, e, contact)
    case Dispatch => DispatchVehicle(env, e)
    case Delivery => Deliver(env, e)
    case Unrecognised => Ok(env)
  }

  /** The quantity every step keeps: trucks on the matrix plus trucks still to be spawned. */
  function Accounted(env: Env): int {
    Sum(env.trucks) + SpawnCount(env.events)
  }

  /** Handling the popped least event keeps `Accounted` and removes it from the due count. */
  lemma PopProcessCounts(env: Env, contact: Request -> nat)
    requires IsSquare(env.trucks) && |env.events| > 0
    ensures var r := ProcessEvent(env.(events := Pop(env.events).1), Pop(env.events).0, contact);
      r.Ok? ==>
      && Accounted(r.value) == Accounted(env)
      && DueCount(r.value.events, env.time) + (if Pop(env.events).0.timestamp <= env.time then 1 else 0)
         == DueCount(env.events, env.time)
  {
    var (e, rest) := Pop(env.events);
    var res := ProcessEvent(env.(events := rest), e, contact);
    PopCount(env.events, IsSpawn);
    PopCount(env.events, DueBy(env.time));
    if res.Ok? && e.kind == Spawn {
      var r := res.value;
      assert r.events == rest + [r.events[|rest|]];
      CountConcat(rest, [r.events[|rest|]], IsSpawn);
      CountConcat(rest, [r.events[|rest|]], DueBy(env.time));
    }
  }

  /** Handling the popped least event takes one copy of it off the queue and adds at most a DELIVERY event. */
  lemma PopProcessEvents(env: Env, contact: Request -> nat)
    requires IsSquare(env.trucks) && |env.events| > 0
    ensures var r := ProcessEvent(env.(events := Pop(env.events).1), Pop(env.events).0, contact);
      var top := Pop(env.events).0;
      r.Ok? ==>
      && (forall x :: x in env.events && x != top ==> multiset(env.events)[x] <= multiset(r.value.events)[x])
      && multiset(r.value.events)[top] + 1 == multiset(env.events)[top]
      && |r.value.events| + 1 >= |env.events|
      && forall x :: x in r.value.events ==> x in env.events || x.kind == Delivery
  {
    var (e, rest) := Pop(env.events);
    var res := ProcessEvent(env.(events := rest), e, contact);
    assert forall x :: x in rest ==> x in env.events by {
      forall x | x in rest
        ensures x in env.events
      {
        assert x in multiset(rest);
      }
    }
    if res.Ok? && e.kind == Spawn {
      var r := res.value;
      assert r.events == rest + [r.events[|rest|]];
      assert r.events[|rest|] != e;
    }
  }

  /**
   * Remove the least event and handle it, the body both `step` and the
   * corrected step share. The event leaves the queue, a DELIVERY event may
   * join it, and the quantity `Accounted` is kept.
   */
  function HandleTop(env: Env, contact: Request -> nat): (r: Result<Env>)
    requires IsSquare(env.trucks) && |env.events| > 0
    ensures r.Ok? ==> r.value.time == env.time && r.value.requests == env.requests
    ensures r.Ok? ==> |r.value.trucks| == |env.trucks| && IsSquare(r.value.trucks)
    ensures r.Ok? ==> Accounted(r.value) == Accounted(env)
    ensures r.Ok? ==> DueCount(r.value.events, env.time) + (if Peek(env.events).value.timestamp <= env.time then 1 else 0)
                      == DueCount(env.events, env.time)
    ensures r.Ok? ==> forall x :: x in env.events && x != Peek(env.events).value ==>
      multiset(env.events)[x] <= multiset(r.value.events)[x]
    ensures r.Ok? ==> multiset(r.value.events)[Peek(env.events).value] + 1 == multiset(env.events)[Peek(env.events).value]
    ensures r.Ok? ==> |r.value.events| + 1 >= |env.events|
    ensures r.Ok? ==> forall x :: x in r.value.events ==> x in env.events || x.kind == Delivery
    ensures r.Ok? && Peek(env.events).value.kind != Unrecognised ==>
      HandlerMoved(env.requests, env.trucks, Peek(env.events).value, r.value.trucks)
    ensures r.Ok? && Peek(env.events).value.kind == Unrecognised ==> r.value.trucks == env.trucks
  {
    PopProcessCounts(env, contact);
    PopProcessEvents(env, contact);
    ProcessEvent(env.(events := Pop(env.events).1), Pop(env.events).0, contact)
  }

  // ---------------------------------------------------------------------
  // `step`, as written

  /**
   * `Environment.step`: on a non-empty queue advance the clock by one and
   * handle the least event only if its timestamp equals the new time; on an
   * empty queue nothing changes. At most one event leaves the queue, and
   * only one stamped with the new time, so an event stamped earlier is
   * never removed.
   */
  function Step(env: Env, contact: Request -> nat): (r: Result<Env>)
    requires IsSquare(env.trucks)
    ensures |env.events| == 0 ==> r == Ok(env)
    ensures |env.events| > 0 && Peek(env.events).value.timestamp != env.time + 1 ==>
      r == Ok(env.(time := env.time + 1))
    ensures r.Ok? ==> |r.value.trucks| == |env.trucks| && IsSquare(r.value.trucks)
    ensures r.Ok? && |env.events| > 0 ==> r.value.time == env.time + 1
    ensures r.Ok? ==> Accounted(r.value) == Accounted(env)
    ensures r.Ok? ==> |r.value.events| + 1 >= |env.events|
    ensures r.Ok? && |env.events| > 0 && Peek(env.events).value.timestamp == env.time + 1 ==>
      Peek(env.events).value.kind != Unrecognised ==> HandlerMoved(env.requests, env.trucks, Peek(env.events).value, r.value.trucks)
  {
    if |env.events| == 0 then Ok(env)
    else
      var next := env.(time := env.time + 1);
      assert Accounted(next) == Accounted(env);
      if Peek(env.events).value.timestamp == next.time then HandleTop(next, contact) else Ok(next)
  }

  /**
   * One `step` keeps every event not stamped with the new time, and when the
   * least event is stamped with it exactly one copy of that event leaves.
   */
  lemma StepKeepsOthers(env: Env, contact: Request -> nat)
    requires IsSquare(env.trucks)
    ensures var r := Step(env, contact);
      r.Ok? ==>
      && (forall x :: x in env.events && x.timestamp != env.time + 1 ==>
            multiset(env.events)[x] <= multiset(r.value.events)[x])
      && (|env.events| > 0 && Peek(env.events).value.timestamp == env.time + 1 ==>
            multiset(r.value.events)[Peek(env.events).value] + 1 == multiset(env.events)[Peek(env.events).value])
  {
    if |env.events| > 0 && Peek(env.events).value.timestamp == env.time + 1 {
      var top := Peek(env.events).value;
      var r := HandleTop(env.(time := env.time + 1), contact);
      assert Step(env, contact) == r;
      if r.Ok? {
        forall x | x in env.events && x.timestamp != env.time + 1
          ensures multiset(env.events)[x] <= multiset(r.value.events)[x]
        {
          assert x != top;
        }
      }
    }
  }

  /** `k` calls of `step`, stopping at the first error. */
  function StepN(env: Env, contact: Request -> nat, k: nat): Result<Env>
    requires IsSquare(env.trucks)
    decreases k
  {
    if k == 0 then Ok(env)
    else
      var next :- Step(env, contact);
      StepN(next, contact, k - 1)
  }

  /**
   * Once the least event is stamped at or before the clock, `step` never
   * removes anything again: every later call only advances the clock.
   */
  lemma {:induction false} StaleEventBlocksForever(env: Env, contact: Request -> nat, k: nat)
    requires IsSquare(env.trucks) && |env.events| > 0
    requires Peek(env.events).value.timestamp <= env.time
    ensures StepN(env, contact, k) == Ok(env.(time := env.time + k))
    decreases k
  {
    if k > 0 {
      var next := env.(time := env.time + 1);
      assert Step(env, contact) == Ok(next);
      StaleEventBlocksForever(next, contact, k - 1);
      assert next.(time := next.time + (k - 1)) == env.(time := env.time + k);
    }
  }

  /** Two requests from node 0 to node 1 whose windows both open at time 2. */
  function SharedWindowRows(): seq<RequestRow> {
    [RequestRow(0, 0, 1, 1, 1, 2, 3, 1), RequestRow(1, 0, 1, 1, 1, 2, 3, 1)]
  }

  function TwoNodeDistances(): seq<seq<real>> {
    [[0.0, 1.0], [1.0, 0.0]]
  }

  /** The environment those two requests build: clock 0, an empty 2 x 2 matrix, both pairs of events queued. */
  lemma SharedWindowStart()
    ensures BuildEnvironment(SharedWindowRows(), 2, TwoNodeDistances()).Ok?
    ensures var env0 := BuildEnvironment(SharedWindowRows(), 2, TwoNodeDistances()).value;
      && env0.time == 0 && |env0.trucks| == 2 && IsSquare(env0.trucks) && Sum(env0.trucks) == 0
      && env0.events == [EnvEvent(1, Spawn, 0), EnvEvent(2, Dispatch, 0), EnvEvent(1, Spawn, 1), EnvEvent(2, Dispatch, 1)]
      && |env0.requests| == 2 && env0.requests[0].origin == 0 && env0.requests[0].selectedShipper == 0
      && env0.requests[1].origin == 0 && env0.requests[1].selectedShipper == 0
      && |env0.agents.shippers| == 1
      && SpawnCount(env0.events) == 2
      && forall x :: x in env0.events && x.kind == Spawn ==> x.timestamp == 1
  {
    var rows := SharedWindowRows();
    var dist := TwoNodeDistances();
    assert MakeRequest(rows[0], dist).Ok? && MakeRequest(rows[1], dist).Ok?;
  }

  /** The environment those two requests build, as a predicate: clock 0, nothing on the matrix, the SPAWN events due at time 1. */
  ghost predicate SharedWindowBuilt(env0: Env) {
    && env0.time == 0 && IsSquare(env0.trucks) && Sum(env0.trucks) == 0
    && TwoSpawnsDue(env0.(time := 1)) && |env0.events| == 4
    && env0.events[0] == EnvEvent(1, Spawn, 0) && env0.events[1] == EnvEvent(2, Dispatch, 0)
    && env0.events[2] == EnvEvent(1, Spawn, 1) && env0.events[3] == EnvEvent(2, Dispatch, 1)
    && SpawnCount(env0.events) == 2
    && forall x :: x in env0.events && x.kind == Spawn ==> x.timestamp == 1
  }

  /** The same environment, named. */
  lemma SharedWindowShape(env0: Env)
    requires BuildEnvironment(SharedWindowRows(), 2, TwoNodeDistances()) == Ok(env0)
    ensures SharedWindowBuilt(env0)
  {
    SharedWindowStart();
  }

  /** A step whose least event is stamped with the new time handles that event. */
  lemma StepUnfold(env: Env, contact: Request -> nat)
    requires IsSquare(env.trucks) && |env.events| > 0 && Peek(env.events).value.timestamp == env.time + 1
    ensures Step(env, contact) == HandleTop(env.(time := env.time + 1), contact)
  {
  }

  /** Of two events stamped alike, the queue hands out the one put in first. */
  lemma FirstOfEqualPopped(q: Queue)
    requires |q| == 4 && q[0].timestamp == 1 && q[1].timestamp == 2 && q[2].timestamp == 1 && q[3].timestamp == 2
    ensures Pop(q) == (q[0], q[1..])
  {
    assert EarliestFrom(q, 0, 4) == 0;
    assert EarliestFrom(q, 0, 3) == 0;
    assert EarliestFrom(q, 0, 2) == 0;
    assert EarliestFrom(q, 0, 1) == 0;
    assert q[..0] + q[1..] == q[1..];
  }

  /** The first `step` on them handles the SPAWN of request 0 only. */
  lemma SharedWindowFirstStep(env0: Env, contact: Request -> nat)
    requires BuildEnvironment(SharedWindowRows(), 2, TwoNodeDistances()) == Ok(env0)
    ensures var r := Step(env0, contact);
      && r.Ok? && r.value.time == 1 && IsSquare(r.value.trucks) && Sum(r.value.trucks) == 1
      && |r.value.events| == 4 && r.value.events[0] == EnvEvent(2, Dispatch, 0) && r.value.events[1] == EnvEvent(1, Spawn, 1)
  {
    SharedWindowShape(env0);
    BuiltFirstStep(env0, contact);
  }

  /** The first `step` from the built environment, stated on its shape. */
  lemma BuiltFirstStep(env0: Env, contact: Request -> nat)
    requires SharedWindowBuilt(env0)
    ensures var r := Step(env0, contact);
      && r.Ok? && r.value.time == 1 && IsSquare(r.value.trucks) && Sum(r.value.trucks) == 1
      && |r.value.events| == 4 && r.value.events[0] == EnvEvent(2, Dispatch, 0) && r.value.events[1] == EnvEvent(1, Spawn, 1)
  {
    FirstSpawnHandled(env0.(time := 1), contact);
    StepUnfold(env0, contact);
  }

  /**
   * Two requests whose windows open together put two SPAWN events at time 1.
   * The first `step` handles one of them; from the second `step` on the
   * other one is stamped before the clock and blocks the queue for good:
   * request 1 is never spawned and request 0 is never dispatched.
   */
  lemma {:induction false} SharedWindowStrandsEvents(env0: Env, contact: Request -> nat, k: nat)
    requires BuildEnvironment(SharedWindowRows(), 2, TwoNodeDistances()) == Ok(env0)
    ensures var r := StepN(env0, contact, k + 2);
      && r.Ok?
      && r.value.time == k + 2
      && EnvEvent(1, Spawn, 1) in r.value.events
      && EnvEvent(2, Dispatch, 0) in r.value.events
      && Sum(r.value.trucks) == 1
  {
    SharedWindowFirstStep(env0, contact);
    var env1 := Step(env0, contact).value;
    assert env1.events[1] in env1.events;
    var env2 := env1.(time := 2);
    assert Step(env1, contact) == Ok(env2);
    StaleEventBlocksForever(env2, contact, k);
    assert StepN(env1, contact, k + 1) == StepN(env2, contact, k);
    assert StepN(env0, contact, k + 2) == StepN(env1, contact, k + 1);
    assert env1.events[0] == EnvEvent(2, Dispatch, 0);
  }

  // ---------------------------------------------------------------------
  // `step`, corrected: handle every event that is due

  /** Handle least events while one is due at or before the clock. */
  function Drain(env: Env, contact: Request -> nat): (r: Result<Env>)
    requires IsSquare(env.trucks)
    ensures r.Ok? ==> r.value.time == env.time && r.value.requests == env.requests
    ensures r.Ok? ==> |r.value.trucks| == |env.trucks| && IsSquare(r.value.trucks)
    ensures r.Ok? ==> forall x :: x in r.value.events ==> x.timestamp > env.time
    ensures r.Ok? ==> Accounted(r.value) == Accounted(env)
    ensures r.Ok? ==> forall x :: x in r.value.events ==> x in env.events || x.kind == Delivery
    decreases DueCount(env.events, env.time)
  {
    match Peek(env.events)
    case None => Ok(env)
    case Some(top) =>
      if top.timestamp > env.time then Ok(env)
      else
        var next :- HandleTop(env, contact);
        Drain(next, contact)
  }

  /** Every event of `a` stamped after `t` is in `b` at least as often. */
  ghost predicate KeepsLater(a: Queue, b: Queue, t: int) {
    forall x :: x in a && x.timestamp > t ==> multiset(a)[x] <= multiset(b)[x]
  }

  /** Two removals that each keep the events stamped after `t` keep them together. */
  lemma KeepChain(a: Queue, b: Queue, c: Queue, top: EnvEvent, t: int)
    requires top.timestamp <= t
    requires forall x :: x in a && x != top ==> multiset(a)[x] <= multiset(b)[x]
    requires KeepsLater(b, c, t)
    ensures KeepsLater(a, c, t)
  {
    forall x | x in a && x.timestamp > t
      ensures multiset(a)[x] <= multiset(c)[x]
    {
      assert x in multiset(a);
      assert x in multiset(b);
    }
  }

  /** With an event due, draining handles the least one and drains what is left. */
  lemma DrainDue(env: Env, contact: Request -> nat)
    requires IsSquare(env.trucks) && |env.events| > 0 && Peek(env.events).value.timestamp <= env.time
    ensures HandleTop(env, contact).Err? ==> Drain(env, contact).Err?
    ensures HandleTop(env, contact).Ok? ==> Drain(env, contact) == Drain(HandleTop(env, contact).value, contact)
  {
  }

  /** Draining keeps every event not yet due, with its multiplicity. */
  lemma {:induction false} DrainKeepsLater(env: Env, contact: Request -> nat)
    requires IsSquare(env.trucks)
    ensures var r := Drain(env, contact); r.Ok? ==> KeepsLater(env.events, r.value.events, env.time)
    decreases DueCount(env.events, env.time)
  {
    if |env.events| > 0 && Peek(env.events).value.timestamp <= env.time {
      var top := Peek(env.events).value;
      var h := HandleTop(env, contact);
      DrainDue(env, contact);
      if h.Ok? {
        var next := h.value;
        DrainKeepsLater(next, contact);
        var r := Drain(next, contact);
        if r.Ok? {
          KeepChain(env.events, next.events, r.value.events, top, env.time);
        }
      }
    }
  }


  /**
   * The corrected `step`: on a non-empty queue advance the clock by one and
   * handle every event due by then, so that no due event is left behind.
   */
  function StepDrain(env: Env, contact: Request -> nat): (r: Result<Env>)
    requires IsSquare(env.trucks)
    ensures |env.events| == 0 ==> r == Ok(env)
    ensures r.Ok? && |env.events| > 0 ==> r.value.time == env.time + 1
    ensures r.Ok? && |env.events| > 0 ==> forall x :: x in r.value.events ==> x.timestamp > r.value.time
    ensures r.Ok? ==> |r.value.trucks| == |env.trucks| && IsSquare(r.value.trucks)
    ensures r.Ok? ==> r.value.requests == env.requests
    ensures r.Ok? ==> Accounted(r.value) == Accounted(env)
    ensures r.Ok? ==> forall x :: x in r.value.events ==> x in env.events || x.kind == Delivery
  {
    if |env.events| == 0 then Ok(env)
    else Drain(env.(time := env.time + 1), contact)
  }

  /** `k` corrected steps, stopping at the first error. */
  function Run(env: Env, contact: Request -> nat, k: nat): (r: Result<Env>)
    requires IsSquare(env.trucks)
    ensures r.Ok? ==> |r.value.trucks| == |env.trucks| && IsSquare(r.value.trucks)
    ensures r.Ok? ==> Accounted(r.value) == Accounted(env)
    decreases k
  {
    if k == 0 then Ok(env)
    else
      var next :- StepDrain(env, contact);
      Run(next, contact, k - 1)
  }

  /**
   * On the same two requests the corrected step handles both SPAWN events
   * at time 1, so both trucks are on the matrix after the first step.
   */
  lemma SharedWindowDrained(env0: Env, contact: Request -> nat)
    requires BuildEnvironment(SharedWindowRows(), 2, TwoNodeDistances()) == Ok(env0)
    ensures var r := StepDrain(env0, contact);
      r.Ok? && r.value.time == 1 && SpawnCount(r.value.events) == 0 && Sum(r.value.trucks) == 2
  {
    SharedWindowShape(env0);
    BuiltDrained(env0, contact);
  }

  /** The corrected step from the built environment, stated on its shape. */
  lemma BuiltDrained(env0: Env, contact: Request -> nat)
    requires SharedWindowBuilt(env0)
    ensures var r := StepDrain(env0, contact);
      r.Ok? && r.value.time == 1 && SpawnCount(r.value.events) == 0 && Sum(r.value.trucks) == 2
  {
    BuiltDrainSucceeds(env0, contact);
    DueSpawnsAllHandled(env0, contact);
  }

  /** With the first event handled, the queue hands out the other event stamped 1 next. */
  lemma SecondOfEqualPopped(q: Queue)
    requires |q| == 4 && q[0].timestamp == 2 && q[1].timestamp == 1 && q[2].timestamp == 2 && q[3].timestamp >= 2
    ensures Pop(q) == (q[1], [q[0]] + q[2..])
  {
    assert EarliestFrom(q, 1, 4) == 1;
    assert EarliestFrom(q, 1, 3) == 1;
    assert EarliestFrom(q, 1, 2) == 1;
    assert EarliestFrom(q, 0, 1) == 1;
    assert q[..1] + q[2..] == [q[0]] + q[2..];
  }

  /** Two requests from node 0 to node 1 whose SPAWN events are due at time 1 on a 2 x 2 matrix. */
  ghost predicate TwoSpawnsDue(env: Env) {
    && env.time == 1 && |env.trucks| == 2 && IsSquare(env.trucks)
    && |env.requests| == 2 && |env.agents.shippers| == 1
    && env.requests[0].origin == 0 && env.requests[0].selectedShipper == 0
    && env.requests[1].origin == 0 && env.requests[1].selectedShipper == 0
  }

  /** Handling a least event that is a SPAWN is `spawn_vehicle` on the rest of the queue. */
  lemma HandleTopSpawn(env: Env, contact: Request -> nat)
    requires IsSquare(env.trucks) && |env.events| > 0 && Pop(env.events).0.kind == Spawn
    ensures HandleTop(env, contact) == SpawnVehicle(env.(events := Pop(env.events).1), Pop(env.events).0, contact)
  {
  }

  /** `spawn_vehicle` for one of the two requests succeeds, keeps their shape and queues a DELIVER stamped 2 or later. */
  lemma SpawnOneOfTwo(env: Env, e: EnvEvent, contact: Request -> nat)
    requires TwoSpawnsDue(env) && e.kind == Spawn && 0 <= e.requestId < 2
    ensures SpawnVehicle(env, e, contact).Ok?
    ensures var next := SpawnVehicle(env, e, contact).value;
      && TwoSpawnsDue(next) && Sum(next.trucks) == Sum(env.trucks) + 1
      && |next.events| == |env.events| + 1
      && next.events[..|env.events|] == env.events
      && next.events[|env.events|].timestamp >= 2
  {
    assert RequestOf(env, e.requestId) == Ok(env.requests[e.requestId]);
  }

  /** Handling the first SPAWN leaves the DISPATCH of request 0 ahead of the second SPAWN. */
  lemma FirstSpawnHandled(env: Env, contact: Request -> nat)
    requires TwoSpawnsDue(env) && |env.events| == 4
    requires env.events[0] == EnvEvent(1, Spawn, 0) && env.events[1] == EnvEvent(2, Dispatch, 0)
    requires env.events[2] == EnvEvent(1, Spawn, 1) && env.events[3] == EnvEvent(2, Dispatch, 1)
    ensures Peek(env.events) == Some(env.events[0])
    ensures HandleTop(env, contact).Ok?
    ensures var next := HandleTop(env, contact).value;
      && TwoSpawnsDue(next) && Sum(next.trucks) == Sum(env.trucks) + 1 && |next.events| == 4
      && next.events[0] == EnvEvent(2, Dispatch, 0) && next.events[1] == EnvEvent(1, Spawn, 1)
      && next.events[2] == EnvEvent(2, Dispatch, 1) && next.events[3].timestamp >= 2
  {
    var q := env.events;
    FirstOfEqualPopped(q);
    HandleTopSpawn(env, contact);
    SpawnOneOfTwo(env.(events := q[1..]), q[0], contact);
  }

  /** With the first SPAWN handled, handling the least event is `spawn_vehicle` for the second SPAWN. */
  lemma SecondSpawnHandled(env: Env, contact: Request -> nat)
    requires TwoSpawnsDue(env) && |env.events| == 4
    requires env.events[0] == EnvEvent(2, Dispatch, 0) && env.events[1] == EnvEvent(1, Spawn, 1)
    requires env.events[2] == EnvEvent(2, Dispatch, 1) && env.events[3].timestamp >= 2
    ensures Peek(env.events) == Some(env.events[1])
    ensures HandleTop(env, contact) == SpawnVehicle(env.(events := [env.events[0]] + env.events[2..]), env.events[1], contact)
    ensures HandleTop(env, contact).Ok?
  {
    var q := env.events;
    SecondOfEqualPopped(q);
    HandleTopSpawn(env, contact);
    SpawnOneOfTwo(env.(events := [q[0]] + q[2..]), q[1], contact);
  }

  /** A SPAWN of one of the two requests on a queue with nothing due leaves nothing due. */
  lemma SpawnLeavesNothingDue(env: Env, e: EnvEvent, contact: Request -> nat)
    requires TwoSpawnsDue(env) && |env.events| == 3 && e.kind == Spawn && e.requestId == 1
    requires env.events[0].timestamp > 1 && env.events[1].timestamp > 1 && env.events[2].timestamp > 1
    ensures SpawnVehicle(env, e, contact).Ok?
    ensures var q := SpawnVehicle(env, e, contact).value.events;
      |q| == 4 && forall i :: 0 <= i < |q| ==> q[i].timestamp > 1
    ensures Drain(SpawnVehicle(env, e, contact).value, contact).Ok?
  {
    SpawnOneOfTwo(env, e, contact);
    var next := SpawnVehicle(env, e, contact).value;
    var r := next.events;
    assert r[0] == env.events[0] && r[1] == env.events[1] && r[2] == env.events[2];
    NothingDue(next, contact);
  }

  /** Draining a queue with nothing due changes nothing. */
  lemma NothingDue(env: Env, contact: Request -> nat)
    requires IsSquare(env.trucks) && |env.events| > 0
    requires forall i :: 0 <= i < |env.events| ==> env.events[i].timestamp > env.time
    ensures Drain(env, contact) == Ok(env)
  {
    var top := Peek(env.events).value;
    var i :| 0 <= i < |env.events| && env.events[i] == top;
  }

  /** From the queue left by the first SPAWN, draining succeeds. */
  lemma DrainSecond(env: Env, contact: Request -> nat)
    requires TwoSpawnsDue(env) && |env.events| == 4
    requires env.events[0] == EnvEvent(2, Dispatch, 0) && env.events[1] == EnvEvent(1, Spawn, 1)
    requires env.events[2] == EnvEvent(2, Dispatch, 1) && env.events[3].timestamp >= 2
    ensures Drain(env, contact).Ok?
  {
    SecondSpawnHandled(env, contact);
    var mid := env.(events := [env.events[0]] + env.events[2..]);
    assert mid.events[1] == env.events[2] && mid.events[2] == env.events[3];
    SpawnLeavesNothingDue(mid, env.events[1], contact);
    DrainDue(env, contact);
  }

  /** From the two pairs of events as built, draining at time 1 succeeds. */
  lemma DrainFirst(env: Env, contact: Request -> nat)
    requires TwoSpawnsDue(env) && |env.events| == 4
    requires env.events[0] == EnvEvent(1, Spawn, 0) && env.events[1] == EnvEvent(2, Dispatch, 0)
    requires env.events[2] == EnvEvent(1, Spawn, 1) && env.events[3] == EnvEvent(2, Dispatch, 1)
    ensures Drain(env, contact).Ok?
  {
    FirstSpawnHandled(env, contact);
    DrainDue(env, contact);
    DrainSecond(HandleTop(env, contact).value, contact);
  }

  /**
   * The corrected step on the two requests handles the SPAWN of request 0,
   * then the SPAWN of request 1, and stops at the DISPATCH events stamped 2.
   */
  lemma BuiltDrainSucceeds(env0: Env, contact: Request -> nat)
    requires SharedWindowBuilt(env0)
    ensures StepDrain(env0, contact).Ok?
  {
    DrainFirst(env0.(time := 1), contact);
  }

  /** From a clock at 0, a corrected step handles every SPAWN event stamped 1. */
  lemma DueSpawnsAllHandled(env: Env, contact: Request -> nat)
    requires IsSquare(env.trucks) && env.time == 0 && |env.events| > 0
    requires forall x :: x in env.events && x.kind == Spawn ==> x.timestamp == 1
    ensures var r := StepDrain(env, contact);
      r.Ok? ==> (r.value.time == 1 && SpawnCount(r.value.events) == 0 &&
                 Sum(r.value.trucks) == Sum(env.trucks) + SpawnCount(env.events))
  {
    var r := StepDrain(env, contact);
    if r.Ok? {
      var q := r.value.events;
      forall x | x in q
        ensures !IsSpawn(x)
      {
        assert x.timestamp > 1;
      }
      CountNone(q, IsSpawn);
    }
  }

  // ---------------------------------------------------------------------
  // Building the environment

  /** One row of the request table. */
  datatype RequestRow = RequestRow(id: int, orig: int, dest: int, amount: int, price: int, lw: int, uw: int, selected: int)

  /** The request of one row: its distance is `dist[orig][dest]`, its shipper is `selected - 1`. */
  function MakeRequest(row: RequestRow, dist: seq<seq<real>>): (r: Result<Request>)
    ensures r.Ok? <==> PyIndex(row.orig, |dist|).Some? && PyIndex(row.dest, |dist[PyIndex(row.orig, |dist|).value]|).Some?
    ensures r.Ok? ==>
      && r.value.id == row.id && r.value.origin == row.orig && r.value.destination == row.dest
      && r.value.amount == row.amount && r.value.price == row.price
      && r.value.timeWindow == (row.lw, row.uw)
      && r.value.selectedShipper == row.selected - 1
      && r.value.distance == dist[PyIndex(row.orig, |dist|).value][PyIndex(row.dest, |dist[PyIndex(row.orig, |dist|).value]|).value]
  {
    var i :- Subscript(row.orig, |dist|);
    var j :- Subscript(row.dest, |dist[i]|);
    Ok(Request(row.id, row.orig, row.dest, row.amount, row.price, (row.lw, row.uw), row.selected - 1, dist[i][j]))
  }

  /** The requests of all rows; the first row that cannot be read raises. */
  function MakeRequests(rows: seq<RequestRow>, dist: seq<seq<real>>): (r: Result<seq<Request>>)
    ensures r.Ok? <==> forall i :: 0 <= i < |rows| ==> MakeRequest(rows[i], dist).Ok?
    ensures r.Ok? ==> |r.value| == |rows|
    ensures r.Ok? ==> forall i :: 0 <= i < |rows| ==> MakeRequest(rows[i], dist) == Ok(r.value[i])
    decreases |rows|
  {
    if |rows| == 0 then Ok([])
    else
      assert forall i :: 1 <= i < |rows| ==> rows[i] == rows[1..][i - 1];
      var req :- MakeRequest(rows[0], dist);
      var rest :- MakeRequests(rows[1..], dist);
      Ok([req] + rest)
  }

  /** The events of all rows in the order they are put: per row, SPAWN then DISPATCH. */
  function RowEvents(rows: seq<RequestRow>): (q: Queue)
    ensures |q| == 2 * |rows|
    ensures forall i :: 0 <= i < |rows| ==>
      && q[2 * i] == EnvEvent(rows[i].lw - 1, Spawn, rows[i].id)
      && q[2 * i + 1] == EnvEvent(rows[i].lw, Dispatch, rows[i].id)
    ensures SpawnCount(q) == |rows|
    decreases |rows|
  {
    if |rows| == 0 then []
    else
      var pair := [EnvEvent(rows[0].lw - 1, Spawn, rows[0].id), EnvEvent(rows[0].lw, Dispatch, rows[0].id)];
      var rest := RowEvents(rows[1..]);
      var q := pair + rest;
      forall i | 1 <= i < |rows|
        ensures q[2 * i] == EnvEvent(rows[i].lw - 1, Spawn, rows[i].id)
        ensures q[2 * i + 1] == EnvEvent(rows[i].lw, Dispatch, rows[i].id)
      {
        assert rows[i] == rows[1..][i - 1];
        assert q[2 * i] == rest[2 * (i - 1)];
        assert q[2 * i + 1] == rest[2 * (i - 1) + 1];
      }
      CountConcat(pair, rest, IsSpawn);
      assert Count(pair, IsSpawn) == 1 by {
        assert pair[1..][1..] == [];
      }
      q
  }

  /**
   * `create_requests_and_events`: one request per row, and per row a SPAWN
   * event one unit before the window opens followed by a DISPATCH event when
   * it opens.
   */
  function CreateRequestsAndEvents(rows: seq<RequestRow>, dist: seq<seq<real>>): (r: Result<(seq<Request>, Queue)>)
    ensures r.Ok? <==> forall i :: 0 <= i < |rows| ==> MakeRequest(rows[i], dist).Ok?
    ensures r.Ok? ==> |r.value.0| == |rows| && |r.value.1| == 2 * |rows|
    ensures r.Ok? ==> forall i :: 0 <= i < |rows| ==> MakeRequest(rows[i], dist) == Ok(r.value.0[i])
    ensures r.Ok? ==> forall i :: 0 <= i < |rows| ==>
      && r.value.1[2 * i] == EnvEvent(rows[i].lw - 1, Spawn, rows[i].id)
      && r.value.1[2 * i + 1] == EnvEvent(rows[i].lw, Dispatch, rows[i].id)
    ensures r.Ok? ==> SpawnCount(r.value.1) == |rows|
  {
    var requests :- MakeRequests(rows, dist);
    Ok((requests, RowEvents(rows)))
  }

  /**
   * `build_environment`: the agents with their fixed wiring, the requests
   * and their events, an all-zero truck matrix over the nodes, clock 0.
   */
  function BuildEnvironment(rows: seq<RequestRow>, numberOfNodes: nat, dist: seq<seq<real>>): (r: Result<Env>)
    ensures r.Ok? <==> CreateRequestsAndEvents(rows, dist).Ok?
    ensures r.Ok? ==>
      && r.value.time == 0
      && (r.value.requests, r.value.events) == CreateRequestsAndEvents(rows, dist).value
      && r.value.agents == Agents.GenerateAndAssignAgents(NumShippers, NumLsps, NumCarriers).value
      && |r.value.trucks| == numberOfNodes && IsSquare(r.value.trucks)
      && (forall i, j :: 0 <= i < numberOfNodes && 0 <= j < numberOfNodes ==> r.value.trucks[i][j] == 0)
      && Sum(r.value.trucks) == 0
      && Accounted(r.value) == |rows|
  {
    var agents := Agents.GenerateAndAssignAgents(NumShippers, NumLsps, NumCarriers).value;
    var created :- CreateRequestsAndEvents(rows, dist);
    SumZeros(numberOfNodes);
    Ok(Env(0, created.0, agents, Zeros(numberOfNodes), created.1))
  }

  /**
   * Conservation over a whole run of corrected steps: the trucks the matrix
   * accounts for are exactly the spawn events handled so far.
   */
  lemma {:induction false} TrucksEqualSpawnsHandled(rows: seq<RequestRow>, numberOfNodes: nat, dist: seq<seq<real>>, contact: Request -> nat, k: nat)
    requires BuildEnvironment(rows, numberOfNodes, dist).Ok?
    requires Run(BuildEnvironment(rows, numberOfNodes, dist).value, contact, k).Ok?
    ensures var r := Run(BuildEnvironment(rows, numberOfNodes, dist).value, contact, k).value;
      Sum(r.trucks) == |rows| - SpawnCount(r.events)
  {
  }
}

/**
 * Server/vehicles.py: vehicles that carry containers up to a fixed count,
 * and the services (legs) a vehicle is scheduled to run, kept in a priority
 * queue ordered by departure time.
 */
module Vehicles {
  import opened Base

  /** `VehicleStatus`, with its numeric values. */
  datatype Status = Idle | EnRoute | Loading | Unloading {
    function Value(): int {
      match this
      case Idle => 0
      case EnRoute => 1
      case Loading => 2
      case Unloading => 4
    }
  }

  /** `Service`: one leg; `requests` starts empty. */
  datatype Service = Service(
    origin: int, destination: int, departureTime: int, arrivalTime: int,
    cost: real, capacity: int, vehicleId: int, remainingDistance: real,
    requests: seq<int>)

  function NewService(origin: int, destination: int, departureTime: int, arrivalTime: int,
                      cost: real, capacity: int, vehicleId: int, remainingDistance: real): (s: Service)
    ensures s.requests == []
    ensures s.departureTime == departureTime && s.arrivalTime == arrivalTime
  {
    Service(origin, destination, departureTime, arrivalTime, cost, capacity, vehicleId, remainingDistance, [])
  }

  /** `Service.__lt__`: departure times alone decide. */
  predicate ServiceLess(a: Service, b: Service) {
    a.departureTime < b.departureTime
  }

  /**
   * The order is strict, and two services are incomparable exactly when
   * they depart at the same time, whatever else differs.
   */
  lemma ServiceLessIsStrictWeakOrder(a: Service, b: Service, c: Service)
    ensures !ServiceLess(a, a)
    ensures ServiceLess(a, b) && ServiceLess(b, c) ==> ServiceLess(a, c)
    ensures !ServiceLess(a, b) && !ServiceLess(b, a) <==> a.departureTime == b.departureTime
  {
  }

  /**
   * `ServiceQueue`: the services in the order they were put. The heap's
   * root is some service no other one departs before; among services
   * departing together the model takes the first one put.
   */
  type ServiceQueue = seq<Service>

  /** The departure times, the keys `heapq` orders the services by. */
  function Departures(q: ServiceQueue): (keys: seq<real>)
    ensures |keys| == |q|
    ensures forall i :: 0 <= i < |q| ==> keys[i] == q[i].departureTime as real
  {
    seq(|q|, i requires 0 <= i < |q| => q[i].departureTime as real)
  }

  /** `put`: the queue gains exactly the one service. */
  function PutService(q: ServiceQueue, s: Service): (r: ServiceQueue)
    ensures multiset(r) == multiset(q) + multiset{s}
  {
    q + [s]
  }

  /**
   * `ServiceQueue.peek`: None on an empty queue; otherwise a service that no
   * queued service departs before. The queue itself is left as it is.
   */
  function PeekService(q: ServiceQueue): (r: Option<Service>)
    ensures r.None? <==> |q| == 0
    ensures r.Some? ==> r.value in q
    ensures r.Some? ==> forall s :: s in q ==> s.departureTime >= r.value.departureTime
  {
    match FirstMin(Departures(q))
    case Err(_) => None
    case Ok(k) =>
      assert forall s :: s in q ==> s.departureTime >= q[k].departureTime by {
        forall s | s in q
          ensures s.departureTime >= q[k].departureTime
        {
          var j :| 0 <= j < |q| && q[j] == s;
          assert Departures(q)[k] <= Departures(q)[j];
        }
      }
      Some(q[k])
  }

  /**
   * A service that departs strictly before everything queued is what the
   * next peek reports once it is put.
   */
  lemma PeekAfterEarlierPut(q: ServiceQueue, s: Service)
    requires forall t :: t in q ==> ServiceLess(s, t)
    ensures PeekService(PutService(q, s)) == Some(s)
  {
    assert s in PutService(q, s);
  }

  /**
   * `Vehicle`: the dataclass with its defaults (no containers, no services,
   * an empty container map and status IDLE).
   */
  datatype Vehicle = Vehicle(
    vehicleId: int, name: string, currentLocation: (int, int), maxContainers: int,
    unitCost: real, emissionFactor: real, carrierId: int,
    numberOfContainers: int, services: ServiceQueue, containers: map<int, int>,
    status: Status)

  function NewVehicle(vehicleId: int, name: string, currentLocation: (int, int), maxContainers: int,
                      unitCost: real, emissionFactor: real, carrierId: int): (v: Vehicle)
    ensures v.numberOfContainers == 0 && v.status == Idle
    ensures v.containers == map[] && v.services == []
    ensures v.maxContainers == maxContainers && v.vehicleId == vehicleId
  {
    Vehicle(vehicleId, name, currentLocation, maxContainers, unitCost, emissionFactor, carrierId, 0, [], map[], Idle)
  }

  /** The quantity held for a request, 0 for one the vehicle has not seen. */
  function Held(m: map<int, int>, requestId: int): int {
    if requestId in m then m[requestId] else 0
  }

  /**
   * `load_vehicle`: while a container slot is free, add `amount` to the
   * request's quantity and take one more slot, whatever the amount. A full
   * vehicle refuses and stays exactly as it was.
   */
  function LoadVehicle(v: Vehicle, requestId: int, amount: int): (r: (bool, Vehicle))
    ensures r.0 <==> v.numberOfContainers < v.maxContainers
    ensures !r.0 ==> r.1 == v
    ensures r.0 ==> r.1.numberOfContainers == v.numberOfContainers + 1
    ensures r.0 ==> r.1.containers.Keys == v.containers.Keys + {requestId}
    ensures r.0 ==> r.1.containers[requestId] == Held(v.containers, requestId) + amount
    ensures r.0 ==> forall k :: k in v.containers && k != requestId ==> r.1.containers[k] == v.containers[k]
    ensures r.1.(numberOfContainers := v.numberOfContainers, containers := v.containers) == v
    ensures v.numberOfContainers <= v.maxContainers ==> r.1.numberOfContainers <= r.1.maxContainers
  {
    if v.numberOfContainers < v.maxContainers then
      var held := if requestId in v.containers then v.containers[requestId] + amount else amount;
      (true, v.(containers := v.containers[requestId := held], numberOfContainers := v.numberOfContainers + 1))
    else
      (false, v)
  }

  /** `load_vehicle` called once per `(request id, amount)` pair, in order; the count of successes. */
  function LoadAll(v: Vehicle, loads: seq<(int, int)>): (r: (Vehicle, nat))
    decreases |loads|
  {
    if |loads| == 0 then (v, 0)
    else
      var (ok, v1) := LoadVehicle(v, loads[0].0, loads[0].1);
      var (w, n) := LoadAll(v1, loads[1..]);
      (w, n + if ok then 1 else 0)
  }

  /** The total amount the loads put on one request. */
  function AmountFor(loads: seq<(int, int)>, requestId: int): int {
    if |loads| == 0 then 0
    else (if loads[0].0 == requestId then loads[0].1 else 0) + AmountFor(loads[1..], requestId)
  }

  /** A full vehicle refuses every load and stays as it is. */
  lemma {:induction false} FullRefusesAll(v: Vehicle, loads: seq<(int, int)>)
    requires v.numberOfContainers >= v.maxContainers
    ensures LoadAll(v, loads) == (v, 0)
    decreases |loads|
  {
    if |loads| > 0 {
      FullRefusesAll(v, loads[1..]);
    }
  }

  /** The loads taken by a vehicle with slots free: the first load, then what the rest of the run takes. */
  lemma LoadAllStep(v: Vehicle, loads: seq<(int, int)>)
    requires |loads| > 0 && v.numberOfContainers < v.maxContainers
    ensures var v1 := LoadVehicle(v, loads[0].0, loads[0].1).1;
      LoadAll(v, loads) == (LoadAll(v1, loads[1..]).0, LoadAll(v1, loads[1..]).1 + 1)
  {
  }

  /**
   * A run of loads fills exactly the free slots, in order: the first
   * `min(|loads|, free)` loads are taken and the rest refused, and the
   * count grows by the number taken.
   */
  lemma {:induction false} LoadAllCount(v: Vehicle, loads: seq<(int, int)>)
    requires v.numberOfContainers <= v.maxContainers
    ensures var (w, n) := LoadAll(v, loads);
      && n == (if |loads| < v.maxContainers - v.numberOfContainers then |loads| else v.maxContainers - v.numberOfContainers)
      && w.numberOfContainers == v.numberOfContainers + n
      && w.numberOfContainers <= w.maxContainers
    decreases |loads|
  {
    if |loads| > 0 {
      if v.numberOfContainers == v.maxContainers {
        FullRefusesAll(v, loads);
      } else {
        var v1 := LoadVehicle(v, loads[0].0, loads[0].1).1;
        LoadAllStep(v, loads);
        LoadAllCount(v1, loads[1..]);
      }
    }
  }

  /** Some load among the first `n` names request `k`. */
  ghost predicate NamedIn(loads: seq<(int, int)>, n: nat, k: int) {
    exists i :: 0 <= i < n && i < |loads| && loads[i].0 == k
  }

  lemma NamedInCons(loads: seq<(int, int)>, n: nat, k: int)
    requires 0 < n <= |loads|
    ensures NamedIn(loads, n, k) <==> loads[0].0 == k || NamedIn(loads[1..], n - 1, k)
  {
    if NamedIn(loads, n, k) && loads[0].0 != k {
      var i :| 0 <= i < n && i < |loads| && loads[i].0 == k;
      assert loads[1..][i - 1].0 == k;
    }
    if NamedIn(loads[1..], n - 1, k) {
      var i :| 0 <= i < n - 1 && i < |loads[1..]| && loads[1..][i].0 == k;
      assert loads[i + 1].0 == k;
    }
  }

  /** The requests the vehicle holds afterwards: those it held and those the taken loads name. */
  lemma {:induction false} LoadAllKeys(v: Vehicle, loads: seq<(int, int)>)
    requires v.numberOfContainers <= v.maxContainers
    ensures var (w, n) := LoadAll(v, loads);
      forall k :: k in w.containers <==> k in v.containers || NamedIn(loads, n, k)
    decreases |loads|
  {
    if |loads| > 0 {
      if v.numberOfContainers == v.maxContainers {
        FullRefusesAll(v, loads);
      } else {
        var v1 := LoadVehicle(v, loads[0].0, loads[0].1).1;
        LoadAllStep(v, loads);
        LoadAllKeys(v1, loads[1..]);
        var n := LoadAll(v, loads).1;
        forall k
          ensures NamedIn(loads, n, k) <==> loads[0].0 == k || NamedIn(loads[1..], n - 1, k)
        {
          LoadAllCount(v1, loads[1..]);
          NamedInCons(loads, n, k);
        }
      }
    }
  }

  /** Each request's quantity grows by the amounts of the taken loads that name it. */
  lemma {:induction false} LoadAllAmounts(v: Vehicle, loads: seq<(int, int)>)
    requires v.numberOfContainers <= v.maxContainers
    ensures var (w, n) := LoadAll(v, loads);
      n <= |loads| && forall k :: k in w.containers ==> w.containers[k] == Held(v.containers, k) + AmountFor(loads[..n], k)
    decreases |loads|
  {
    var (w, n) := LoadAll(v, loads);
    LoadAllCount(v, loads);
    if |loads| == 0 {
      assert loads[..n] == [];
    } else if v.numberOfContainers == v.maxContainers {
      FullRefusesAll(v, loads);
      assert loads[..n] == [];
    } else {
      var v1 := LoadVehicle(v, loads[0].0, loads[0].1).1;
      LoadAllStep(v, loads);
      LoadAllAmounts(v1, loads[1..]);
      assert loads[..n][1..] == loads[1..][..n - 1];
    }
  }
}

/**
 * `Truck` of Server/Agents/Misc.py: a truck's travel time is the distance
 * over its speed rounded up, and `estimate_time` schedules the matching
 * DELIVERED event in the global queue.
 */
module Trucks {
  import opened MiscEvents
  import GlobalQueue

  /** Python's `math.ceil` on an exact real. */
  function Ceil(x: real): (r: int)
    ensures r as real >= x
    ensures (r - 1) as real < x
  {
    -((-x).Floor)
  }

  datatype Truck = Truck(carrier: int, requestId: int, distance: real, averageSpeed: real, travelTime: int)

  /**
   * `Truck.__init__`: the speed is the base speed (60 by default) plus a
   * uniform draw in [-10, 10], taken here as the `jitter` parameter.
   * Only a zero speed, which the division rejects, is excluded.
   */
  function NewTruck(carrier: int, requestId: int, distance: real, baseSpeed: real, jitter: real): (t: Truck)
    requires baseSpeed + jitter != 0.0
    ensures t.carrier == carrier && t.requestId == requestId && t.distance == distance
    ensures t.averageSpeed == baseSpeed + jitter
    ensures t.averageSpeed > 0.0 ==> t.travelTime as real * t.averageSpeed >= distance
    ensures t.averageSpeed > 0.0 ==> (t.travelTime - 1) as real * t.averageSpeed < distance
  {
    var speed := baseSpeed + jitter;
    var tt := Ceil(distance / speed);
    if speed > 0.0 then
      assert (distance / speed) * speed == distance;
      TimesSpeed(tt as real, distance / speed, speed);
      assert (tt - 1) as real < distance / speed;
      TimesSpeed((tt - 1) as real, distance / speed, speed);
      assert (tt - 1) as real * speed < distance;
      Truck(carrier, requestId, distance, speed, tt)
    else
      Truck(carrier, requestId, distance, speed, tt)
  }

  /** Multiplying by a positive speed preserves the order of reals. */
  lemma TimesSpeed(t: real, q: real, speed: real)
    requires speed > 0.0
    ensures t >= q ==> t * speed >= q * speed
    ensures t < q ==> t * speed < q * speed
  {
  }

  /**
   * With a positive speed, the travel time is the least integer whose
   * product with the speed covers the distance.
   */
  lemma TravelTimeIsLeast(carrier: int, requestId: int, distance: real, baseSpeed: real, jitter: real, n: int)
    requires baseSpeed + jitter > 0.0
    requires n as real * (baseSpeed + jitter) >= distance
    ensures NewTruck(carrier, requestId, distance, baseSpeed, jitter).travelTime <= n
  {
    var t := NewTruck(carrier, requestId, distance, baseSpeed, jitter);
    var s := t.averageSpeed;
    assert (t.travelTime - 1) as real * s < distance;
    if n < t.travelTime {
      assert n as real <= (t.travelTime - 1) as real;
      TimesSpeed((t.travelTime - 1) as real, n as real, s);
    }
  }

  /**
   * `estimate_time`: exactly one entry is enqueued, with priority
   * `now + travel_time + 1`, holding a DELIVERED event for the truck's
   * request timestamped `now + travel_time`; the travel time is returned.
   */
  function EstimateTime(t: Truck, now: int, q: GlobalQueue.Queue): (r: (int, GlobalQueue.Queue))
    ensures r.0 == t.travelTime
    ensures |r.1| == |q| + 1 && r.1[..|q|] == q
    ensures r.1[|q|].0 == now + r.0 + 1
    ensures r.1[|q|].1 == Event(now + r.0, Delivered, t.requestId)
    ensures r.1[|q|].0 == r.1[|q|].1.timestamp + 1
  {
    (t.travelTime, GlobalQueue.Enqueue(q, now + t.travelTime + 1, Event(now + t.travelTime, Delivered, t.requestId)))
  }
}

/**
 * The agent-side event record of Server/Agents/Misc.py: an event carries a
 * timestamp, a type and a request id, and events are ordered by timestamp,
 * with the type's numeric value breaking ties.
 */
module MiscEvents {

  /** `Event_Type`: only the members DISPATCHED = 1 and DELIVERED = 3 are defined. */
  datatype EventType = Dispatched | Delivered {
    function Value(): int {
      match this
      case Dispatched => 1
      case Delivered => 3
    }
  }

  datatype Event = Event(timestamp: int, kind: EventType, requestId: int)

  /** `Event.__lt__`: compare types on equal timestamps, timestamps otherwise. */
  predicate Less(a: Event, b: Event) {
    if a.timestamp == b.timestamp then a.kind.Value() < b.kind.Value()
    else a.timestamp < b.timestamp
  }

  /** The key the order is lexicographic on. */
  function Key(e: Event): (int, int) {
    (e.timestamp, e.kind.Value())
  }

  /** Strict lexicographic order on integer pairs, the reference for `Less`. */
  predicate LexLess(a: (int, int), b: (int, int)) {
    a.0 < b.0 || (a.0 == b.0 && a.1 < b.1)
  }

  /** `Less` is exactly the lexicographic order on (timestamp, type value). */
  lemma LessIsLexicographic(a: Event, b: Event)
    ensures Less(a, b) <==> LexLess(Key(a), Key(b))
  {
  }

  /** An earlier timestamp always wins, whatever the types. */
  lemma EarlierIsLess(a: Event, b: Event)
    requires a.timestamp < b.timestamp
    ensures Less(a, b) && !Less(b, a)
  {
  }

  /** Within one instant, DISPATCHED precedes DELIVERED and nothing else is ordered. */
  lemma SameInstantOrder(a: Event, b: Event)
    requires a.timestamp == b.timestamp
    ensures Less(a, b) <==> a.kind == Dispatched && b.kind == Delivered
  {
  }

  /** `Less` is irreflexive and transitive, hence a strict order. */
  lemma LessIsStrictOrder(a: Event, b: Event, c: Event)
    ensures !Less(a, a)
    ensures Less(a, b) ==> !Less(b, a)
    ensures Less(a, b) && Less(b, c) ==> Less(a, c)
  {
  }

  /**
   * Events with the same timestamp and type are mutually not-less, and
   * being incomparable is transitive: the order is a strict weak order.
   */
  lemma IncomparableIffSameKey(a: Event, b: Event, c: Event)
    ensures !Less(a, b) && !Less(b, a) <==> Key(a) == Key(b)
    ensures !Less(a, b) && !Less(b, a) && !Less(b, c) && !Less(c, b) ==> !Less(a, c) && !Less(c, a)
  {
  }
}

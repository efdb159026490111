/**
 * Shared vocabulary of the model: an optional value, a result that carries
 * the exception the Python or JavaScript code would raise, Python's list
 * subscript rule, and a first-minimum selection as done by Python's `min`.
 */
module Base {

  datatype Option<+T> = None | Some(value: T)

  /** The exceptions of the source that the model keeps as values. */
  datatype Error =
    | IndexError                       // Python list / numpy subscript out of range
    | KeyError                         // Python dict lookup of a missing key
    | EmptyArgument                    // Python `min` of an empty sequence
    | InvalidArgument(reason: string)  // JavaScript `throw new Error(reason)`

  datatype Result<+T> = Ok(value: T) | Err(error: Error) {
    predicate IsFailure() {
      Err?
    }

    function PropagateFailure<U>(): Result<U>
      requires Err?
    {
      Err(error)
    }

    function Extract(): T
      requires Ok?
    {
      value
    }
  }

  /**
   * Python's subscript `xs[i]` on a list (or numpy axis) of length `n`:
   * a negative index counts from the end, anything else outside the list
   * raises IndexError.
   */
  function PyIndex(i: int, n: nat): (r: Option<nat>)
    ensures r.Some? <==> -(n as int) <= i < n
    ensures r.Some? ==> r.value < n
    ensures r.Some? && 0 <= i ==> r.value == i
  {
    if 0 <= i < n then Some(i)
    else if -(n as int) <= i < 0 then Some(n + i)
    else None
  }

  /** A Python subscript that raises IndexError instead of answering None. */
  function Subscript(i: int, n: nat): (r: Result<nat>)
    ensures r.Ok? <==> PyIndex(i, n).Some?
    ensures r.Ok? ==> r.value == PyIndex(i, n).value
    ensures r.Err? ==> r.error == IndexError
  {
    match PyIndex(i, n)
    case None => Err(IndexError)
    case Some(k) => Ok(k)
  }

  /** `i` is the position Python's `min(xs, key=k)` reports: a least key, and the first such. */
  ghost predicate IsFirstMin(keys: seq<real>, i: nat) {
    && i < |keys|
    && (forall j :: 0 <= j < |keys| ==> keys[i] <= keys[j])
    && (forall j :: 0 <= j < i ==> keys[i] < keys[j])
  }

  /**
   * Python's `min` scan: keep the current best and replace it only by a
   * strictly smaller key, so the first least key wins.
   */
  function FirstMinFrom(keys: seq<real>, best: nat, i: nat): (r: nat)
    requires best < i <= |keys|
    requires forall j :: 0 <= j < i ==> keys[best] <= keys[j]
    requires forall j :: 0 <= j < best ==> keys[best] < keys[j]
    ensures IsFirstMin(keys, r)
    decreases |keys| - i
  {
    if i == |keys| then best
    else if keys[i] < keys[best] then FirstMinFrom(keys, i, i + 1)
    else FirstMinFrom(keys, best, i + 1)
  }

  /** Python's `min(xs, key=k)`: the first least element, or an error on an empty sequence. */
  function FirstMin(keys: seq<real>): (r: Result<nat>)
    ensures r.Ok? <==> |keys| > 0
    ensures r.Ok? ==> IsFirstMin(keys, r.value)
    ensures r.Err? ==> r.error == EmptyArgument
  {
    if |keys| == 0 then Err(EmptyArgument) else Ok(FirstMinFrom(keys, 0, 1))
  }
}

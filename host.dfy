/**
 * The pieces of the JavaScript host that the library touches: optional
 * values and call arguments, the `Error` objects it throws (whose `cause`
 * it may set), and `Array(n).fill(x)`.
 */
module Host {

  /** An optional value, for `cause?: unknown` and the like. */
  datatype Maybe<X> = Nothing | Just(x: X)

  /** A host value that the library stores but never inspects. */
  datatype Opaque = Opaque(id: nat)

  /**
   * An `Error` kept as a value inside an immutable tuple: its message and
   * the cause it was built with.
   */
  datatype Diagnostic = Diagnostic(message: string, cause: Maybe<Opaque>)

  /** How a callback is called: with no argument, or with one. */
  datatype Args<E> = NoArg | Arg(e: E)

  /**
   * The `cause` property of an `Error` object: unset (`undefined` or
   * `null`, which `??=` treats alike), an error payload of the library's
   * error type, or some other host value.
   */
  datatype Cause<E> = Nullish | Payload(e: E) | Foreign(v: Opaque)

  /** A host `Error` object; only its `cause` is ever changed in place. */
  class Error<E> {
    const message: string
    var cause: Cause<E>

    /** `new Error(message)` (cause `Nullish`) or `new Error(message, { cause })`. */
    constructor (message: string, cause: Cause<E>)
      ensures this.message == message && this.cause == cause
    {
      this.message := message;
      this.cause := cause;
    }
  }

  /** `Array(n).fill(x)`: a fresh sequence of `n` elements, each of them `x`. */
  function Fill<X>(n: nat, x: X): (r: seq<X>)
    ensures |r| == n
    ensures forall i | 0 <= i < n :: r[i] == x
  {
    if n == 0 then [] else Fill(n - 1, x) + [x]
  }
}

/**
 * The Result/Option library: read-only tuples whose discriminant sits at
 * index 2, their constructors, the tag predicates, `unwrap` and `unwrapOr`.
 *
 * Tuples are modelled as they are laid out, slot by slot; `Decode` reads
 * one back as a `Sum.Variant`, and `Encode` is its inverse. `Encode` is
 * the constructors, except that an Err may hold any `Error` in slot 3,
 * as the declared type `Error | undefined` allows.
 */
module Lib {
  import opened Host
  import Sum

  const RESULT_OK: int := 1
  const RESULT_ERROR: int := 2
  const OPTION_SOME: int := 3
  const OPTION_NONE: int := 4

  /** Every tuple keeps its discriminant at this index. */
  const TAG_INDEX: nat := 2

  const WRAP_MESSAGE: string := "Err"
  const NONE_MESSAGE: string := "Could not unwrap() None"
  const RESULT_MESSAGE: string := "Could not unwrap() Result"

  /** One slot of a tuple. */
  datatype Slot<+T, +E> =
    | Value(value: T)        // the payload of Ok and Some
    | Failure(error: E)      // the payload of Err
    | Flag(flag: bool)       // the literal `false` / `true` markers
    | Num(n: int)            // a tag
    | Null
    | Undefined
    | Trace(trace: Diagnostic)   // the `Error` that `Err.Wrap` puts in slot 3

  /**
   * A Result or an Option. An Option never holds an error payload, so the
   * model gives Options the unit type `()` as their error type.
   */
  type Tuple<T, E> = seq<Slot<T, E>>

  // ---------------------------------------------------------------------
  // The declared tuple types

  /** `ResultOk<T> | ResultErr<E>`. */
  ghost predicate IsResult<T, E>(it: Tuple<T, E>) {
    || (|it| == 3 && it[0].Value? && it[1] == Flag(false) && it[TAG_INDEX] == Num(RESULT_OK))
    || (&& |it| == 4 && it[0] == Flag(false) && it[1].Failure? && it[TAG_INDEX] == Num(RESULT_ERROR)
        && (it[3].Undefined? || it[3].Trace?))
  }

  /** `OptionSome<T> | OptionNone`. */
  ghost predicate IsOption<T, E>(it: Tuple<T, E>) {
    || (|it| == 3 && it[0].Value? && it[1] == Flag(false) && it[TAG_INDEX] == Num(OPTION_SOME))
    || it == [Null, Flag(true), Num(OPTION_NONE)]
  }

  /** `Result<T, E> | Option<T>`, what `unwrap` and `unwrapOr` accept. */
  ghost predicate IsTuple<T, E>(it: Tuple<T, E>) {
    IsResult(it) || IsOption(it)
  }

  /** `it[C_TAG_INDEX] === tag`. */
  predicate HasTag<T, E>(it: Tuple<T, E>, tag: int) {
    |it| > TAG_INDEX && it[TAG_INDEX].Num? && it[TAG_INDEX].n == tag
  }

  // ---------------------------------------------------------------------
  // Constructors

  function Ok<T, E>(value: T): (r: Tuple<T, E>)
    ensures IsResult(r) && Decode(r) == Sum.Ok(value)
  {
    [Value(value), Flag(false), Num(RESULT_OK)]
  }

  function Err<T, E>(error: E): (r: Tuple<T, E>)
    ensures IsResult(r) && Decode(r) == Sum.Err(error, Nothing)
  {
    [Flag(false), Failure(error), Num(RESULT_ERROR), Undefined]
  }

  /** `Err.Wrap(error, cause)`: an Err that also carries `new Error("Err", { cause })`. */
  function ErrWrap<T, E>(error: E, cause: Maybe<Opaque>): (r: Tuple<T, E>)
    ensures IsResult(r) && Decode(r) == Sum.Err(error, Just(Diagnostic(WRAP_MESSAGE, cause)))
  {
    [Flag(false), Failure(error), Num(RESULT_ERROR), Trace(Diagnostic(WRAP_MESSAGE, cause))]
  }

  function Some<T, E>(value: T): (r: Tuple<T, E>)
    ensures IsOption(r) && Decode(r) == Sum.Some(value)
  {
    [Value(value), Flag(false), Num(OPTION_SOME)]
  }

  /** The shared `C_NONE` constant. */
  function None<T, E>(): (r: Tuple<T, E>)
    ensures IsOption(r) && Decode(r) == Sum.None
  {
    [Null, Flag(true), Num(OPTION_NONE)]
  }

  // ---------------------------------------------------------------------
  // Reading a tuple back

  /** Which constructor built `it`, decided by its tag alone. */
  function Decode<T, E>(it: Tuple<T, E>): (v: Sum.Variant<T, E>)
    requires IsTuple(it)
  {
    if HasTag(it, RESULT_OK) then Sum.Ok(it[0].value)
    else if HasTag(it, RESULT_ERROR) then
      Sum.Err(it[1].error, if it[3].Trace? then Just(it[3].trace) else Nothing)
    else if HasTag(it, OPTION_SOME) then Sum.Some(it[0].value)
    else Sum.None
  }

  /**
   * The tuple of each variant: what the constructors build, and for an Err
   * with any `Error` in slot 3, the tuple of that declared type.
   */
  function Encode<T, E>(v: Sum.Variant<T, E>): (it: Tuple<T, E>)
    ensures IsTuple(it)
    ensures v.Ok? || v.Err? <==> IsResult(it)
  {
    match v
    case Ok(x) => Ok(x)
    case Err(e, Nothing) => Err(e)
    case Err(e, Just(d)) => [Flag(false), Failure(e), Num(RESULT_ERROR), Trace(d)]
    case Some(x) => Some(x)
    case None => None()
  }

  // ---------------------------------------------------------------------
  // Predicates

  function IsOk<T, E>(it: Tuple<T, E>): (b: bool)
    requires IsResult(it)
    ensures b <==> Decode(it).Ok?
  {
    HasTag(it, RESULT_OK)
  }

  function IsErr<T, E>(it: Tuple<T, E>): (b: bool)
    requires IsResult(it)
    ensures b <==> Decode(it).Err?
  {
    HasTag(it, RESULT_ERROR)
  }

  function IsSome<T, E>(it: Tuple<T, E>): (b: bool)
    requires IsOption(it)
    ensures b <==> Decode(it).Some?
  {
    HasTag(it, OPTION_SOME)
  }

  function IsNone<T, E>(it: Tuple<T, E>): (b: bool)
    requires IsOption(it)
    ensures b <==> Decode(it).None?
  {
    HasTag(it, OPTION_NONE)
  }

  // ---------------------------------------------------------------------
  // unwrap

  /**
   * The optional `expected` argument of `unwrap`: absent, an `Error`
   * object, a message, or a callback that builds the error to throw.
   */
  datatype Expected<!E> =
    | NotGiven
    | Given(error: Error<E>)
    | Message(text: string)
    | Callback(make: Args<E> -> Error<E>)

  /** A call that either returns a value or throws an `Error`. */
  datatype Outcome<T, E> = Returned(value: T) | Thrown(error: Error<E>)

  /**
   * The objects `unwrap` may change: only on an Err, the supplied `Error`
   * or the one the callback returns.
   */
  ghost function Touched<T, E>(it: Tuple<T, E>, expected: Expected<E>): (objs: set<Error<E>>)
    requires IsTuple(it)
  {
    if !Decode(it).Err? then {}
    else match expected
      case Given(x) => {x}
      case Callback(make) => {make(Arg(Decode(it).error))}
      case _ => {}
  }

  /**
   * Returns the payload of an Ok or a Some; throws on a None or an Err.
   * On an Err the thrown error's cause is the error payload, unless the
   * supplied or returned `Error` already had a cause, which then stays.
   */
  method Unwrap<T, E>(it: Tuple<T, E>, expected: Expected<E>) returns (out: Outcome<T, E>)
    requires IsTuple(it)
    // the object a callback hands back is in the heap when `unwrap` runs
    requires Decode(it).Err? && expected.Callback? ==> allocated(expected.make(Arg(Decode(it).error)))
    modifies Touched(it, expected)
    // Ok and Some: the payload, whatever `expected` is (and, by the frame, nothing changes)
    ensures out.Returned? <==> Decode(it).Ok? || Decode(it).Some?
    ensures out.Returned? ==> out.value == Decode(it).value
    // None
    ensures Decode(it).None? && expected.Given? ==>
              out == Thrown(expected.error) && unchanged(expected.error)
    ensures Decode(it).None? && expected.Message? ==>
              out.Thrown? && fresh(out.error) && out.error.message == expected.text && out.error.cause == Nullish
    ensures Decode(it).None? && expected.Callback? ==>
              out == Thrown(expected.make(NoArg))
    ensures Decode(it).None? && expected.NotGiven? ==>
              out.Thrown? && fresh(out.error) && out.error.message == NONE_MESSAGE && out.error.cause == Nullish
    // Err
    ensures Decode(it).Err? && expected.Given? ==>
              && out == Thrown(expected.error)
              && expected.error.cause ==
                   (if old(expected.error.cause) == Nullish then Payload(Decode(it).error) else old(expected.error.cause))
    ensures Decode(it).Err? && expected.Message? ==>
              && out.Thrown? && fresh(out.error) && out.error.message == expected.text
              && out.error.cause == Payload(Decode(it).error)
    ensures Decode(it).Err? && expected.Callback? ==>
              && out == Thrown(expected.make(Arg(Decode(it).error)))
              && out.error.cause ==
                   (if old(expected.make(Arg(Decode(it).error)).cause) == Nullish then Payload(Decode(it).error)
                    else old(expected.make(Arg(Decode(it).error)).cause))
    ensures Decode(it).Err? && expected.NotGiven? ==>
              && out.Thrown? && fresh(out.error) && out.error.message == RESULT_MESSAGE
              && out.error.cause == Payload(Decode(it).error)
  {
    if HasTag(it, RESULT_OK) || HasTag(it, OPTION_SOME) {
      return Returned(it[0].value);
    }

    if HasTag(it, OPTION_NONE) {
      match expected
      case Given(x) =>
        return Thrown(x);
      case Message(text) =>
        var x := new Error(text, Nullish);
        return Thrown(x);
      case Callback(make) =>
        return Thrown(make(NoArg));
      case NotGiven =>
        var x := new Error(NONE_MESSAGE, Nullish);
        return Thrown(x);
    }

    var e := it[1].error;
    match expected
    case Given(x) =>
      if x.cause == Nullish {
        x.cause := Payload(e);
      }
      out := Thrown(x);
    case Message(text) =>
      var x := new Error(text, Payload(e));
      out := Thrown(x);
    case Callback(make) =>
      var x := make(Arg(e));
      if x.cause == Nullish {
        x.cause := Payload(e);
      }
      out := Thrown(x);
    case NotGiven =>
      var x := new Error(RESULT_MESSAGE, Payload(e));
      out := Thrown(x);
  }

  // ---------------------------------------------------------------------
  // unwrapOr

  /** The `fallback` of `unwrapOr`: a literal value, or a callback that computes one. */
  datatype Fallback<T, !E> = Literal(value: T) | Lazy(compute: Args<E> -> T)

  /**
   * Returns the payload of an Ok or a Some; otherwise the literal
   * fallback, or the callback's result, called with no argument on a None
   * and with the error payload on an Err. Never throws.
   */
  function UnwrapOr<T, E>(it: Tuple<T, E>, fallback: Fallback<T, E>): (r: T)
    requires IsTuple(it)
    ensures Decode(it).Ok? || Decode(it).Some? ==> r == Decode(it).value
    ensures Decode(it).None? ==>
              r == (if fallback.Literal? then fallback.value else fallback.compute(NoArg))
    ensures Decode(it).Err? ==>
              r == (if fallback.Literal? then fallback.value else fallback.compute(Arg(Decode(it).error)))
  {
    if HasTag(it, RESULT_OK) || HasTag(it, OPTION_SOME) then it[0].value
    else
      var f: Args<E> -> T := if fallback.Lazy? then fallback.compute else (_ => fallback.value);
      if HasTag(it, OPTION_NONE) then f(NoArg) else f(Arg(it[1].error))
  }

  // ---------------------------------------------------------------------
  // Properties of the encoding

  /** Reading back what a constructor built gives the variant it was built from. */
  lemma DecodeEncode<T, E>(v: Sum.Variant<T, E>)
    ensures Decode(Encode(v)) == v
  {
  }

  /** Every tuple of the declared types is exactly the one its variant builds. */
  lemma EncodeDecode<T, E>(it: Tuple<T, E>)
    requires IsTuple(it)
    ensures Encode(Decode(it)) == it
  {
  }

  /** The declared tuple types hold exactly the tuples some variant encodes to. */
  lemma {:induction false} TypedMeansConstructed<T, E>(it: Tuple<T, E>)
    ensures IsTuple(it) <==> exists v: Sum.Variant<T, E> :: Encode(v) == it
  {
    if IsTuple(it) {
      EncodeDecode(it);
    }
  }

  /**
   * The constructors build exactly the well-typed tuples whose slot 3, if
   * any, is `undefined` or an `Error` with message "Err".
   */
  lemma {:induction false} ConstructorsBuildExactly<T, E>(it: Tuple<T, E>)
    ensures || (exists x: T :: it == Ok(x))
            || (exists e: E :: it == Err(e))
            || (exists e: E, cause: Maybe<Opaque> :: it == ErrWrap(e, cause))
            || (exists x: T :: it == Some(x))
            || it == None()
            <==>
              && IsTuple(it)
              && (|it| == 4 ==> it[3].Undefined? || (it[3].Trace? && it[3].trace.message == WRAP_MESSAGE))
  {
    if IsTuple(it) && (|it| == 4 ==> it[3].Undefined? || (it[3].Trace? && it[3].trace.message == WRAP_MESSAGE)) {
      if HasTag(it, RESULT_OK) {
        assert it == Ok(it[0].value);
      } else if HasTag(it, RESULT_ERROR) && it[3].Undefined? {
        assert it == Err(it[1].error);
      } else if HasTag(it, RESULT_ERROR) {
        assert it == ErrWrap(it[1].error, it[3].trace.cause);
      } else if HasTag(it, OPTION_SOME) {
        assert it == Some(it[0].value);
      }
    }
  }

  /**
   * No two different variants share a tuple: the tags are distinct, so a
   * tag read never confuses an Ok with a Some, or a Result with an Option.
   */
  lemma EncodeInjective<T, E>(v: Sum.Variant<T, E>, w: Sum.Variant<T, E>)
    ensures Encode(v) == Encode(w) <==> v == w
  {
  }

  /** The four tag constants are pairwise distinct, and every constructor puts its own at index 2. */
  lemma TagsSeparateVariants<T, E>(v: Sum.Variant<T, E>, w: Sum.Variant<T, E>)
    ensures Encode(v)[TAG_INDEX] == Encode(w)[TAG_INDEX] <==>
              (v.Ok? && w.Ok?) || (v.Err? && w.Err?) || (v.Some? && w.Some?) || (v.None? && w.None?)
  {
  }

  /** A tuple of the declared types is a Result or an Option, never both. */
  lemma ResultOrOption<T, E>(it: Tuple<T, E>)
    requires IsTuple(it)
    ensures IsResult(it) != IsOption(it)
  {
  }

  /** The slots each constructor fills. */
  lemma SlotLayout<T, E>(value: T, error: E, cause: Maybe<Opaque>)
    ensures Ok<T, E>(value)[0] == Value(value) && Ok<T, E>(value)[1] == Flag(false)
    ensures Err<T, E>(error)[0] == Flag(false) && Err<T, E>(error)[1] == Failure(error)
    ensures Err<T, E>(error)[3] == Undefined
    ensures ErrWrap<T, E>(error, cause)[3] == Trace(Diagnostic(WRAP_MESSAGE, cause))
    ensures Some<T, E>(value)[0] == Value(value) && Some<T, E>(value)[1] == Flag(false)
    ensures None<T, E>() == [Null, Flag(true), Num(OPTION_NONE)]
  {
  }

  // ---------------------------------------------------------------------
  // Properties of the predicates

  /** Exactly one of `isOk` and `isErr` holds of a Result. */
  lemma ResultPredicatesExclusive<T, E>(it: Tuple<T, E>)
    requires IsResult(it)
    ensures IsOk(it) != IsErr(it)
  {
  }

  /** Exactly one of `isSome` and `isNone` holds of an Option. */
  lemma OptionPredicatesExclusive<T, E>(it: Tuple<T, E>)
    requires IsOption(it)
    ensures IsSome(it) != IsNone(it)
  {
  }

  /** What the predicates say of each constructor, for every payload. */
  lemma PredicatesOfConstructors<T, E>(value: T, error: E, cause: Maybe<Opaque>)
    ensures IsOk(Ok<T, E>(value)) && !IsErr(Ok<T, E>(value))
    ensures IsErr(Err<T, E>(error)) && !IsOk(Err<T, E>(error))
    ensures IsErr(ErrWrap<T, E>(error, cause)) && !IsOk(ErrWrap<T, E>(error, cause))
    ensures IsSome(Some<T, E>(value)) && !IsNone(Some<T, E>(value))
    ensures IsNone(None<T, E>()) && !IsSome(None<T, E>())
  {
  }

  // ---------------------------------------------------------------------
  // Properties of unwrapOr

  /** `unwrapOr` gives back the payload of anything built by Ok or Some. */
  lemma UnwrapOrPayload<T, E>(value: T, fallback: Fallback<T, E>)
    ensures UnwrapOr(Ok<T, E>(value), fallback) == value
    ensures UnwrapOr(Some<T, E>(value), fallback) == value
  {
  }

  /** With a literal fallback, `unwrapOr` on an Err or a None gives the fallback. */
  lemma UnwrapOrLiteral<T, E>(error: E, fallback: T)
    ensures UnwrapOr(Err<T, E>(error), Literal(fallback)) == fallback
    ensures UnwrapOr(None<T, E>(), Literal(fallback)) == fallback
  {
  }
}

/**
 * The abstract meaning of a Result or Option tuple: which constructor
 * built it, and with which payload.
 */
module Sum {
  import opened Host

  datatype Variant<+T, +E> =
    | Ok(value: T)
    | Err(error: E, trace: Maybe<Diagnostic>)   // `trace` is slot 3: `undefined`, or an `Error` (the constructors put only `Err.Wrap`'s there)
    | Some(value: T)
    | None
}

# tinyresult in Dafny

A model of `tinyresult`, a small TypeScript library that carries success and failure (`Result`) and presence and absence (`Option`) as ordinary return values. It also models the example pipeline that the library's usage tests build on it.

The library encodes every value as a read-only tuple whose discriminant sits at index 2:

| variant | tuple |
|---|---|
| `Ok(v)` | `[v, false, 1]` |
| `Err(e)` | `[false, e, 2, undefined]` |
| `Err.Wrap(e, cause)` | `[false, e, 2, new Error("Err", { cause })]` |
| `Some(v)` | `[v, false, 3]` |
| `None()` | one shared constant, `[null, true, 4]` |

The model keeps that layout:

- `Lib.Slot` is one tuple slot, and `Lib.Tuple` is a sequence of slots.
- `Lib.IsResult` and `Lib.IsOption` are the declared tuple types.
- The predicates, `Unwrap` and `UnwrapOr` read the tag slot, as the library does.
- `Lib.Decode` reads a tuple back as the abstract sum type `Sum.Variant`. `Lib.Encode` builds the tuple for a variant. It is the constructors, except that an `Err` may hold any `Error` in slot 3, as the declared type `Error | undefined` allows; the constructors themselves put only `undefined` or the "Err" `Error` there.
- Round-trip lemmas in both directions make `Sum.Variant` a faithful view of the tuples. The other contracts are stated through it.

`unwrap` is the one operation that changes state: on an `Err` it sets the `cause` of the caller's `Error` object if that cause is unset. Error objects are therefore a class, `Host.Error`, with a mutable `cause`. `Lib.Unwrap` is a method that may modify only that object, and it returns an `Outcome`: either the payload, or the `Error` it throws.

Files:
- `host.dfy`: the JavaScript host pieces (`Error` objects, optional values, call arguments, `Array(n).fill(x)`).
- `sum.dfy`: the abstract variants.
- `lib.dfy`: the library itself (`src/lib.ts`).
- `usecase.dfy`: the example pipeline of `tests/03-usecase.ts` (`readEnv`, `findLimit`, `job`).

Two behaviours of the code worth spelling out:
- On a `None`, an `Error` passed as `expected` to `unwrap` is thrown unchanged, and its cause is not set (src/lib.ts:133-134).
- A function passed as `unwrapOr`'s fallback is called, with no argument on a `None` and with the payload on an `Err`, and its result is returned (src/lib.ts:175-180).

## Model

| member | source | states |
|---|---|---|
| `Lib.Ok` | src/lib.ts:34-36 | builds a well-typed Result that reads back as `Ok(value)` |
| `Lib.Err` | src/lib.ts:44-46 | builds a well-typed Result that reads back as `Err(error)` with no wrapped trace |
| `Lib.ErrWrap` | src/lib.ts:52-57 | builds a well-typed Result that reads back as `Err(error)`, carrying an Error with message "Err" and the given cause |
| `Lib.Some` | src/lib.ts:95-97 | builds a well-typed Option that reads back as `Some(value)` |
| `Lib.None` | src/lib.ts:90-104 | the shared constant is a well-typed Option that reads back as `None` |
| `Lib.Encode` | src/lib.ts:11-28 | every variant's tuple has one of the declared tuple types, and it is a Result exactly when the variant is `Ok` or `Err` |
| `Lib.IsOk` | src/lib.ts:62-64 | the tag test holds exactly for tuples that read back as `Ok` |
| `Lib.IsErr` | src/lib.ts:69-71 | the tag test holds exactly for tuples that read back as `Err` |
| `Lib.IsSome` | src/lib.ts:106-108 | the tag test holds exactly for tuples that read back as `Some` |
| `Lib.IsNone` | src/lib.ts:110-112 | the tag test holds exactly for tuples that read back as `None` |
| `Lib.Unwrap` | src/lib.ts:122-157 | returns the payload exactly on `Ok`/`Some`, whatever `expected` is, and changes nothing then. On `None` it throws the given Error unchanged, a new Error with the given message, the callback's no-argument result, or a new "Could not unwrap() None". On `Err(e)` it throws the given or returned Error with its cause set to `e` only if unset, or a new Error (the message, or "Could not unwrap() Result") whose cause is `e` |
| `Lib.UnwrapOr` | src/lib.ts:165-181 | returns the payload on `Ok`/`Some`. On `None` it returns the literal fallback or `f()`, and on `Err(e)` the literal or `f(e)`. It has no throwing outcome |
| `Lib.DecodeEncode` | src/lib.ts:34-57 | reading back any constructor's tuple gives the variant it was built from |
| `Lib.EncodeDecode` | src/lib.ts:11-28 | every tuple of the declared types equals the tuple its own variant builds |
| `Lib.TypedMeansConstructed` | src/lib.ts:11-28 | a tuple has one of the declared types exactly when some variant encodes to it (an `Err` may hold any `Error` in slot 3) |
| `Lib.ConstructorsBuildExactly` | src/lib.ts:34-104 | a tuple is built by one of `Ok`, `Err`, `Err.Wrap`, `Some`, `None` exactly when it is well-typed and its slot 3, if any, is `undefined` or an `Error` with message "Err" |
| `Lib.EncodeInjective` | src/lib.ts:1-6 | two variants build the same tuple only if they are equal: a tag read never confuses variants |
| `Lib.TagsSeparateVariants` | src/lib.ts:1-6 | the index-2 slots of two constructors' tuples agree exactly when both come from the same constructor: the four tags are distinct |
| `Lib.ResultOrOption` | src/lib.ts:28-88 | a well-typed tuple is a Result or an Option, never both |
| `Lib.SlotLayout` | src/lib.ts:34-104 | `Ok` puts `false` in slot 1. `Err` puts `false`, `e` and `undefined` in slots 0, 1 and 3. `Err.Wrap` puts the "Err" Error with the cause in slot 3. `None()` is `[null, true, 4]` |
| `Lib.ResultPredicatesExclusive` | src/lib.ts:62-71 | exactly one of `isOk` and `isErr` holds of any Result |
| `Lib.OptionPredicatesExclusive` | src/lib.ts:106-112 | exactly one of `isSome` and `isNone` holds of any Option |
| `Lib.PredicatesOfConstructors` | tests/00-happy-path.ts:57-77 | for every payload: `isOk(Ok(v))` and not `isErr`; `isErr(Err(e))` and `isErr(Err.Wrap(e))`, not `isOk`; `isSome(Some(v))` and not `isNone`; `isNone(None())` and not `isSome` |
| `Lib.UnwrapOrPayload` | tests/00-happy-path.ts:50-55 | `unwrapOr` of `Ok(v)` or `Some(v)` is `v` whatever the fallback |
| `Lib.UnwrapOrLiteral` | tests/01-unhappy-path.ts:54-59 | `unwrapOr` of `Err(e)` or `None()` with a literal fallback is that fallback |
| `Host.Error.constructor` | src/lib.ts:149 | `new Error(message, { cause })` has that message and that cause |
| `Host.Fill` | tests/03-usecase.ts:65-67 | `Array(n).fill(x)` has length `n` and holds `x` at every index |
| `Usecase.ReadEnv` | tests/03-usecase.ts:10-24 | gives `Some(value)` exactly when the key is an own property holding a string, and `None()` otherwise, in particular for a missing key |
| `Usecase.FindLimit` | tests/03-usecase.ts:30-53 | a missing `DATABASE_URL` gives `Err(NO_DATABASE_URL)`. Otherwise `development` gives `Ok(100)`, `production` gives `Ok(1000)`, and any other or missing `NODE_ENV` gives `Err(DB_UNAVAILABLE)` |
| `Usecase.Job` | tests/03-usecase.ts:57-71 | passes a `findLimit` failure on unchanged. A negative input gives `Err(COMPUTATION_ERROR)`. Otherwise the result is `Ok` of five copies of `min(input, limit)`: the limit when `input > limit`, else the input |
| `Usecase.MarkerMeansFailure` | tests/03-usecase.ts:31-33 | slot 1 of any well-typed tuple is a marker or an error payload. When every error payload is truthy, slot 1 is truthy exactly for an `Err` or a `None`. An `Err` with a falsy payload has a falsy slot 1 |
| `Usecase.PipelineMarkerSound` | tests/03-usecase.ts:58-62 | the marker `job` tests on `findLimit`'s result is truthy exactly when `findLimit` failed, because every `dbFail` is an object |
| `Usecase.FixedEnvScenario` | tests/03-usecase.ts:73-113 | with the fixed environment: `readEnv("NODE_ENV")` is `Some("development")`, an unknown key gives `None()`, `findLimit` is `Ok(100)`, `job(42)` is five 42s, `job(1000)` is five 100s, and `job(-1)` is `Err(COMPUTATION_ERROR)` |

## Left out

- Runtime type dispatch (`instanceof Error`, `typeof` "string" or "function") is not modelled. The `expected` argument of `unwrap` and the `fallback` of `unwrapOr` are explicit variants instead. So a function-typed payload passed as a literal fallback, which the library would call as a callback, is not modelled.
- Callbacks are pure functions. Side effects and exceptions thrown inside a callback are not modelled.
- Lib.Unwrap requires that the `Error` a callback returns on an `Err` already exists when `unwrap` is called. A freshly created, unaliased `Error` with an unset cause behaves the same, but its freshness is not stated.
- Lib.Unwrap treats an error payload as a set cause. A `null` or `undefined` error payload, which `??=` would still count as unset, is not told apart, because payloads are generic.
- The stack trace and other host internals of the `Error` built by `Err.Wrap` are not modelled. It is kept as a value, holding its message and an opaque optional cause.
- Object identity is not modelled, because tuples are values. `None()` returning one shared constant shows only as every call giving the same value. Read-only-ness is automatic.
- The TypeScript type-guard narrowing of `isOk` and the other predicates is not modelled. Dafny's discriminators and the `Decode` view play that role.
- Truthiness of error payloads is a parameter of `Usecase.Truthy`, not derived from the payload's value: the pipeline passes "always truthy" for its `dbFail` objects. `Usecase.MarkerMeansFailure` shows that an `Err` whose payload is falsy (`false`, `0`, `""`, `null`) would be misread.
- JavaScript numbers (floating point, `NaN`, `Infinity`, bigint) are not modelled. Payloads are generic, and `job`'s input and limit are integers.
- Promises and `async` are not modelled, because the pipeline never suspends. `findLimit` and `job` are plain functions.
- `expect` and `unwrapOrElse` are not part of this revision of `src/lib.ts`, so they are not part of this model.
- The test harness (`node:test`, the `subjects.forEach` loops) is not modelled. Its assertions appear as lemmas over every payload.

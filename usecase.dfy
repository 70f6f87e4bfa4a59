/**
 * The example pipeline built on the library: look a key up in an
 * environment, choose a limit from it, and run a job clamped by that limit.
 *
 * The pipeline reads one fixed environment object, `ENV` below; here the
 * environment is a parameter, so that every branch can be stated, and
 * `FixedEnvScenario` states what happens with `ENV` itself.
 */
module Usecase {
  import opened Host
  import opened Lib
  import Sum

  /** An environment value, told apart only by `typeof value === "string"`. */
  datatype EnvValue = Text(text: string) | NotText

  /** The own properties of the environment object. */
  type Env = map<string, EnvValue>

  const ENV: Env := map["NODE_ENV" := Text("development"), "DATABASE_URL" := Text("<url>")]

  const DATABASE_URL: string := "DATABASE_URL"
  const NODE_ENV: string := "NODE_ENV"

  /** How many copies of the clamped input a job returns (`Array(5)`). */
  const JOB_WIDTH: nat := 5

  /** The limit each known `NODE_ENV` selects. */
  const LIMITS: map<string, int> := map["development" := 100, "production" := 1000]

  /** The `Error` carried by a `DB_UNAVAILABLE` failure. */
  const UNREACHABLE: Diagnostic := Diagnostic("Could not reach it", Nothing)

  /** `jobFail`, discriminated by its `code`. */
  datatype JobFail =
    | NoDatabaseUrl               // { code: "NO_DATABASE_URL" }
    | DbUnavailable(e: Diagnostic)  // { code: "DB_UNAVAILABLE", e }
    | ComputationError            // { code: "COMPUTATION_ERROR" }

  /** `dbFail`: the failures `findLimit` can report. */
  type DbFail = f: JobFail | !f.ComputationError? witness NoDatabaseUrl

  /** `key` is an own property of `env` holding a string. */
  predicate HasText(env: Env, key: string) {
    key in env && env[key].Text?
  }

  /**
   * JavaScript truthiness of slot 1 of a tuple: a boolean marker, or an
   * error payload, whose truthiness `payloadTruthy` gives.
   */
  predicate Truthy<T, E>(s: Slot<T, E>, payloadTruthy: E -> bool)
    requires s.Flag? || s.Failure?
  {
    if s.Failure? then payloadTruthy(s.error) else s.flag
  }

  /** Every `dbFail` is an object literal, and objects are truthy. */
  predicate FailTruthy(f: DbFail) {
    true
  }

  /** `value === literal` for the payload slot of an Option of strings. */
  predicate StrictEquals<E>(s: Slot<string, E>, literal: string) {
    s.Value? && s.value == literal
  }

  function Min(a: int, b: int): (m: int)
    ensures m <= a && m <= b
    ensures m == a || m == b
  {
    if a <= b then a else b
  }

  /** `readEnv(key)`. */
  function ReadEnv(env: Env, key: string): (r: Tuple<string, ()>)
    ensures IsOption(r)
    ensures IsSome(r) <==> HasText(env, key)
    ensures IsSome(r) ==> r == Some(env[key].text)
    ensures key !in env ==> r == None()
  {
    if key !in env then None()
    else if env[key].Text? then Some(env[key].text)
    else None()
  }

  /**
   * `findLimit()`: no `DATABASE_URL` is a `NO_DATABASE_URL` failure;
   * otherwise `NODE_ENV` selects the limit from `LIMITS`, and any other
   * `NODE_ENV` (or none) is a `DB_UNAVAILABLE` failure.
   */
  function FindLimit(env: Env): (r: Tuple<int, DbFail>)
    ensures IsResult(r)
    ensures !HasText(env, DATABASE_URL) ==> Decode(r) == Sum.Err(NoDatabaseUrl, Nothing)
    ensures HasText(env, DATABASE_URL) && HasText(env, NODE_ENV) && env[NODE_ENV].text in LIMITS ==>
              Decode(r) == Sum.Ok(LIMITS[env[NODE_ENV].text])
    ensures HasText(env, DATABASE_URL) && !(HasText(env, NODE_ENV) && env[NODE_ENV].text in LIMITS) ==>
              Decode(r) == Sum.Err(DbUnavailable(UNREACHABLE), Nothing)
  {
    var url := ReadEnv(env, DATABASE_URL);
    if Truthy(url[1], (_: ()) => true) then Err(NoDatabaseUrl)
    else
      var mode := ReadEnv(env, NODE_ENV)[0];
      if StrictEquals(mode, "development") then Ok(100)
      else if StrictEquals(mode, "production") then Ok(1000)
      else Err(DbUnavailable(UNREACHABLE))
  }

  /**
   * `job(input)`: a failure of `findLimit` is passed on unchanged; a
   * negative input is a `COMPUTATION_ERROR`; otherwise the result is
   * five copies of the input clamped to the limit.
   */
  function Job(env: Env, input: int): (r: Tuple<seq<int>, JobFail>)
    ensures IsResult(r)
    ensures Decode(FindLimit(env)).Err? ==> Decode(r) == Sum.Err(Decode(FindLimit(env)).error, Nothing)
    ensures Decode(FindLimit(env)).Ok? && input < 0 ==> Decode(r) == Sum.Err(ComputationError, Nothing)
    ensures Decode(r).Ok? <==> Decode(FindLimit(env)).Ok? && input >= 0
    ensures Decode(r).Ok? ==>
              && |Decode(r).value| == JOB_WIDTH
              && forall i | 0 <= i < JOB_WIDTH :: Decode(r).value[i] == Min(input, Decode(FindLimit(env)).value)
  {
    var found := FindLimit(env);
    if Truthy(found[1], FailTruthy) then Err(found[1].error)
    else
      var limit := found[0].value;
      if input > limit then Ok(Fill(JOB_WIDTH, limit))
      else if input <= limit && input >= 0 then Ok(Fill(JOB_WIDTH, input))
      else Err(ComputationError)
  }

  /**
   * Destructuring `[value, marker]` and testing the marker is sound only
   * when every error payload is truthy, as the pipeline's `jobFail`
   * objects are; an Err whose payload is falsy reads as a success.
   */
  lemma MarkerMeansFailure<T, E>(it: Tuple<T, E>, payloadTruthy: E -> bool)
    requires IsTuple(it)
    ensures it[1].Flag? || it[1].Failure?
    ensures (forall e :: payloadTruthy(e)) ==>
              (Truthy(it[1], payloadTruthy) <==> Decode(it).Err? || Decode(it).None?)
    ensures Decode(it).Err? && !payloadTruthy(Decode(it).error) ==> !Truthy(it[1], payloadTruthy)
  {
  }

  /** In the pipeline, the marker of `findLimit`'s result is truthy exactly for an Err. */
  lemma PipelineMarkerSound(env: Env)
    ensures Truthy(FindLimit(env)[1], FailTruthy) <==> Decode(FindLimit(env)).Err?
  {
  }

  /** With the fixed environment the pipeline succeeds, and the usage examples hold. */
  lemma FixedEnvScenario()
    ensures ReadEnv(ENV, NODE_ENV) == Some("development")
    ensures ReadEnv(ENV, "MISSING") == None()
    ensures FindLimit(ENV) == Ok(100)
    ensures Job(ENV, 42) == Ok([42, 42, 42, 42, 42])
    ensures Job(ENV, 1000) == Ok([100, 100, 100, 100, 100])
    ensures Job(ENV, -1) == Err(ComputationError)
  {
    assert FindLimit(ENV) == Ok(100);
    assert Fill(JOB_WIDTH, 42) == [42, 42, 42, 42, 42];
    assert Fill(JOB_WIDTH, 100) == [100, 100, 100, 100, 100];
  }
}

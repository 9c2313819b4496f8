/**
 * What the handlers see of HTTP: the request's parts as already-computed
 * inputs, the response as a status with either an error text (`responses.Erro`)
 * or a JSON value (`responses.JSON`, `nil` being no value), and the outside
 * services the handlers call, bundled in an environment.
 */
module Http {
  import opened Wrappers
  import Strconv
  import Auth
  import Security

  const StatusOK: int := 200
  const StatusCreated: int := 201
  const StatusNoContent: int := 204
  const StatusBadRequest: int := 400
  const StatusUnauthorized: int := 401
  const StatusForbidden: int := 403
  const StatusUnprocessableEntity: int := 422
  const StatusInternalServerError: int := 500

  datatype Response<T> = Failure(status: int, error: string) | Success(status: int, value: Option<T>)

  /**
   * A request body: the error `ioutil.ReadAll` returned, if any, and what
   * `json.Unmarshal` made of the bytes that were read.
   */
  datatype Body<B> = Body(readError: Option<string>, decoded: Result<B, string>)

  /**
   * A request: what `auth.ExtractUserID` makes of its `Authorization` header
   * (the caller's id or the error), its one path variable and its body.
   */
  datatype Request<B> = Request(caller: Result<nat, string>, param: string, body: Body<B>)

  /**
   * The outside world: the token configuration and the clock (Unix seconds),
   * the outcome of `database.Connect`, the e-mail format check and bcrypt.
   */
  datatype Env = Env(auth: Auth.Config, now: int, connectError: Option<string>, isEmail: string -> bool, bcrypt: Security.Bcrypt)

  /**
   * `strconv.ParseUint(param, 10, bitSize)` with its error as text: the id is
   * the decimal number the parameter spells, when it fits in `bitSize` bits.
   */
  function PathId(param: string, bitSize: nat): (r: Result<nat, string>)
    requires 0 < bitSize <= 64
    ensures r.Ok? <==> param != "" && Strconv.AllDigits(param) && Strconv.DecimalValue(param) <= Strconv.MaxUint(bitSize)
    ensures r.Ok? ==> r.value == Strconv.DecimalValue(param)
    ensures Strconv.ParseUint(param, bitSize).Err? ==> r == Err(Strconv.ErrorText(param, Strconv.ParseUint(param, bitSize).error))
  {
    Strconv.ParseUintSpec(param, bitSize);
    match Strconv.ParseUint(param, bitSize)
    case Ok(id) => Ok(id)
    case Err(e) => Err(Strconv.ErrorText(param, e))
  }

  /** A path id written by `FormatUint` is read back as itself whenever it fits. */
  lemma PathIdOfFormatted(id: nat, bitSize: nat)
    requires 0 < bitSize <= 64 && id <= Strconv.MaxUint(bitSize)
    ensures PathId(Strconv.FormatUint(id), bitSize) == Ok(id)
  {
    Strconv.FormatParseRoundTrip(id, bitSize);
  }
}

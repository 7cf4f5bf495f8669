/** `authMiddleware`, written out identically in the portfolio and the
    watchlist routes: the `Authorization` header must carry a token that
    `jwt.verify` accepts, and the acting user is the token's `id`. Token
    verification (signature, expiry) is the parameter `verify`: it gives
    the `id` claim of a token it accepts and None for one it rejects. */
module AuthGate {
  import opened Common
  import opened Records

  const NoToken: ApiError := Msg("No token provided")
  const BadToken: ApiError := Msg("Invalid token")

  /** The middleware's decision: a 401 reply, or the user the handler runs as. */
  function Authenticate(header: Option<string>, verify: string -> Option<UserId>): (r: Response<UserId>)
    ensures header.None? || header.value == "" ==> r == ErrorStatus(401, NoToken)
    ensures header.Some? && header.value != "" && verify(header.value).None? ==> r == ErrorStatus(401, BadToken)
    ensures r.Json? <==> header.Some? && header.value != "" && verify(header.value).Some?
    ensures r.Json? ==> r.body == verify(header.value).value
    ensures r.ErrorStatus? ==> r.code == 401
  {
    if header.None? || header.value == "" then ErrorStatus(401, NoToken)
    else
      match verify(header.value)
      case None => ErrorStatus(401, BadToken)
      case Some(id) => Json(id)
  }

  /** The middleware's 401 reply, passed on as the handler's reply. */
  function Refuse<T>(gate: Response<UserId>): (r: Response<T>)
    requires gate.ErrorStatus?
    ensures r.ErrorStatus? && r.code == gate.code && r.error == gate.error
  {
    ErrorStatus(gate.code, gate.error)
  }
}

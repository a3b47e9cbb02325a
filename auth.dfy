/** The `auth` middleware that runs before every todo handler. */
module AuthGate {
  import opened Values
  import opened Oracles
  import opened Responses

  /** The gate's decision: reject without a token, reject a token that fails verification,
      or pass the caller's id on to the handler. */
  datatype Gate = NoToken | BadToken | Caller(id: UserId)

  /** `auth(req, res, next)` given the `token` request header (`None` when absent). JavaScript
      treats the empty string as missing, so an empty header is rejected like an absent one. */
  function Auth(tokens: TokenService, header: Option<Token>): (g: Gate)
    ensures g.NoToken? <==> header.None? || header.value == ""
    ensures g.BadToken? <==> header.Some? && header.value != "" && tokens.verify(header.value).None?
    ensures g.Caller? ==> header.Some? && tokens.verify(header.value) == Some(g.id)
  {
    match header
    case None => NoToken
    case Some(t) =>
      if t == "" then NoToken
      else match tokens.verify(t)
        case None => BadToken
        case Some(id) => Caller(id)
  }

  /** The response the gate sends when it stops a request. */
  function Rejection(g: Gate): (r: Response)
    requires !g.Caller?
    ensures g.NoToken? ==> r.status == 401 && r.body == Message(NoTokenProvided)
    ensures g.BadToken? ==> r.status == 403 && r.body == Message(InvalidToken)
  {
    if g.NoToken? then Response(401, Message(NoTokenProvided))
    else Response(403, Message(InvalidToken))
  }

  /** A token the service signed for `id` always passes the gate as `id`. */
  lemma SignedTokenPasses(tokens: TokenService, id: UserId)
    requires tokens.Sound()
    ensures Auth(tokens, Some(tokens.sign(id))) == Caller(id)
  {
    assert tokens.sign(id) != "" && tokens.verify(tokens.sign(id)) == Some(id);
  }
}

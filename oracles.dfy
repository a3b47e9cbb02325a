/** The foreign capabilities the handlers call: bcrypt, the JWT library and zod's e-mail check.
    Each is an injected function; nothing is assumed about it except, where a lemma needs it,
    the soundness predicate stated here. */
module Oracles {
  import opened Values

  type UserId = string
  type TodoId = string
  type Token = string

  /** The random salt bcrypt draws on every call to `hash`; a parameter of the model. */
  type Salt = nat

  /** A bcrypt digest. It has its own type, so a plaintext password can never be stored
      where a digest is expected. */
  datatype Digest = Digest(text: string)

  /** `bcrypt.hash` and `bcrypt.compare`. */
  datatype Hasher = Hasher(hash: (string, Salt) -> Digest, verify: (string, Digest) -> bool)
  {
    /** The one property of bcrypt the model relies on: a password verifies against any
        digest made from it. */
    ghost predicate Sound()
    {
      forall p, s :: verify(p, hash(p, s))
    }
  }

  /** `Jwt.sign({ id }, secret)` and `Jwt.verify(token, secret).id` (RFC 7519), with the
      secret folded into the two functions. `verify` answers `None` for a token with a bad
      signature, a malformed token or an expired one. */
  datatype TokenService = TokenService(sign: UserId -> Token, verify: Token -> Option<UserId>)
  {
    /** A token the service signed is never empty and decodes to the id it was signed for. */
    ghost predicate Sound()
    {
      forall id :: sign(id) != "" && verify(sign(id)) == Some(id)
    }
  }

  /** Everything the handlers receive from outside: hashing, tokens and zod's `.email()`. */
  datatype Env = Env(hasher: Hasher, tokens: TokenService, isEmail: string -> bool)
}

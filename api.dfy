/** Shapes shared by the server's routes and middleware: an error reply, the identity
    the bearer-token guard attaches to a request, and the claims a session token carries. */
module Api {

  /** A non-success HTTP reply: status code and the `message` of its JSON body. */
  datatype Reply = Reply(status: int, message: string)

  /** `req.user` as the bearer-token guard sets it. */
  datatype Identity = Identity(id: int, email: string)

  /** The claims of a session token: subject id, email, issued-at and expiry, both in
      seconds since the epoch. */
  datatype Claims = Claims(sub: int, email: string, iat: int, exp: int)

  /** The `expiresIn: "7d"` lifetime of every token the server signs, in seconds. */
  const TokenLifetimeSeconds: int := 7 * 24 * 60 * 60

  /** The claims `jwt.sign({ sub: id, email }, secret, { expiresIn: "7d" })` produces at
      `nowSec`: the signing library adds `iat` and `exp`. */
  function IssueClaims(id: int, email: string, nowSec: int): (c: Claims)
    ensures c.sub == id && c.email == email
    ensures c.exp - c.iat == 604800 && c.iat == nowSec
  {
    Claims(id, email, nowSec, nowSec + TokenLifetimeSeconds)
  }
}

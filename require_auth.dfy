/** The bearer-token guard of server/src/middleware/requireAuth.js. The header is split on
    single spaces; the first piece must be exactly `Bearer` and the second non-empty.
    jsonwebtoken's `verify` (signature, secret and expiry) is the parameter `verify`, None
    wherever it would throw. */
module BearerAuth {
  import opened Wrappers
  import opened Strings
  import opened Api

  const MissingHeaderMessage: string := "Missing or invalid Authorization header."
  const BadTokenMessage: string := "Invalid or expired token."
  const Scheme: string := "Bearer"

  /** `const [scheme, token] = (header || "").split(" ")`, then `scheme === "Bearer"` and a
      truthy `token`: the token when both hold. */
  function BearerToken(header: Option<string>): (r: Option<string>)
    ensures r.Some? ==> header.Some? && r.value != "" && ' ' !in r.value
  {
    var parts := Split(header.GetOr(""), ' ');
    if parts[0] == Scheme && |parts| >= 2 && parts[1] != "" then Some(parts[1]) else None
  }

  /** The header shapes that yield a token: `Bearer`, one space, the token (non-empty, no
      space), then the end of the header or another space, after which anything may follow. */
  lemma BearerTokenShape(h: string, t: string)
    ensures BearerToken(Some(h)) == Some(t) <==>
              && t != "" && ' ' !in t && |h| >= 7 + |t| && h[..7 + |t|] == Scheme + " " + t
              && (|h| == 7 + |t| || h[7 + |t|] == ' ')
  {
    var parts := Split(h, ' ');
    if BearerToken(Some(h)) == Some(t) {
      SplitThenJoin(h, ' ');
      var rest := Join(parts[1..], ' ');
      assert h == Scheme + " " + rest;
      var tail := if |parts| == 2 then "" else [' '] + Join(parts[2..], ' ');
      assert parts[1..][1..] == parts[2..];
      assert rest == t + tail;
      assert h == Scheme + " " + t + tail;
      assert h[..7 + |t|] == Scheme + " " + t;
    }
    if && t != "" && ' ' !in t && |h| >= 7 + |t| && h[..7 + |t|] == Scheme + " " + t
       && (|h| == 7 + |t| || h[7 + |t|] == ' ')
    {
      var tail := h[7 + |t|..];
      assert h == Scheme + [' '] + (t + tail);
      SplitAfterSeparator(Scheme, t + tail, ' ');
      SplitHead(t, tail, ' ');
      assert |parts| >= 2;
    }
  }

  /** A token is the second space-separated piece; anything after it is ignored. */
  lemma BearerTokenIgnoresRest(t: string, rest: string)
    requires t != "" && ' ' !in t
    ensures BearerToken(Some(Scheme + " " + t + " " + rest)) == Some(t)
  {
    var h := Scheme + " " + t + " " + rest;
    assert h[..7 + |t|] == Scheme + " " + t && h[7 + |t|] == ' ';
    BearerTokenShape(h, t);
  }

  /** Two spaces after the scheme leave an empty second piece, which is refused. */
  lemma BearerTokenDoubleSpace(rest: string)
    ensures BearerToken(Some(Scheme + "  " + rest)) == None
  {
    assert Scheme + "  " + rest == Scheme + [' '] + ([] + [' '] + rest);
    SplitAfterSeparator(Scheme, [] + [' '] + rest, ' ');
    SplitAfterSeparator([], rest, ' ');
  }

  /** The scheme is compared case-sensitively: any other first piece, `bearer` included,
      is refused. */
  lemma BearerTokenOtherScheme(scheme: string, rest: string)
    requires ' ' !in scheme && scheme != Scheme
    ensures BearerToken(Some(scheme + " " + rest)) == None
  {
    SplitAfterSeparator(scheme, rest, ' ');
    assert scheme + " " + rest == scheme + [' '] + rest;
  }

  lemma BearerTokenLowerCaseScheme(rest: string)
    ensures BearerToken(Some("bearer " + rest)) == None
  {
    assert "bearer " + rest == "bearer" + " " + rest;
    BearerTokenOtherScheme("bearer", rest);
  }

  /** No header, or the scheme alone, is refused. */
  lemma BearerTokenMissing()
    ensures BearerToken(None) == None
    ensures BearerToken(Some("Bearer")) == None
  {
    SplitPlain("Bearer", ' ');
    SplitPlain("", ' ');
  }

  /** What the guard does with a request. */
  datatype Decision =
    | Reject(reply: Reply)
    /** `req.user` is set to this identity and the next handler runs. */
    | Attach(user: Identity)

  /** requireAuth's decision: 401 for a missing or malformed header, 401 for a token
      `verify` refuses, otherwise the identity `{ id: sub, email }` from the verified claims. */
  function Authenticate(header: Option<string>, verify: string -> Option<Claims>): (d: Decision)
    ensures d.Attach? <==> BearerToken(header).Some? && verify(BearerToken(header).value).Some?
    ensures d.Attach? ==> var c := verify(BearerToken(header).value).value;
                          d.user.id == c.sub && d.user.email == c.email
    ensures d.Reject? ==> d.reply.status == 401
    ensures BearerToken(header).None? ==> d == Reject(Reply(401, MissingHeaderMessage))
    ensures BearerToken(header).Some? && verify(BearerToken(header).value).None? ==>
              d == Reject(Reply(401, BadTokenMessage))
  {
    var token := BearerToken(header);
    if token.None? then Reject(Reply(401, MissingHeaderMessage))
    else
      var payload := verify(token.value);
      if payload.None? then Reject(Reply(401, BadTokenMessage))
      else Attach(Identity(payload.value.sub, payload.value.email))
  }

  /** A token the server issued for a user, presented as `Bearer <token>` and accepted by
      `verify`, attaches exactly that user's id and email. */
  lemma IssuedTokenAuthenticates(id: int, email: string, nowSec: int, token: string,
                                 verify: string -> Option<Claims>)
    requires token != "" && ' ' !in token
    requires verify(token) == Some(IssueClaims(id, email, nowSec))
    ensures Authenticate(Some(Scheme + " " + token), verify) == Attach(Identity(id, email))
  {
    var h := Scheme + " " + token;
    assert h[..7 + |token|] == Scheme + " " + token;
    BearerTokenShape(h, token);
  }

  /** The request object as the guard sees it. */
  class Request {
    /** `req.headers.authorization`. */
    const authorization: Option<string>
    /** `req.user`, None until a guard sets it. */
    var user: Option<Identity>

    constructor (authorization: Option<string>)
      ensures this.authorization == authorization && user == None
    {
      this.authorization := authorization;
      user := None;
    }
  }

  /** requireAuth(req, res, next): either answers with `reply` and leaves the request alone,
      or sets `req.user` and calls the next handler. */
  method RequireAuth(req: Request, verify: string -> Option<Claims>)
    returns (reply: Option<Reply>, nextCalled: bool)
    modifies req
    ensures var d := Authenticate(req.authorization, verify);
            && nextCalled == d.Attach? && nextCalled == reply.None?
            && (d.Reject? ==> reply == Some(d.reply) && req.user == old(req.user))
            && (d.Attach? ==> req.user == Some(d.user))
  {
    var d := Authenticate(req.authorization, verify);
    if d.Reject? {
      return Some(d.reply), false;
    }
    req.user := Some(d.user);
    return None, true;
  }
}

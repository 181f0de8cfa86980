/**
 * The `verifyToken` middleware (app/verify-token.ts): the `Authorization`
 * header is split on single spaces, the first piece must be exactly
 * `Bearer`, the second piece must be non-empty, and that piece is handed to
 * the JWT check. The JWT check is a foreign call, so it is a parameter:
 * `verify(token)` is the decoded `userId` claim, or None when the signature,
 * the expiry or the decoding fails.
 */
module VerifyToken {
  import opened Models
  import opened HeaderSplit

  const Unauthorized := 401
  const NoTokenOrBearer := "Authentication failed (no token or Bearer)"
  const NoToken := "Authentication failed (no token)"
  const InvalidToken := "Authentication failed (invalid token)"

  /** The gate's decision: a 401 response, or go on with the decoded user id. */
  datatype GateResult = Reject(status: int, message: string) | Proceed(userId: Id)

  /** The decision `verifyToken` takes on a request whose header is `header`. */
  function Gate(header: Option<string>, verify: string -> Option<Id>): (r: GateResult)
    ensures header.None? ==> r == Reject(Unauthorized, NoTokenOrBearer)
    ensures r.Reject? ==> r.status == Unauthorized
    ensures r.Reject? ==>
      r.message == NoTokenOrBearer || r.message == NoToken || r.message == InvalidToken
  {
    if header.None? then Reject(Unauthorized, NoTokenOrBearer)
    else
      var auth := Split(header.value);
      if auth[0] != "Bearer" then Reject(Unauthorized, NoTokenOrBearer)
      else if |auth| < 2 || auth[1] == "" then Reject(Unauthorized, NoToken)
      else
        match verify(auth[1])
        case None => Reject(Unauthorized, InvalidToken)
        case Some(userId) => Proceed(userId)
  }

  /**
   * `h` is `Bearer`, one space, the token `t`, and then either nothing or
   * a space followed by anything.
   */
  predicate BearerToken(h: string, t: string, rest: string) {
    h == "Bearer " + t + rest && t != "" && ' ' !in t && (rest == "" || rest[0] == ' ')
  }

  /** After `Bearer` and a space, the pieces are those of the remaining text. */
  lemma BearerPrefixSplit(h: string)
    requires |h| >= 7 && h[..7] == "Bearer "
    ensures Split(h) == ["Bearer"] + Split(h[7..])
  {
    assert h == "Bearer" + " " + h[7..];
    SplitAppend("Bearer", h[7..]);
    SplitNoSpace("Bearer");
  }

  /**
   * The first piece is exactly `Bearer` when the header is `Bearer` alone or
   * starts with `Bearer` and a space.
   */
  lemma BearerPrefix(h: string)
    ensures Split(h)[0] == "Bearer" <==> h == "Bearer" || (|h| >= 7 && h[..7] == "Bearer ")
  {
    SplitHead(h);
    var w := Split(h)[0];
    if |h| >= 7 && h[..7] == "Bearer " {
      BearerPrefixSplit(h);
    } else if h == "Bearer" {
      SplitNoSpace(h);
    } else if |w| == 6 {
      if |h| == 6 {
        assert h == h[..6] == w;
      } else {
        assert h[..7] == h[..6] + [h[6]] == w + " ";
      }
    }
  }

  /**
   * A well-formed bearer header is decided by the JWT check on its token
   * alone; whatever follows the token after a space is ignored.
   */
  lemma GateBearerToken(h: string, t: string, rest: string, verify: string -> Option<Id>)
    requires BearerToken(h, t, rest)
    ensures Gate(Some(h), verify) ==
      match verify(t)
      case None => Reject(Unauthorized, InvalidToken)
      case Some(userId) => Proceed(userId)
  {
    assert h[..7] == "Bearer ";
    assert h[7..] == t + rest;
    BearerPrefixSplit(h);
    SplitNoSpace(t);
    if rest == "" {
      assert h[7..] == t;
    } else {
      var more := rest[1..];
      assert h[7..] == t + " " + more;
      SplitAppend(t, more);
    }
    assert Split(h)[0] == "Bearer" && |Split(h)| >= 2 && Split(h)[1] == t;
  }

  /**
   * `Bearer` with no token piece, or an empty token piece (`"Bearer "`,
   * `"Bearer  x"`), is rejected with "no token".
   */
  lemma GateEmptyToken(h: string, rest: string, verify: string -> Option<Id>)
    requires h == "Bearer" || (h == "Bearer " + rest && (rest == "" || rest[0] == ' '))
    ensures Gate(Some(h), verify) == Reject(Unauthorized, NoToken)
  {
    if h == "Bearer" {
      SplitNoSpace(h);
    } else {
      BearerPrefixSplit(h);
      assert h[7..] == rest;
      SplitHead(rest);
    }
  }

  /**
   * A header that does not start with the exact, case-sensitive word
   * `Bearer` followed by a space or the end is rejected with
   * "no token or Bearer".
   */
  lemma GateWrongScheme(h: string, verify: string -> Option<Id>)
    requires h != "Bearer"
    requires |h| < 7 || h[..7] != "Bearer "
    ensures Gate(Some(h), verify) == Reject(Unauthorized, NoTokenOrBearer)
  {
    BearerPrefix(h);
  }

  /** The scheme comparison is case-sensitive: `bearer <token>` is refused. */
  lemma LowerCaseSchemeRejected(t: string, verify: string -> Option<Id>)
    ensures Gate(Some("bearer " + t), verify) == Reject(Unauthorized, NoTokenOrBearer)
  {
    var h := "bearer " + t;
    assert h[0] == 'b';
    GateWrongScheme(h, verify);
  }

  /** A request the gate lets through carries a well-formed bearer header whose token decodes to the user. */
  lemma GateProceedsOnlyIf(h: string, u: Id, verify: string -> Option<Id>)
    requires Gate(Some(h), verify) == Proceed(u)
    ensures exists t, rest :: BearerToken(h, t, rest) && verify(t) == Some(u)
  {
    BearerPrefix(h);
    BearerPrefixSplit(h);
    var tail := h[7..];
    SplitHead(tail);
    var t := Split(tail)[0];
    var rest := tail[|t|..];
    assert tail == t + rest;
    assert h == "Bearer " + t + rest;
    assert BearerToken(h, t, rest);
  }

  /**
   * The gate lets a request through with user `u` exactly when the header
   * is a well-formed bearer header whose token the JWT check decodes to `u`.
   */
  lemma GateProceedsIff(h: string, u: Id, verify: string -> Option<Id>)
    ensures Gate(Some(h), verify) == Proceed(u) <==>
      exists t, rest :: BearerToken(h, t, rest) && verify(t) == Some(u)
  {
    if exists t, rest :: BearerToken(h, t, rest) && verify(t) == Some(u) {
      var t, rest :| BearerToken(h, t, rest) && verify(t) == Some(u);
      GateBearerToken(h, t, rest, verify);
    }
    if Gate(Some(h), verify) == Proceed(u) {
      GateProceedsOnlyIf(h, u, verify);
    }
  }

  /** The request as the middleware sees it: its header and its `userId` slot. */
  datatype Request = Request(authorization: Option<string>, userId: Option<Id>)

  /**
   * What one run of the middleware leaves behind: the request (with
   * `userId` possibly set), the response it sent if any, and how many times
   * it called `next`.
   */
  datatype Outcome = Outcome(request: Request, response: Option<(int, string)>, nextCalls: nat)

  /**
   * The middleware's effects: on rejection it sends the 401 and neither sets
   * `userId` nor calls `next`; on success it sets `userId` to the decoded
   * claim, sends nothing, and calls `next` exactly once.
   */
  function Middleware(req: Request, verify: string -> Option<Id>): (o: Outcome)
    ensures o.nextCalls <= 1
    ensures o.nextCalls == 1 <==> o.response.None?
    ensures o.response.Some? ==> o.response.value.0 == Unauthorized && o.request == req
    ensures o.nextCalls == 1 ==>
      o.request.authorization == req.authorization && o.request.userId.Some? &&
      Gate(req.authorization, verify) == Proceed(o.request.userId.value)
    ensures req.authorization.None? ==> o == Outcome(req, Some((Unauthorized, NoTokenOrBearer)), 0)
    ensures Gate(req.authorization, verify).Proceed? ==>
      o == Outcome(req.(userId := Some(Gate(req.authorization, verify).userId)), None, 1)
    ensures Gate(req.authorization, verify).Reject? ==>
      o == Outcome(req, Some((Unauthorized, Gate(req.authorization, verify).message)), 0)
  {
    match Gate(req.authorization, verify)
    case Reject(status, message) => Outcome(req, Some((status, message)), 0)
    case Proceed(userId) => Outcome(req.(userId := Some(userId)), None, 1)
  }
}

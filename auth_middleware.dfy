/**
 * The `authenticate` middleware: it reads the Authorization header, expects
 * `Bearer <token>`, and hands the token to the JWT verifier. On success it
 * attaches `{ id, roles }` to the request and calls `next`; on any failure it
 * answers 401.
 */
module AuthMiddleware {
  import opened Wrappers
  import Js

  /** The claims of a verified token that the middleware reads. */
  datatype Payload = Payload(id: string, roles: seq<string>)

  /**
   * What `jwt.verify` does with a token: it returns the payload or throws.
   * `isError` tells whether the thrown value is an `Error` instance.
   */
  datatype VerifyResult = Verified(payload: Payload) | Threw(isError: bool)

  /** What the middleware attaches to the request as `req.user`. */
  datatype ReqUser = ReqUser(id: string, roles: seq<string>)

  /** The verdict of the header checks that come before verification. */
  datatype HeaderCheck = NoToken | BadFormat | BearerToken(token: string)

  /** The middleware's effect: either `next` runs with a user, or a 401 is sent. */
  datatype AuthOutcome = Next(user: ReqUser) | Unauthorized(message: string)

  const BearerScheme := "Bearer"
  const NoTokenMessage := "Unauthorized: No token provided"
  const BadFormatMessage := "Unauthorized: Token format is invalid"
  const VerifyFailedMessage := "Unauthorized: Token verification failed"
  const UnknownErrorMessage := "Unauthorized: An unknown error occurred"

  /**
   * The header checks. A missing or empty header has no token. Otherwise the
   * header is split on single spaces, and only the first two pieces matter.
   * The first must be exactly `Bearer`, and the second must exist and be
   * non-empty.
   */
  function CheckHeader(header: Option<string>): (r: HeaderCheck)
    ensures r == NoToken <==> header.None? || header.value == ""
    ensures r.BearerToken? ==> r.token != "" && ' ' !in r.token
  {
    if header.None? || header.value == "" then NoToken
    else
      var pieces := Js.Split(header.value, ' ');
      var prefix := pieces[0];
      var accessToken: Option<string> := if |pieces| > 1 then Some(pieces[1]) else None;
      if prefix != BearerScheme || accessToken.None? || accessToken.value == "" then BadFormat
      else BearerToken(accessToken.value)
  }

  /** The whole decision of the middleware, with the verifier as an oracle. */
  function Decide(header: Option<string>, verify: string -> VerifyResult): (r: AuthOutcome)
    ensures r.Next? ==> CheckHeader(header).BearerToken?
    ensures r.Unauthorized? ==>
      r.message in {NoTokenMessage, BadFormatMessage, VerifyFailedMessage, UnknownErrorMessage}
  {
    match CheckHeader(header)
    case NoToken => Unauthorized(NoTokenMessage)
    case BadFormat => Unauthorized(BadFormatMessage)
    case BearerToken(token) =>
      match verify(token)
      case Verified(payload) => Next(ReqUser(payload.id, payload.roles))
      case Threw(isError) => Unauthorized(if isError then VerifyFailedMessage else UnknownErrorMessage)
  }

  /**
   * `Bearer <token>` is accepted when the token is non-empty and free of
   * spaces. Anything after the next space is ignored.
   */
  lemma {:induction false} BearerAccepted(token: string, rest: string)
    requires token != "" && ' ' !in token
    requires rest == "" || rest[0] == ' '
    ensures CheckHeader(Some("Bearer " + token + rest)) == BearerToken(token)
  {
    var h := "Bearer " + token + rest;
    assert h == BearerScheme + [' '] + (token + rest);
    Js.SplitAtFirstSeparator(BearerScheme, ' ', token + rest);
    Js.SplitFirstPiece(token, ' ', rest);
    var pieces := Js.Split(h, ' ');
    assert pieces == [BearerScheme] + Js.Split(token + rest, ' ');
    assert pieces[0] == BearerScheme && pieces[1] == token;
  }

  /**
   * Conversely, an accepted header starts with `Bearer `, then the token,
   * then either ends or continues with a space.
   */
  lemma {:induction false} AcceptedHeaderShape(header: Option<string>)
    requires CheckHeader(header).BearerToken?
    ensures var t := CheckHeader(header).token;
            && header.Some?
            && |header.value| >= 7 + |t|
            && header.value[..7 + |t|] == "Bearer " + t
            && (|header.value| == 7 + |t| || header.value[7 + |t|] == ' ')
  {
    var h := header.value;
    var t := CheckHeader(header).token;
    var pieces := Js.Split(h, ' ');
    assert |pieces| >= 2 && pieces[0] == BearerScheme && pieces[1] == t;
    assert h == pieces[0] + [' '] + Js.Join(pieces[1..], ' ');
    var tail := Js.Join(pieces[1..], ' ');
    if |pieces| == 2 {
      assert tail == t;
    } else {
      assert pieces[1..][1..] == pieces[2..];
      assert tail == t + [' '] + Js.Join(pieces[2..], ' ');
    }
    assert h == "Bearer " + tail;
  }

  /** Two spaces after `Bearer` leave an empty second piece: rejected. */
  lemma {:induction false} DoubleSpaceRejected(x: string)
    ensures CheckHeader(Some("Bearer  " + x)) == BadFormat
  {
    var h := "Bearer  " + x;
    assert h == BearerScheme + [' '] + ([] + [' '] + x);
    Js.SplitAtFirstSeparator(BearerScheme, ' ', [] + [' '] + x);
    Js.SplitAtFirstSeparator([], ' ', x);
  }

  /** A third piece is never looked at: `Bearer x y` verifies `x`. */
  lemma ThirdPieceIgnored()
    ensures CheckHeader(Some("Bearer x y")) == BearerToken("x")
  {
    BearerAccepted("x", " y");
    assert "Bearer " + "x" + " y" == "Bearer x y";
  }

  /** The scheme is compared exactly: `bearer x` and `Bearer` alone are rejected. */
  lemma SchemeComparedExactly()
    ensures CheckHeader(Some("bearer x")) == BadFormat
    ensures CheckHeader(Some("Bearer")) == BadFormat
  {
    if CheckHeader(Some("bearer x")).BearerToken? {
      AcceptedHeaderShape(Some("bearer x"));
      assert false;
    }
    if CheckHeader(Some("Bearer")).BearerToken? {
      AcceptedHeaderShape(Some("Bearer"));
      assert false;
    }
  }

  /**
   * `next` runs exactly when the header is well formed and the verifier
   * returns a payload. The user is then exactly the payload's id and roles.
   * Every other case is a 401 with the message of the check that failed; a
   * thrown `Error` and any other thrown value get different messages.
   */
  lemma DecideOutcomes(header: Option<string>, verify: string -> VerifyResult)
    ensures var r := Decide(header, verify);
            && (r.Next? <==> CheckHeader(header).BearerToken? && verify(CheckHeader(header).token).Verified?)
            && (r.Next? ==> var p := verify(CheckHeader(header).token).payload; r.user == ReqUser(p.id, p.roles))
            && (header.None? || header.value == "" ==> r == Unauthorized(NoTokenMessage))
            && (CheckHeader(header).BadFormat? ==> r == Unauthorized(BadFormatMessage))
            && (CheckHeader(header).BearerToken? && verify(CheckHeader(header).token) == Threw(true) ==>
                  r == Unauthorized(VerifyFailedMessage))
            && (CheckHeader(header).BearerToken? && verify(CheckHeader(header).token) == Threw(false) ==>
                  r == Unauthorized(UnknownErrorMessage))
  {
  }

  /**
   * The verifier is consulted only on the extracted token: a malformed header
   * gets the same answer whatever the verifier would say.
   */
  lemma VerifierSeesOnlyTheToken(header: Option<string>, v1: string -> VerifyResult, v2: string -> VerifyResult)
    requires CheckHeader(header).BearerToken? ==> v1(CheckHeader(header).token) == v2(CheckHeader(header).token)
    ensures Decide(header, v1) == Decide(header, v2)
  {
  }

  /** One HTTP exchange as the middleware sees it: the request and its response. */
  class Exchange {
    /** `req.headers.authorization`. */
    const authorization: Option<string>
    /** `req.user`, unset until the middleware attaches it. */
    var user: Option<ReqUser>
    /** The response status and message, once one is sent. */
    var status: Option<int>
    var message: Option<string>
    /** How many times `next` has been called. */
    var nextCalls: nat

    constructor (authorization: Option<string>)
      ensures this.authorization == authorization
      ensures user == None && status == None && message == None && nextCalls == 0
    {
      this.authorization := authorization;
      user, status, message, nextCalls := None, None, None, 0;
    }

    /** `authenticate(req, res, next)`. */
    method Authenticate(verify: string -> VerifyResult)
      modifies this
      ensures match Decide(authorization, verify)
              case Next(u) =>
                && user == Some(u) && nextCalls == old(nextCalls) + 1
                && status == old(status) && message == old(message)
              case Unauthorized(m) =>
                && status == Some(401) && message == Some(m)
                && user == old(user) && nextCalls == old(nextCalls)
    {
      var token := authorization;
      if token.None? || token.value == "" {
        status, message := Some(401), Some(NoTokenMessage);
        return;
      }
      var pieces := Js.Split(token.value, ' ');
      var prefix := pieces[0];
      var accessToken: Option<string> := if |pieces| > 1 then Some(pieces[1]) else None;
      if prefix != BearerScheme || accessToken.None? || accessToken.value == "" {
        status, message := Some(401), Some(BadFormatMessage);
        return;
      }
      match verify(accessToken.value)
      case Verified(payload) =>
        user := Some(ReqUser(payload.id, payload.roles));
        nextCalls := nextCalls + 1;
      case Threw(isError) =>
        status := Some(401);
        message := Some(if isError then VerifyFailedMessage else UnknownErrorMessage);
    }
  }
}

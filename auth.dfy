/**
 * The authentication middleware: take the bearer token from the
 * `Authorization` header, verify it, and attach the claims to the request.
 */
module Auth {
  import opened Wrappers
  import opened Strings
  import opened Errors

  /** The decoded token payload; the core reads only the user id. */
  datatype Claims = Claims(userId: Option<string>)

  const TokenNotFound := ServerError("Auth token not found.", Unauthorized)

  /** `authHeader?.split(" ")[1]?.trim()`, with an empty result counted as missing. */
  function ExtractToken(authHeader: Option<string>): (r: Option<string>)
    ensures authHeader.None? ==> r.None?
    ensures r.Some? ==> r.value != [] && r.value == Trim(r.value)
  {
    match authHeader
    case None => None
    case Some(h) =>
      var parts := Split(h, ' ');
      if |parts| < 2 then None
      else
        var token := Trim(parts[1]);
        TrimSpec(parts[1]);
        TrimUnchanged(token);
        if token == [] then None else Some(token)
  }

  /**
   * The token is the second space-separated word, trimmed; the first word
   * is not checked and later words are ignored (`X a b` gives `a`).
   */
  lemma SecondWordIsToken(first: string, token: string, more: string)
    requires ' ' !in first && ' ' !in token
    requires token != [] && !IsSpace(token[0]) && !IsSpace(token[|token| - 1])
    requires more == [] || more[0] == ' '
    ensures ExtractToken(Some(first + [' '] + token + more)) == Some(token)
  {
    assert first + [' '] + token + more == first + [' '] + (token + more);
    SplitAfterFirst(first, ' ', token + more);
    if more == [] {
      assert token + more == token;
      SplitNoSep(token, ' ');
    } else {
      assert token + more == token + [' '] + more[1..];
      SplitAfterFirst(token, ' ', more[1..]);
    }
    TrimUnchanged(token);
  }

  /**
   * No token is found exactly when the header is missing, has no space, or
   * has a second word made only of white space (two spaces in a row leave
   * it empty).
   */
  lemma NoTokenIff(authHeader: Option<string>)
    ensures ExtractToken(authHeader).None? <==>
      || authHeader.None?
      || |Split(authHeader.value, ' ')| < 2
      || forall k :: 0 <= k < |Split(authHeader.value, ' ')[1]| ==> IsSpace(Split(authHeader.value, ' ')[1][k])
  {
    if authHeader.Some? && |Split(authHeader.value, ' ')| >= 2 {
      TrimEmptyIff(Split(authHeader.value, ' ')[1]);
    }
  }

  /** A header without a space, or with two spaces after its first word, yields no token. */
  lemma NoTokenExamples(first: string, rest: string)
    requires ' ' !in first
    ensures ExtractToken(Some(first)) == None
    ensures ExtractToken(Some(first + "  " + rest)) == None
  {
    SplitNoSep(first, ' ');
    assert first + "  " + rest == first + [' '] + ([' '] + rest);
    SplitAfterFirst(first, ' ', [' '] + rest);
    assert [' '] + rest == [] + [' '] + rest;
    SplitAfterFirst([], ' ', rest);
  }

  /** A found token is non-empty, holds no space and neither starts nor ends with white space. */
  lemma TokenShape(authHeader: Option<string>)
    requires ExtractToken(authHeader).Some?
    ensures var t := ExtractToken(authHeader).value;
      t != [] && ' ' !in t && !IsSpace(t[0]) && !IsSpace(t[|t| - 1])
  {
    var parts := Split(authHeader.value, ' ');
    SplitPieces(authHeader.value, ' ');
    assert ' ' !in parts[1];
    TrimSpec(parts[1]);
  }

  /** The parts of an incoming request the middleware reads and writes. */
  class Request {
    /** `req.get('Authorization')`. */
    var authorization: Option<string>
    /** `req.claims`. */
    var claims: Option<Claims>
    /** How many times the middleware has passed the request on with `next()`. */
    var nextCalls: nat

    constructor (authorization: Option<string>)
      ensures this.authorization == authorization && claims == None && nextCalls == 0
    {
      this.authorization := authorization;
      claims := None;
      nextCalls := 0;
    }
  }

  /**
   * Rejects a request without a token with 401 and passes on the verifier's
   * error for a bad one; otherwise sets `req.claims` to the verified claims
   * and calls `next()` once.
   */
  method AuthMiddleware(req: Request, verifyJwt: string -> Result<Claims, ServerError>) returns (r: Result<(), ServerError>)
    modifies req
    ensures req.authorization == old(req.authorization)
    ensures ExtractToken(old(req.authorization)).None? ==>
      r == Failure(TokenNotFound) && req.claims == old(req.claims) && req.nextCalls == old(req.nextCalls)
    ensures ExtractToken(old(req.authorization)).Some? ==>
      match verifyJwt(ExtractToken(old(req.authorization)).value)
      case Failure(e) => r == Failure(e) && req.claims == old(req.claims) && req.nextCalls == old(req.nextCalls)
      case Success(claims) => r == Success(()) && req.claims == Some(claims) && req.nextCalls == old(req.nextCalls) + 1
  {
    var token := ExtractToken(req.authorization);
    if token.None? {
      return Failure(TokenNotFound);
    }
    var claims := verifyJwt(token.value);
    if claims.Failure? {
      return Failure(claims.error);
    }
    req.claims := Some(claims.value);
    req.nextCalls := req.nextCalls + 1;
    r := Success(());
  }
}

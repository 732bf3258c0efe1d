/** The authentication and authorization middleware of middleware/auth.js: reading a bearer
    token into `res.locals.user`, and the three gates that let a request continue or hand
    `next` an UnauthorizedError. */
module Auth {
  import opened Wrappers
  import opened Text
  import opened Js

  /** The token payload `jwt.verify` returns: the fields the gates read. */
  datatype Payload = Payload(username: Value, isAdmin: Value)

  /** `jwt.verify(token, SECRET_KEY)`: the payload, or `None` where it throws. */
  type Verifier = string -> Option<Payload>

  /** What a middleware hands to `next`: nothing, or an error. */
  datatype Next = Continue | Fail(error: ExpressError)

  /** `res.locals`, whose `user` the authentication middleware sets; `None` is `undefined`. */
  class Locals {
    var user: Option<Payload>

    constructor()
      ensures user == None
    {
      user := None;
    }
  }

  /** True when `h` begins with `prefix`. */
  predicate StartsWith(h: string, prefix: string) {
    |prefix| <= |h| && h[..|prefix|] == prefix
  }

  /** `h.replace(/^[Bb]earer /, "")`: a leading "Bearer " or "bearer " removed, once, and only
      at the start. */
  function StripBearer(h: string): (r: string)
    ensures StartsWith(h, "Bearer ") || StartsWith(h, "bearer ") ==> r == h[7..]
    ensures !(StartsWith(h, "Bearer ") || StartsWith(h, "bearer ")) ==> r == h
    ensures |r| <= |h| && r == h[|h| - |r|..]
  {
    if |h| >= 7 && (h[..7] == "Bearer " || h[..7] == "bearer ") then h[7..] else h
  }

  /** The token read from an Authorization header: bearer prefix removed, then trimmed. */
  function Token(h: string): (t: string)
    ensures t == [] || (!IsJsWhitespace(t[0]) && !IsJsWhitespace(t[|t| - 1]))
  {
    Trim(StripBearer(h))
  }

  /** `authenticateJWT` with `authorization` the value of `req.headers && req.headers.authorization`:
      it always calls `next()` without an error; it sets the user only when the header is
      truthy and verification succeeds. A header that is not a string makes `replace` throw,
      and a failing `jwt.verify` throws; both are caught and leave the user as it was. */
  method AuthenticateJWT(authorization: Value, locals: Locals, verify: Verifier) returns (n: Next)
    modifies locals
    ensures n == Continue
    ensures Truthy(authorization) && authorization.Str? && verify(Token(authorization.s)).Some? ==>
              locals.user == verify(Token(authorization.s))
    ensures !(Truthy(authorization) && authorization.Str? && verify(Token(authorization.s)).Some?) ==>
              locals.user == old(locals.user)
  {
    if Truthy(authorization) {
      if !authorization.Str? {
        return Continue;
      }
      var token := Trim(StripBearer(authorization.s));
      var payload := verify(token);
      if payload.None? {
        return Continue;
      }
      locals.user := payload;
    }
    return Continue;
  }

  /** `ensureLoggedIn`: UnauthorizedError exactly when there is no user. */
  function EnsureLoggedIn(user: Option<Payload>): (n: Next)
    ensures n.Fail? <==> user.None?
    ensures n.Fail? ==> n.error == UnauthorizedError
  {
    if user.None? then Fail(UnauthorizedError) else Continue
  }

  /** `ensureAdmin`: continues exactly when there is a user whose `isAdmin` is truthy. */
  function EnsureAdmin(user: Option<Payload>): (n: Next)
    ensures n == Continue <==> user.Some? && Truthy(user.value.isAdmin)
    ensures n.Fail? ==> n.error == UnauthorizedError
  {
    if user.None? || !Truthy(user.value.isAdmin) then Fail(UnauthorizedError) else Continue
  }

  /** `ensureUserOrAdminCredentials`: continues exactly when there is a user that is an admin or
      whose `username` is strictly equal to the route's `username` parameter. */
  function EnsureUserOrAdminCredentials(user: Option<Payload>, paramUsername: Value): (n: Next)
    ensures n == Continue <==>
              user.Some? && (Truthy(user.value.isAdmin) || user.value.username == paramUsername)
    ensures n.Fail? ==> n.error == UnauthorizedError
  {
    if !(user.Some? && (Truthy(user.value.isAdmin) || user.value.username == paramUsername)) then
      Fail(UnauthorizedError)
    else
      Continue
  }

  /** The gates are ordered: an admin passes every gate, and a user who passes the
      user-or-admin gate is logged in. */
  lemma GatesOrdered(user: Option<Payload>, paramUsername: Value)
    ensures EnsureAdmin(user) == Continue ==> EnsureUserOrAdminCredentials(user, paramUsername) == Continue
    ensures EnsureAdmin(user) == Continue ==> EnsureLoggedIn(user) == Continue
    ensures EnsureUserOrAdminCredentials(user, paramUsername) == Continue ==> EnsureLoggedIn(user) == Continue
  {
  }

  /** A user reaches their own route, whatever `isAdmin` holds; a non-admin is turned away
      from any other user's route. */
  lemma OwnRouteOnly(p: Payload, paramUsername: Value)
    ensures EnsureUserOrAdminCredentials(Some(p), p.username) == Continue
    ensures !Truthy(p.isAdmin) && paramUsername != p.username ==>
              EnsureUserOrAdminCredentials(Some(p), paramUsername) == Fail(UnauthorizedError)
  {
  }

  /** A payload without `username` matches a route without a `username` parameter:
      `undefined === undefined`. */
  lemma MissingUsernameMatchesMissingParam(isAdmin: Value)
    ensures EnsureUserOrAdminCredentials(Some(Payload(Undefined, isAdmin)), Undefined) == Continue
  {
  }

  /** `isAdmin` is tested for truthiness: a payload with `isAdmin: "false"` is an admin, and one
      with `isAdmin: 0` is not. */
  lemma AdminIsTruthiness(username: Value)
    ensures EnsureAdmin(Some(Payload(username, Str("false")))) == Continue
    ensures EnsureAdmin(Some(Payload(username, Num(0)))) == Fail(UnauthorizedError)
  {
  }

  /** A token after either spelling of the prefix is the rest of the header, trimmed. */
  lemma BearerPrefixRemoved(rest: string)
    ensures Token("Bearer " + rest) == Trim(rest)
    ensures Token("bearer " + rest) == Trim(rest)
  {
    assert ("Bearer " + rest)[..7] == "Bearer ";
    assert ("Bearer " + rest)[7..] == rest;
    assert ("bearer " + rest)[..7] == "bearer ";
    assert ("bearer " + rest)[7..] == rest;
  }

  /** The prefix is removed once: a header with the prefix twice keeps the second. */
  lemma BearerRemovedOnce(rest: string)
    ensures Token("Bearer " + ("Bearer " + rest)) == Trim("Bearer " + rest)
  {
    BearerPrefixRemoved("Bearer " + rest);
  }

  /** A header without the prefix at its start is only trimmed: "BEARER " and a prefix after
      leading spaces stay in the token. */
  lemma NoPrefixOnlyTrimmed(h: string)
    requires !StartsWith(h, "Bearer ") && !StartsWith(h, "bearer ")
    ensures Token(h) == Trim(h)
  {
  }

  /** The token is a slice of the header: nothing is added, and what is cut is the prefix and
      surrounding whitespace. */
  lemma TokenIsSlice(h: string)
    ensures exists i, j :: 0 <= i <= j <= |h| && Token(h) == h[i..j]
  {
    var s := StripBearer(h);
    var k := |h| - |s|;
    var i, j :| 0 <= i <= j <= |s| && Trim(s) == s[i..j] && AllWhitespace(s[..i]) && AllWhitespace(s[j..]);
    assert s[i..j] == h[k + i..k + j];
    assert 0 <= k + i <= k + j <= |h| && Token(h) == h[k + i..k + j];
  }
}

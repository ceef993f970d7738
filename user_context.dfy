/** How the services learn who is calling (Services/UserContextAccessor.cs):
    the request's principal, its identity's authenticated flag and its claims. */
module UserContext {
  import opened Wrappers
  import opened Queries
  import opened Text

  /** The claim-type URIs of ClaimTypes, and the short JWT registered names. */
  const NameIdentifierType := "http://schemas.xmlsoap.org/ws/2005/05/identity/claims/nameidentifier"
  const EmailType := "http://schemas.xmlsoap.org/ws/2005/05/identity/claims/emailaddress"
  const NameType := "http://schemas.xmlsoap.org/ws/2005/05/identity/claims/name"
  const SubType := "sub"

  datatype Claim = Claim(claimType: string, value: string)

  datatype Identity = Identity(isAuthenticated: bool)

  /** The request's user: a primary identity (possibly null) and its claims. */
  datatype ClaimsPrincipal = ClaimsPrincipal(identity: Option<Identity>, claims: seq<Claim>)

  datatype HttpContext = HttpContext(user: Option<ClaimsPrincipal>)

  /** Claim `c` is of type `claimType`; claim types are compared without case. */
  predicate OfType(c: Claim, claimType: string) {
    EqualsIgnoringCase(c.claimType, claimType)
  }

  /** Some claim of `claims` has type `claimType`. */
  predicate HasClaim(claims: seq<Claim>, claimType: string) {
    exists c :: c in claims && OfType(c, claimType)
  }

  /** The first claim of type `claimType` in `claims` carries `value`. */
  ghost predicate IsFirstClaim(claims: seq<Claim>, claimType: string, value: string) {
    exists i :: IsFirstMatch(claims, (c: Claim) => OfType(c, claimType), i) && claims[i].value == value
  }

  /** At most one value is the first claim of a type. */
  lemma FirstClaimUnique(claims: seq<Claim>, claimType: string, v: string, w: string)
    requires IsFirstClaim(claims, claimType, v) && IsFirstClaim(claims, claimType, w)
    ensures v == w
  {
    var i :| IsFirstMatch(claims, (c: Claim) => OfType(c, claimType), i) && claims[i].value == v;
    var k :| IsFirstMatch(claims, (c: Claim) => OfType(c, claimType), k) && claims[k].value == w;
    assert i == k;
  }

  /** The first claim of `claims[1..]` of a type, when `claims[0]` has another type. */
  lemma FirstClaimOfTail(claims: seq<Claim>, claimType: string, value: string)
    requires claims != [] && !OfType(claims[0], claimType)
    requires IsFirstClaim(claims[1..], claimType, value)
    ensures IsFirstClaim(claims, claimType, value)
  {
    var i :| IsFirstMatch(claims[1..], (c: Claim) => OfType(c, claimType), i) && claims[1..][i].value == value;
    assert claims[i + 1] == claims[1..][i];
    forall j | 0 <= j < i + 1
      ensures !OfType(claims[j], claimType)
    {
      if j > 0 {
        assert claims[j] == claims[1..][j - 1];
      }
    }
  }

  /** `FindFirst(type)?.Value`: the value of the first claim of that type,
      types compared without case as `ClaimsIdentity.FindFirst` does. */
  function FindFirst(claims: seq<Claim>, claimType: string): (r: Option<string>)
    ensures r.Some? <==> HasClaim(claims, claimType)
    ensures r.Some? ==> IsFirstClaim(claims, claimType, r.value)
  {
    if claims == [] then None
    else if OfType(claims[0], claimType) then
      Some(claims[0].value)
    else
      var r := FindFirst(claims[1..], claimType);
      assert HasClaim(claims, claimType) ==> HasClaim(claims[1..], claimType) by {
        if HasClaim(claims, claimType) {
          var c :| c in claims && OfType(c, claimType);
          assert c in claims[1..];
        }
      }
      if r.Some? then FirstClaimOfTail(claims, claimType, r.value); r else r
  }

  /** `HttpContext?.User?.Identity?.IsAuthenticated == true`; a missing
      context, user or identity reads as not authenticated. */
  predicate IsAuthenticated(ctx: Option<HttpContext>)
    ensures IsAuthenticated(ctx) <==>
      exists claims :: ctx == Some(HttpContext(Some(ClaimsPrincipal(Some(Identity(true)), claims))))
  {
    && ctx.Some?
    && ctx.value.user.Some?
    && ctx.value.user.value.identity.Some?
    && ctx.value.user.value.identity.value.isAuthenticated
  }

  /** The value of the first claim of a type, read only from an authenticated
      principal. */
  function AuthenticatedClaim(ctx: Option<HttpContext>, claimType: string): (r: Option<string>)
    ensures r.Some? ==> IsAuthenticated(ctx) && IsFirstClaim(ctx.value.user.value.claims, claimType, r.value)
    ensures IsAuthenticated(ctx) && HasClaim(ctx.value.user.value.claims, claimType) ==> r.Some?
  {
    if IsAuthenticated(ctx) then FindFirst(ctx.value.user.value.claims, claimType) else None
  }

  /** The caller's id: the first NameIdentifier claim, falling back to the
      first "sub" claim. */
  function GetCurrentUserId(ctx: Option<HttpContext>): (r: Option<string>)
    ensures !IsAuthenticated(ctx) ==> r == None
    ensures IsAuthenticated(ctx) ==>
      var claims := ctx.value.user.value.claims;
      && (HasClaim(claims, NameIdentifierType) ==> r.Some? && IsFirstClaim(claims, NameIdentifierType, r.value))
      && (!HasClaim(claims, NameIdentifierType) ==>
            (r.Some? <==> HasClaim(claims, SubType)) && (r.Some? ==> IsFirstClaim(claims, SubType, r.value)))
  {
    if IsAuthenticated(ctx) then
      var claims := ctx.value.user.value.claims;
      match FindFirst(claims, NameIdentifierType)
      case Some(v) => Some(v)
      case None => FindFirst(claims, SubType)
    else None
  }

  function GetCurrentUserEmail(ctx: Option<HttpContext>): (r: Option<string>)
    ensures r.Some? ==> IsAuthenticated(ctx) && IsFirstClaim(ctx.value.user.value.claims, EmailType, r.value)
    ensures IsAuthenticated(ctx) && HasClaim(ctx.value.user.value.claims, EmailType) ==> r.Some?
  {
    AuthenticatedClaim(ctx, EmailType)
  }

  function GetCurrentUserName(ctx: Option<HttpContext>): (r: Option<string>)
    ensures r.Some? ==> IsAuthenticated(ctx) && IsFirstClaim(ctx.value.user.value.claims, NameType, r.value)
    ensures IsAuthenticated(ctx) && HasClaim(ctx.value.user.value.claims, NameType) ==> r.Some?
  {
    AuthenticatedClaim(ctx, NameType)
  }

  /** A principal's first NameIdentifier claim, or without one its first
      "sub" claim, is the id GetCurrentUserId resolves. */
  lemma FirstIdClaimIsCurrentUserId(ctx: Option<HttpContext>, userId: string)
    ensures IsAuthenticated(ctx) ==>
      var claims := ctx.value.user.value.claims;
      (if HasClaim(claims, NameIdentifierType) then IsFirstClaim(claims, NameIdentifierType, userId)
       else IsFirstClaim(claims, SubType, userId)) ==>
      GetCurrentUserId(ctx) == Some(userId)
  {
    if IsAuthenticated(ctx) {
      var claims := ctx.value.user.value.claims;
      var current := GetCurrentUserId(ctx);
      if HasClaim(claims, NameIdentifierType) {
        if IsFirstClaim(claims, NameIdentifierType, userId) {
          FirstClaimUnique(claims, NameIdentifierType, current.value, userId);
        }
      } else if IsFirstClaim(claims, SubType, userId) {
        assert HasClaim(claims, SubType) by {
          var k :| 0 <= k < |claims| && OfType(claims[k], SubType) && claims[k].value == userId;
          assert claims[k] in claims;
        }
        FirstClaimUnique(claims, SubType, current.value, userId);
      }
    }
  }

  /** Is `userId` the caller's own, non-empty id? It is exactly when the
      principal is authenticated and `userId` is a non-empty value of its first
      NameIdentifier claim or, without one, of its first "sub" claim. */
  predicate IsCurrentUser(ctx: Option<HttpContext>, userId: string)
    ensures IsCurrentUser(ctx, userId) ==> IsAuthenticated(ctx) && userId != ""
    ensures IsAuthenticated(ctx) && userId != "" ==>
      var claims := ctx.value.user.value.claims;
      (IsCurrentUser(ctx, userId) <==>
        if HasClaim(claims, NameIdentifierType) then IsFirstClaim(claims, NameIdentifierType, userId)
        else IsFirstClaim(claims, SubType, userId))
  {
    FirstIdClaimIsCurrentUserId(ctx, userId);
    var current := GetCurrentUserId(ctx);
    current.Some? && current.value != "" && current.value == userId
  }

  /** A subject claim whose type is written in upper case still identifies
      the caller. */
  lemma UpperCaseSubjectResolves(id: string)
    ensures GetCurrentUserId(Some(HttpContext(Some(ClaimsPrincipal(Some(Identity(true)), [Claim("SUB", id)]))))) == Some(id)
  {
    var claims := [Claim("SUB", id)];
    assert LowerChar('S') == 's' && LowerChar('U') == 'u' && LowerChar('B') == 'b';
    assert OfType(claims[0], SubType);
    assert !OfType(claims[0], NameIdentifierType);
  }
}

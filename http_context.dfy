/** The part of an ASP.NET Core request the middlewares touch: the
  authenticated user, the user's primary ClaimsIdentity, the per-request
  `Items` dictionary and the `next` delegate.

  The principal's claims are the token's claims as they stood when the request
  reached the middleware; the identity is a separate mutable object, as
  `context.User.Identity as ClaimsIdentity` is. The rest of the pipeline behind
  `next` is not modelled: the context only counts how often it was invoked.
 */
module HttpPipeline {
  import opened Claims

  /** One `(Resource, Scopes)` tuple of the permission list. */
  datatype Permission = Permission(resource: string, scopes: seq<string>)

  /** An object stored in `HttpContext.Items`: the middleware's
      `List<(string Resource, List<string> Scopes)>`, or an object of any other
      type. */
  datatype ItemValue = PermissionList(perms: seq<Permission>) | OtherObject

  const PermissionsKey := "KeycloakPermissions"

  class ClaimsIdentity {
    var claims: seq<Claim>

    constructor (initial: seq<Claim>)
      ensures claims == initial
    {
      claims := initial;
    }

    /** `ClaimsIdentity.AddClaim`: appended, duplicates included. */
    method AddClaim(c: Claim)
      modifies this
      ensures claims == old(claims) + [c]
    {
      claims := claims + [c];
    }
  }

  class HttpContext {
    const user: Principal
    /** `context.User.Identity as ClaimsIdentity`. */
    const identity: ClaimsIdentity?
    var items: map<string, ItemValue>
    var nextCalls: nat

    constructor (user: Principal, identity: ClaimsIdentity?, items: map<string, ItemValue>)
      ensures this.user == user && this.identity == identity && this.items == items && nextCalls == 0
    {
      this.user := user;
      this.identity := identity;
      this.items := items;
      nextCalls := 0;
    }

    /** `await _next(context)`. */
    method Next()
      modifies this
      ensures nextCalls == old(nextCalls) + 1
      ensures items == old(items)
    {
      nextCalls := nextCalls + 1;
    }
  }
}

/** The authorisation gate (middleware/auth.ts): the identity attached to a
    request from its Authorization header, and the two guards every
    resolver calls. Token verification (a JWT check) is a parameter. */
module AuthGuard {
  import opened Common
  import opened UserModel

  /** The payload of a verified token. */
  datatype Identity = Identity(userId: Id, email: string, role: Role)

  /** The per-request context: an identity, or none. */
  datatype Context = Context(user: Option<Identity>)

  /** The scheme prefix, compared case-sensitively, trailing space included. */
  const BearerPrefix: string := "Bearer "

  /** The header a client sends for `token`. */
  function BearerHeader(token: string): string {
    BearerPrefix + token
  }

  /** createContext. `verify` stands for verifyToken: Some payload for a
      valid token, None where it throws; the thrown error is swallowed, so
      building a context never fails. */
  function CreateContext(header: Option<string>, verify: string -> Option<Identity>): (ctx: Context)
    ensures forall token :: header == Some(BearerHeader(token)) ==> ctx.user == verify(token)
    ensures ctx.user.Some? ==> exists token :: header == Some(BearerHeader(token)) && ctx.user == verify(token)
  {
    if header.Some? && StartsWith(header.value, BearerPrefix) then
      var token := header.value[|BearerPrefix|..];
      assert header.value == BearerHeader(token);
      Context(verify(token))
    else
      Context(None)
  }

  /** The prefix is matched case-sensitively: a lower-case scheme never
      yields an identity, whatever the token. */
  lemma LowerCaseSchemeRejected(token: string, verify: string -> Option<Identity>)
    ensures CreateContext(Some("bearer " + token), verify).user.None?
  {
    var h := "bearer " + token;
    assert h[0] == 'b';
    forall t ensures h != BearerHeader(t) {
      assert BearerHeader(t)[0] == 'B';
    }
  }

  /** requireAuth: the identity, or 'Authentication required'. */
  function RequireAuth(ctx: Context): (r: Result<Identity>)
    ensures r.Ok? <==> ctx.user.Some?
    ensures r.Ok? ==> r.value == ctx.user.value
    ensures r.Err? ==> r.error == AuthenticationRequired
  {
    match ctx.user
    case None => Err(AuthenticationRequired)
    case Some(u) => Ok(u)
  }

  /** requireRole: authentication first, then the role check. */
  function RequireRole(ctx: Context, allowed: seq<Role>): (r: Result<Identity>)
    ensures r.Ok? <==> ctx.user.Some? && ctx.user.value.role in allowed
    ensures r.Ok? ==> r.value == ctx.user.value
    ensures ctx.user.None? ==> r == Err(AuthenticationRequired)
    ensures ctx.user.Some? && ctx.user.value.role !in allowed ==> r == Err(InsufficientPermissions)
  {
    match RequireAuth(ctx)
    case Err(e) => Err(e)
    case Ok(u) => if u.role in allowed then Ok(u) else Err(InsufficientPermissions)
  }

  /** With no role allowed, every caller is refused. */
  lemma NoRoleAllowedRefusesAll(ctx: Context)
    ensures RequireRole(ctx, []).Err?
  {
  }

  /** An identity obtained from a header reaches the guards unchanged:
      requireAuth returns exactly what the token verified to. */
  lemma VerifiedTokenAuthenticates(token: string, verify: string -> Option<Identity>)
    requires verify(token).Some?
    ensures RequireAuth(CreateContext(Some(BearerHeader(token)), verify)) == Ok(verify(token).value)
  {
  }
}

/** Registration, login and the current user (resolvers/authResolvers.ts).
    Hashing a password is `Bcrypt` with a salt passed in; signing a token
    is a function passed in. */
module AuthResolvers {
  import opened Common
  import opened UserModel
  import opened AuthGuard
  import opened Store

  datatype RegisterInput = RegisterInput(
    email: string, password: string, firstName: string, lastName: string, phone: string, role: Role)

  datatype LoginInput = LoginInput(email: string, password: string)

  /** The answer of register and login: a signed token and the user. */
  datatype AuthPayload = AuthPayload(token: string, user: User)

  /** The token payload generateToken signs. */
  function PayloadOf(u: User): Identity {
    Identity(u.id, u.email, u.role)
  }

  /** me: the caller's own record, or null once it is gone. */
  function Me(users: seq<User>, ctx: Context): (r: Result<Option<User>>)
    ensures r.Ok? <==> ctx.user.Some?
    ensures r.Err? ==> r.error == AuthenticationRequired
    ensures r.Ok? ==> (r.value.None? <==> forall k :: 0 <= k < |users| ==> users[k].id != ctx.user.value.userId)
    ensures r.Ok? && r.value.Some? ==> r.value.value in users && r.value.value.id == ctx.user.value.userId
  {
    match RequireAuth(ctx)
    case Err(e) => Err(e)
    case Ok(user) =>
      var i := UserIndex(users, user.userId);
      if i < 0 then Ok(None) else Ok(Some(users[i]))
  }

  /** register, decided: an email already taken (after the schema's
      normalisation) is refused; otherwise the new user stores the bcrypt
      hash of the password. `id` is the id the store assigns. */
  function Registration(users: seq<User>, input: RegisterInput, id: Id, salt: string): (r: Result<User>)
    ensures r.Ok? <==> EmailIndex(users, input.email) < 0 && UserIndex(users, id) < 0
    ensures 0 <= EmailIndex(users, input.email) ==> r == Err(UserAlreadyExists)
    ensures r.Ok? ==> r.value == NewUser(id, input.email, Bcrypt(input.password, salt),
                                         input.firstName, input.lastName, input.phone, input.role)
    ensures r.Ok? ==> PasswordMatches(input.password, r.value.password) && r.value.role == input.role
  {
    if 0 <= EmailIndex(users, input.email) then Err(UserAlreadyExists)
    else if 0 <= UserIndex(users, id) then Err(DuplicateKey)
    else Ok(NewUser(id, input.email, Bcrypt(input.password, salt),
                    input.firstName, input.lastName, input.phone, input.role))
  }

  /** A registered user keeps the user collection valid. */
  lemma RegistrationKeepsValid(users: seq<User>, input: RegisterInput, id: Id, salt: string)
    requires UsersValid(users) && Registration(users, input, id, salt).Ok?
    ensures UsersValid(users + [Registration(users, input, id, salt).value])
  {
    var u := Registration(users, input, id, salt).value;
    assert u.email == NormalizeEmail(input.email) && u.id == id && u.addresses == [];
    NormalizeEmailIdempotent(input.email);
    assert forall k :: 0 <= k < |users| ==> users[k].id != u.id && users[k].email != u.email;
    AppendKeepsUsersValid(users, u);
  }

  /** register: stores the user and answers with a token for it. */
  method Register(db: Database, input: RegisterInput, id: Id, salt: string, sign: Identity -> string)
    returns (r: Result<AuthPayload>)
    requires db.Valid()
    modifies db
    ensures db.Valid()
    ensures r.Ok? <==> Registration(old(db.users), input, id, salt).Ok?
    ensures r.Err? ==> r.error == Registration(old(db.users), input, id, salt).error
    ensures r.Ok? ==> (r.value.user == Registration(old(db.users), input, id, salt).value
      && r.value.token == sign(PayloadOf(r.value.user)))
    ensures r.Ok? ==> db.users == old(db.users) + [r.value.user]
    ensures r.Err? ==> db.users == old(db.users)
    ensures db.restaurants == old(db.restaurants) && db.menuItems == old(db.menuItems)
    ensures db.orders == old(db.orders) && db.reviews == old(db.reviews)
  {
    var decided := Registration(db.users, input, id, salt);
    if decided.Err? {
      return Err(decided.error);
    }
    RegistrationKeepsValid(db.users, input, id, salt);
    db.users := db.users + [decided.value];
    r := Ok(AuthPayload(sign(PayloadOf(decided.value)), decided.value));
  }

  /** login: an unknown email and a wrong password give the same error;
      a deactivated account is reported only to a caller who knows its
      password. */
  function Login(users: seq<User>, input: LoginInput, sign: Identity -> string): (r: Result<AuthPayload>)
    ensures r.Ok? <==> (0 <= EmailIndex(users, input.email)
      && PasswordMatches(input.password, users[EmailIndex(users, input.email)].password)
      && users[EmailIndex(users, input.email)].isActive)
    ensures EmailIndex(users, input.email) < 0 ==> r == Err(InvalidCredentials)
    ensures 0 <= EmailIndex(users, input.email)
      && !PasswordMatches(input.password, users[EmailIndex(users, input.email)].password)
      ==> r == Err(InvalidCredentials)
    ensures r == Err(AccountDeactivated) ==>
      PasswordMatches(input.password, users[EmailIndex(users, input.email)].password)
    ensures r.Ok? ==> (r.value.user == users[EmailIndex(users, input.email)]
      && r.value.token == sign(PayloadOf(r.value.user)))
  {
    var i := EmailIndex(users, input.email);
    if i < 0 then Err(InvalidCredentials)
    else if !PasswordMatches(input.password, users[i].password) then Err(InvalidCredentials)
    else if !users[i].isActive then Err(AccountDeactivated)
    else Ok(AuthPayload(sign(PayloadOf(users[i])), users[i]))
  }

  /** Registration and login fit together: right after registering, any
      email with the same stored form (the email as typed, or in another
      letter case, or with other surrounding white space) and the same
      password log the new user in. */
  lemma RegisterThenLogin(users: seq<User>, input: RegisterInput, id: Id, salt: string,
                          email: string, sign: Identity -> string)
    requires Registration(users, input, id, salt).Ok?
    requires NormalizeEmail(email) == NormalizeEmail(input.email)
    ensures var u := Registration(users, input, id, salt).value;
      Login(users + [u], LoginInput(email, input.password), sign) == Ok(AuthPayload(sign(PayloadOf(u)), u))
  {
    var u := Registration(users, input, id, salt).value;
    FoundAtEnd(users, u, email);
  }

  /** In particular the email as typed and its lower case both qualify. */
  lemma LowerCaseEmailLogsIn(users: seq<User>, input: RegisterInput, id: Id, salt: string,
                             sign: Identity -> string)
    requires Registration(users, input, id, salt).Ok?
    ensures var u := Registration(users, input, id, salt).value;
      && Login(users + [u], LoginInput(input.email, input.password), sign) == Ok(AuthPayload(sign(PayloadOf(u)), u))
      && Login(users + [u], LoginInput(Lower(input.email), input.password), sign)
         == Ok(AuthPayload(sign(PayloadOf(u)), u))
  {
    RegisterThenLogin(users, input, id, salt, input.email, sign);
    NormalizeAfterLower(input.email);
    RegisterThenLogin(users, input, id, salt, Lower(input.email), sign);
  }

  /** A user appended with an email no earlier user has is the one an
      email lookup finds. */
  lemma FoundAtEnd(users: seq<User>, u: User, email: string)
    requires forall k :: 0 <= k < |users| ==> users[k].email != NormalizeEmail(email)
    requires u.email == NormalizeEmail(email)
    ensures EmailIndex(users + [u], email) == |users|
  {
    var t := users + [u];
    forall k | 0 <= k < |users| ensures t[k].email != NormalizeEmail(email) {
      assert t[k] == users[k];
    }
    assert t[|users|] == u;
  }

  /** An email cannot be registered twice, not even in another letter
      case. */
  lemma SecondRegistrationRefused(users: seq<User>, input: RegisterInput, id: Id, salt: string,
                                  input2: RegisterInput, id2: Id, salt2: string)
    requires Registration(users, input, id, salt).Ok?
    requires NormalizeEmail(input2.email) == NormalizeEmail(input.email)
    ensures Registration(users + [Registration(users, input, id, salt).value], input2, id2, salt2)
            == Err(UserAlreadyExists)
  {
    var u := Registration(users, input, id, salt).value;
    assert (users + [u])[|users|] == u;
  }

  /** Logging in reveals nothing about which check failed: an unknown
      email and a known email with a wrong password look the same, even
      when the account is deactivated. */
  lemma LoginFailuresLookAlike(users: seq<User>, unknown: LoginInput, wrong: LoginInput,
                               sign: Identity -> string)
    requires EmailIndex(users, unknown.email) < 0
    requires 0 <= EmailIndex(users, wrong.email)
    requires !PasswordMatches(wrong.password, users[EmailIndex(users, wrong.email)].password)
    ensures Login(users, unknown, sign) == Login(users, wrong, sign) == Err(InvalidCredentials)
  {
  }
}

/** The password-reset flow (resolvers/passwordResetResolvers.ts): a
    request stores the hash of a fresh token with a one-hour expiry; a reset
    with that token, before it expires, replaces the password and clears
    the token. The token's randomness, the clock and the emails sent are
    parameters or left out. */
module PasswordReset {
  import opened Common
  import opened UserModel
  import opened Store
  import Users

  /** How long a reset token stays valid: one hour, in milliseconds. */
  const ResetWindow: int := 3600000

  /** The shortest new password accepted. */
  const MinPasswordLength: nat := 6

  /** The user a reset request reaches: the lower-cased email, cast by the
      schema like every email filter. */
  function RequestTarget(users: seq<User>, email: string): int {
    EmailIndex(users, Lower(email))
  }

  /** The users after a request: the addressed user, if any, holds the
      SHA-256 hash of `token` (never the token) and an expiry one hour
      after `now`; an earlier pending token is overwritten. */
  function Requested(users: seq<User>, email: string, token: string, now: int): seq<User> {
    var i := RequestTarget(users, email);
    if i < 0 then users
    else users[i := users[i].(resetPasswordToken := Some(Sha256(token)),
                              resetPasswordExpires := Some(now + ResetWindow))]
  }

  /** What a request does: an unknown email changes nothing; a known one
      changes only the two reset fields of that user. */
  lemma RequestedSpec(users: seq<User>, email: string, token: string, now: int)
    ensures var after := Requested(users, email, token, now);
      && |after| == |users|
      && (RequestTarget(users, email) < 0 ==> after == users)
      && (0 <= RequestTarget(users, email) ==>
            var i := RequestTarget(users, email);
            && after[i].resetPasswordToken == Some(Sha256(token))
            && after[i].resetPasswordExpires == Some(now + ResetWindow)
            && after[i].(resetPasswordToken := users[i].resetPasswordToken,
                         resetPasswordExpires := users[i].resetPasswordExpires) == users[i]
            && (forall k :: 0 <= k < |users| && k != i ==> after[k] == users[k]))
  {
  }

  /** The explicit lower-casing adds nothing to the schema's own casting:
      a request reaches exactly the user a lookup by the email as typed
      finds. */
  lemma RequestTargetIsEmailLookup(users: seq<User>, email: string)
    ensures RequestTarget(users, email) == EmailIndex(users, email)
  {
    NormalizeAfterLower(email);
  }

  /** requestPasswordReset: always answers true, so the answer never tells
      whether the email is registered. */
  method RequestPasswordReset(db: Database, email: string, token: string, now: int) returns (r: bool)
    requires db.Valid()
    modifies db
    ensures db.Valid()
    ensures r
    ensures db.users == Requested(old(db.users), email, token, now)
    ensures db.restaurants == old(db.restaurants) && db.menuItems == old(db.menuItems)
    ensures db.orders == old(db.orders) && db.reviews == old(db.reviews)
  {
    var i := RequestTarget(db.users, email);
    if 0 <= i {
      var u := db.users[i].(resetPasswordToken := Some(Sha256(token)),
                            resetPasswordExpires := Some(now + ResetWindow));
      Users.StoreUserAt(db, i, u);
    }
    r := true;
  }

  /** The filter { resetPasswordToken: hash(token), resetPasswordExpires:
      { $gt: now } }: the stored hash matches and the expiry is strictly
      later than now. */
  function HoldsValid(token: string, now: int): User -> bool {
    (u: User) =>
      u.resetPasswordToken == Some(Sha256(token))
      && u.resetPasswordExpires.Some? && u.resetPasswordExpires.value > now
  }

  /** The user a reset with `token` reaches at time `now`, or -1. */
  function TokenHolder(users: seq<User>, token: string, now: int): (i: int)
    ensures -1 <= i < |users|
    ensures i == -1 <==> forall k :: 0 <= k < |users| ==> !HoldsValid(token, now)(users[k])
    ensures 0 <= i ==> HoldsValid(token, now)(users[i])
  {
    FirstIndex(users, HoldsValid(token, now))
  }

  /** The user after a successful reset: the new bcrypt hash, and neither
      reset field. */
  function WithNewPassword(u: User, newPassword: string, salt: string): User {
    u.(password := Bcrypt(newPassword, salt), resetPasswordToken := None, resetPasswordExpires := None)
  }

  /** resetPassword, decided: a short password is refused before any lookup,
      then the token must be held, unexpired, by some user. */
  function ResetDecision(users: seq<User>, token: string, newPassword: string, salt: string, now: int)
    : (r: Result<User>)
    ensures Utf16Length(newPassword) < MinPasswordLength ==> r == Err(PasswordTooShort)
    ensures r.Ok? <==> Utf16Length(newPassword) >= MinPasswordLength && 0 <= TokenHolder(users, token, now)
    ensures Utf16Length(newPassword) >= MinPasswordLength && TokenHolder(users, token, now) < 0 ==>
      r == Err(InvalidOrExpiredToken)
    ensures r.Ok? ==> var u := users[TokenHolder(users, token, now)];
      && r.value.id == u.id && r.value.email == u.email
      && PasswordMatches(newPassword, r.value.password)
      && r.value.resetPasswordToken.None? && r.value.resetPasswordExpires.None?
      && r.value.(password := u.password, resetPasswordToken := u.resetPasswordToken,
                  resetPasswordExpires := u.resetPasswordExpires) == u
  {
    if Utf16Length(newPassword) < MinPasswordLength then Err(PasswordTooShort)
    else
      var i := TokenHolder(users, token, now);
      if i < 0 then Err(InvalidOrExpiredToken)
      else Ok(WithNewPassword(users[i], newPassword, salt))
  }

  /** resetPassword: replaces the holder's password and clears the token;
      answers true. */
  method ResetPassword(db: Database, token: string, newPassword: string, salt: string, now: int)
    returns (r: Result<bool>)
    requires db.Valid()
    modifies db
    ensures db.Valid()
    ensures r.Ok? <==> ResetDecision(old(db.users), token, newPassword, salt, now).Ok?
    ensures r.Err? ==> r.error == ResetDecision(old(db.users), token, newPassword, salt, now).error
    ensures r.Ok? ==> r.value && db.users == old(db.users)[TokenHolder(old(db.users), token, now) :=
      ResetDecision(old(db.users), token, newPassword, salt, now).value]
    ensures r.Err? ==> db.users == old(db.users)
    ensures db.restaurants == old(db.restaurants) && db.menuItems == old(db.menuItems)
    ensures db.orders == old(db.orders) && db.reviews == old(db.reviews)
  {
    if Utf16Length(newPassword) < MinPasswordLength {
      return Err(PasswordTooShort);
    }
    var i := TokenHolder(db.users, token, now);
    if i < 0 {
      return Err(InvalidOrExpiredToken);
    }
    var u := WithNewPassword(db.users[i], newPassword, salt);
    Users.StoreUserAt(db, i, u);
    r := Ok(true);
  }

  /** No other user holds the hash of `token` (tokens are 32 random bytes,
      so a hash is held by the user it was issued to). */
  ghost predicate OnlyHolder(users: seq<User>, token: string, i: nat) {
    forall k :: 0 <= k < |users| && k != i ==> users[k].resetPasswordToken != Some(Sha256(token))
  }

  /** The lifecycle end to end: right after a request, a reset with the
      issued token and an acceptable password succeeds for that user at any
      time before the hour is up, and is refused once it is up. */
  lemma RequestThenReset(users: seq<User>, email: string, token: string, now: int,
                         later: int, newPassword: string, salt: string)
    requires 0 <= RequestTarget(users, email)
    requires OnlyHolder(users, token, RequestTarget(users, email))
    requires Utf16Length(newPassword) >= MinPasswordLength
    ensures var after := Requested(users, email, token, now);
      var r := ResetDecision(after, token, newPassword, salt, later);
      && (later < now + ResetWindow ==>
            r.Ok? && TokenHolder(after, token, later) == RequestTarget(users, email)
            && r.value == WithNewPassword(after[RequestTarget(users, email)], newPassword, salt))
      && (later >= now + ResetWindow ==> r == Err(InvalidOrExpiredToken))
  {
    var i := RequestTarget(users, email);
    var after := Requested(users, email, token, now);
    assert forall k :: 0 <= k < |after| && k != i ==> after[k] == users[k];
    if later < now + ResetWindow {
      assert HoldsValid(token, later)(after[i]);
      var j := TokenHolder(after, token, later);
      assert j == i;
    } else {
      assert forall k :: 0 <= k < |after| ==> !HoldsValid(token, later)(after[k]);
    }
  }

  /** A token is single-use: once a reset with it has succeeded, a second
      reset with the same token fails, whatever the time and password. */
  lemma TokenSingleUse(users: seq<User>, token: string, p1: string, s1: string, t1: int,
                       p2: string, s2: string, t2: int)
    requires ResetDecision(users, token, p1, s1, t1).Ok?
    requires OnlyHolder(users, token, TokenHolder(users, token, t1))
    ensures var after := users[TokenHolder(users, token, t1) := ResetDecision(users, token, p1, s1, t1).value];
      ResetDecision(after, token, p2, s2, t2).Err?
  {
    var i := TokenHolder(users, token, t1);
    var after := users[i := ResetDecision(users, token, p1, s1, t1).value];
    assert forall k :: 0 <= k < |after| ==> !HoldsValid(token, t2)(after[k]) by {
      forall k | 0 <= k < |after| ensures !HoldsValid(token, t2)(after[k]) {
        if k != i {
          assert after[k] == users[k];
        }
      }
    }
  }

  /** A newer request replaces the pending token: the earlier token no
      longer resets anything for that user. */
  lemma NewerRequestRevokesOlder(users: seq<User>, email: string, t1: string, t2: string,
                                 n1: int, n2: int, now: int)
    requires t1 != t2 && 0 <= RequestTarget(users, email)
    ensures var i := RequestTarget(users, email);
      var after := Requested(Requested(users, email, t1, n1), email, t2, n2);
      !HoldsValid(t1, now)(after[i])
  {
    var i := RequestTarget(users, email);
    var once := Requested(users, email, t1, n1);
    assert forall k :: 0 <= k < |once| ==> once[k].email == users[k].email;
    assert RequestTarget(once, email) == i by {
      var j := RequestTarget(once, email);
      assert forall k :: 0 <= k < |once| ==> (once[k].email == NormalizeEmail(Lower(email))
        <==> users[k].email == NormalizeEmail(Lower(email)));
    }
  }
}

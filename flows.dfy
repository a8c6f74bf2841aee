/** What AuthService promises across several calls, stated over the
    transition functions of AuthStore. */
module AuthFlows {
  import opened AuthTypes
  import opened AuthStore

  /** With unique emails, the row that owns an email is the one findUnique finds. */
  lemma OwnerIsFound(users: map<UserId, User>, id: UserId, email: Email)
    requires UniqueEmails(users) && OwnsEmail(users, id, email)
    ensures FindByEmail(users, email) == Some(id)
  {
    var found := FindByEmail(users, email);
    assert found.Some? by { assert EmailTaken(users, email); }
    assert OwnsEmail(users, found.value, email);
  }

  /** A new account can sign in with the password it was created with, but
      not through the admin entry point, and it has no refresh session until
      it signs in. */
  lemma SignUpThenSignIn(s: Store, h: Hashing, t: TokenIssuer, email: Email, password: Password,
                         phone: string, salt: Salt, now: Time, later: Time)
    requires Valid(s) && BcryptSound(h)
    requires !EmailTaken(s.users, email)
    ensures
      var up := SignUp(s, h, email, password, phone, salt, now);
      var customer := SignIn(up.store, h, t, false, email, password, later);
      && up.out.Account?
      && Refresh(up.store, t, up.out.user.id, later) == Failure(Forbidden, TokenNotFound)
      && SignIn(up.store, h, t, true, email, password, later).out == Failure(Unauthorized, NotAuthorized)
      && customer.out.SignedIn?
      && customer.out.info.id == up.out.user.id
      && customer.out.info.email == email
      && customer.out.info.role == Customer
      && customer.out.info.permission == Some(PermView(false, false, false))
      && customer.store.sessions[up.out.user.id] == t.refresh(ClaimsOf(up.out.user), later)
  {
    var up := SignUp(s, h, email, password, phone, salt, now);
    var u := up.out.user;
    assert up.out.Account?;
    assert u.id !in up.store.sessions;
    OwnerIsFound(up.store.users, u.id, email);
    assert h.compare(password, u.password);
  }

  /** A second sign-in replaces the user's refresh token; it never adds a
      second session. */
  lemma SignInAgainReplacesSession(s: Store, h: Hashing, t: TokenIssuer, admin: bool, email: Email,
                                   password: Password, first: Time, second: Time)
    requires Valid(s)
    requires SignIn(s, h, t, admin, email, password, first).out.SignedIn?
    ensures
      var one := SignIn(s, h, t, admin, email, password, first);
      var two := SignIn(one.store, h, t, admin, email, password, second);
      && two.out.SignedIn?
      && two.store.sessions.Keys == one.store.sessions.Keys
      && |two.store.sessions| == |one.store.sessions|
      && exists id :: OwnsEmail(s.users, id, email) &&
           two.store.sessions == one.store.sessions[id := t.refresh(ClaimsOf(s.users[id]), second)]
  {
    var one := SignIn(s, h, t, admin, email, password, first);
    var id := FindByEmail(s.users, email).value;
    OwnerIsFound(one.store.users, id, email);
    var two := SignIn(one.store, h, t, admin, email, password, second);
    assert two.store.sessions == one.store.sessions[id := t.refresh(ClaimsOf(s.users[id]), second)];
    assert two.store.sessions.Keys == one.store.sessions.Keys;
  }

  /** After a password change the new password is accepted, and the old
      one is refused exactly when bcrypt rejects it against the new hash.
      bcryptjs reads only the first 72 bytes of a password, so an old
      password that shares them with the new one still signs in. */
  lemma ChangePasswordThenSignIn(s: Store, h: Hashing, t: TokenIssuer, userId: UserId,
                                 oldPassword: Password, newPassword: Password, salt: Salt, now: Time)
    requires Valid(s) && BcryptSound(h)
    requires ChangePassword(s, h, userId, oldPassword, newPassword, salt).out == OkSignal(PasswordChanged)
    ensures
      var changed := ChangePassword(s, h, userId, oldPassword, newPassword, salt).store;
      var email := s.users[userId].email;
      && SignIn(changed, h, t, false, email, newPassword, now).out.SignedIn?
      && (SignIn(changed, h, t, false, email, oldPassword, now).out.SignedIn?
          <==> h.compare(oldPassword, h.hash(newPassword, salt)))
      && (SignIn(changed, h, t, false, email, oldPassword, now).out == Failure(Forbidden, PasswordNotCorrect)
          <==> !h.compare(oldPassword, h.hash(newPassword, salt)))
  {
    var changed := ChangePassword(s, h, userId, oldPassword, newPassword, salt).store;
    var email := s.users[userId].email;
    OwnerIsFound(changed.users, userId, email);
    assert changed.users[userId].password == h.hash(newPassword, salt);
    assert h.compare(newPassword, h.hash(newPassword, salt));
  }

  /** Nobody other than the owner of `email` holds a ticket with this digest. */
  ghost predicate DigestOnlyFor(s: Store, email: Email, digest: Digest) {
    forall id :: id in s.users && s.users[id].email != email ==> s.users[id].resetToken != Some(digest)
  }

  /** A mailed reset ticket resets the password once: the owner's password
      becomes the new one, both reset columns are cleared, and the same token
      is refused afterwards. */
  lemma ForgotThenReset(s: Store, h: Hashing, email: Email, ticket: ResetTicket, delivery: Delivery,
                        newPassword: Password, salt: Salt, now: Time, later: Time,
                        again: Password, salt2: Salt, evenLater: Time)
    requires Valid(s) && EmailTaken(s.users, email)
    requires TicketWellFormed(h, ticket, now) && later < ticket.expires
    requires DigestOnlyFor(s, email, ticket.tokenHash)
    requires !ClearsTicket(delivery)
    ensures
      var forgot := ForgotPassword(s, email, ticket, delivery);
      var reset := ResetPassword(forgot.store, h, ticket.token, newPassword, salt, later);
      && forgot.out == Undefined
      && reset.out == OkSignal(PasswordReset)
      && (exists id :: OwnsEmail(s.users, id, email)
            && reset.store.users[id].password == h.hash(newPassword, salt)
            && reset.store.users[id].resetToken.None?
            && reset.store.users[id].resetTokenExpires.None?)
      && ResetPassword(reset.store, h, ticket.token, again, salt2, evenLater).out
         == Failure(BadRequest, ResetInvalid)
  {
    var id := FindByEmail(s.users, email).value;
    var forgot := ForgotPassword(s, email, ticket, delivery);
    assert forgot.store.users[id].resetToken == Some(ticket.tokenHash);
    assert TicketMatches(forgot.store.users[id], h.sha256(ticket.token), later);
    var reset := ResetPassword(forgot.store, h, ticket.token, newPassword, salt, later);
    var chosen :| chosen in forgot.store.users && TicketMatches(forgot.store.users[chosen], h.sha256(ticket.token), later)
                  && reset.store.users[chosen] == forgot.store.users[chosen].(password := h.hash(newPassword, salt),
                                                                            resetToken := None, resetTokenExpires := None);
    assert chosen == id;
    forall other | other in reset.store.users
      ensures !TicketMatches(reset.store.users[other], h.sha256(ticket.token), evenLater)
    {
      if other != id {
        assert reset.store.users[other] == s.users[other];
      }
    }
  }

  /** When the delivery error carries a status above 200, the ticket is
      cleared and the mailed token is refused. */
  lemma RolledBackTicketIsRefused(s: Store, h: Hashing, email: Email, ticket: ResetTicket,
                                  delivery: Delivery, newPassword: Password, salt: Salt, later: Time)
    requires Valid(s) && EmailTaken(s.users, email)
    requires ticket.tokenHash == h.sha256(ticket.token)
    requires DigestOnlyFor(s, email, ticket.tokenHash)
    requires ClearsTicket(delivery)
    ensures
      var forgot := ForgotPassword(s, email, ticket, delivery);
      && forgot.out == Undefined
      && ResetPassword(forgot.store, h, ticket.token, newPassword, salt, later).out
         == Failure(BadRequest, ResetInvalid)
  {
    var id := FindByEmail(s.users, email).value;
    var forgot := ForgotPassword(s, email, ticket, delivery);
    forall other | other in forgot.store.users
      ensures !TicketMatches(forgot.store.users[other], h.sha256(ticket.token), later)
    {
      if other != id {
        assert forgot.store.users[other] == s.users[other];
      }
    }
  }

  /** The catch keeps the ticket after a successful send (the service's own
      status-200 exception) and after a delivery error without a status; it
      clears it only for a delivery error whose status exceeds 200. */
  lemma WhichCatchesClearTheTicket(status: int)
    ensures !ClearsTicket(Delivered)
    ensures !ClearsTicket(DeliveryFailed(None))
    ensures ClearsTicket(DeliveryFailed(Some(status))) <==> status > 200
  {
  }

  /** Right after a sign-in, refresh mints an access token for the claims
      of the signed-in user. */
  lemma SignInThenRefresh(s: Store, h: Hashing, t: TokenIssuer, admin: bool, email: Email,
                          password: Password, now: Time)
    requires Valid(s) && RefreshVerifiable(t)
    requires SignIn(s, h, t, admin, email, password, now).out.SignedIn?
    ensures
      var signedIn := SignIn(s, h, t, admin, email, password, now);
      exists id :: OwnsEmail(s.users, id, email) &&
        var access := t.access(ClaimsOf(s.users[id]), now);
        Refresh(signedIn.store, t, id, now) == Refreshed(access.token, access.expirationTimeInSeconds)
  {
    var signedIn := SignIn(s, h, t, admin, email, password, now);
    var id := FindByEmail(s.users, email).value;
    var claims := ClaimsOf(s.users[id]);
    assert signedIn.store.sessions[id] == t.refresh(claims, now);
    assert t.verifyRefresh(t.refresh(claims, now), now) == Decoded(claims);
  }

  /** Refresh takes its claims from the stored token: the user and
      permission tables do not affect it. */
  lemma RefreshIgnoresUserTable(s: Store, t: TokenIssuer, userId: UserId, now: Time,
                                users: map<UserId, User>, perms: map<UserId, Perm>)
    ensures Refresh(s, t, userId, now) == Refresh(s.(users := users, perms := perms), t, userId, now)
  {
  }

  /** Logging out twice ends as logging out once, and a logged-out user
      cannot refresh. */
  lemma LogoutIdempotent(s: Store, t: TokenIssuer, userId: UserId, now: Time)
    requires Valid(s)
    ensures
      var once := Logout(s, userId);
      && Logout(once.store, userId) == once
      && Refresh(once.store, t, userId, now) == Failure(Forbidden, TokenNotFound)
  {
    var once := Logout(s, userId);
    assert once.store.sessions == s.sessions - {userId};
  }
}

/** AuthService (src/modules/auth/auth.service.ts:16-183): the service object
    over the persisted tables. Each method reads and then updates the tables
    in place, in the order the source does, and is proved to end in the
    state and outcome the matching transition function of AuthStore gives. */
module Service {
  import opened AuthTypes
  import AuthStore

  class AuthService {
    /** The user table, keyed by id. */
    var users: map<UserId, User>
    /** The refresh-session table (`auth`), keyed by its unique userId column. */
    var sessions: map<UserId, Token>
    /** The user-permission table, keyed by userId. */
    var perms: map<UserId, Perm>
    /** The id the database gives the next user row it creates. */
    var nextId: UserId

    /** bcryptjs and node's crypto. */
    const hashing: Hashing
    /** AuthHelper and JwtService with the configured secrets. */
    const issuer: TokenIssuer

    /** The tables as one value. */
    function State(): AuthStore.Store
      reads this
    {
      AuthStore.Store(users, sessions, perms, nextId)
    }

    ghost predicate Valid()
      reads this
    {
      AuthStore.Valid(State())
    }

    /** The injected collaborators and the database as it stands. */
    constructor (db: AuthStore.Store, hashing: Hashing, issuer: TokenIssuer)
      requires AuthStore.Valid(db)
      ensures Valid() && State() == db
      ensures this.hashing == hashing && this.issuer == issuer
    {
      users, sessions, perms, nextId := db.users, db.sessions, db.perms, db.nextId;
      this.hashing, this.issuer := hashing, issuer;
    }

    method SignUp(email: Email, password: Password, phone: string, salt: Salt, now: Time)
      returns (out: Outcome)
      requires Valid()
      modifies this
      ensures Valid()
      ensures AuthStore.Step(State(), out)
              == AuthStore.SignUp(old(State()), hashing, email, password, phone, salt, now)
    {
      var exist := AuthStore.FindByEmail(users, email);
      if exist.Some? {
        return Failure(Forbidden, AuthStore.EmailExists);
      }
      var hashPass := hashing.hash(password, salt);
      var newAccount := User(nextId, email, hashPass, phone, None, Customer, false,
                             None, None, now, now);
      users := users[newAccount.id := newAccount];
      nextId := nextId + 1;
      perms := perms[newAccount.id := AuthStore.NoPermissions];
      return Account(newAccount);
    }

    method SignIn(admin: bool, email: Email, password: Password, now: Time)
      returns (out: Outcome)
      requires Valid()
      modifies this
      ensures Valid()
      ensures AuthStore.Step(State(), out)
              == AuthStore.SignIn(old(State()), hashing, issuer, admin, email, password, now)
    {
      var found := AuthStore.FindByEmail(users, email);
      if found.None? {
        return Failure(NotFound, AuthStore.EmailNotCorrect);
      }
      var login := users[found.value];
      var isAuth := hashing.compare(password, login.password);
      if !isAuth {
        return Failure(Forbidden, AuthStore.PasswordNotCorrect);
      }
      if admin && login.role == Customer {
        return Failure(Unauthorized, AuthStore.NotAuthorized);
      }
      var info := AuthStore.ToProfile(login, AuthStore.PermissionOf(perms, login.id));
      var payload := AuthStore.ClaimsOf(login);
      var accessToken := issuer.access(payload, now);
      var refreshToken := issuer.refresh(payload, now);
      sessions := sessions[login.id := refreshToken];
      return SignedIn(accessToken.token, accessToken.expirationTimeInSeconds, info, true);
    }

    /** Reads the session table and changes nothing. */
    method Refresh(userId: UserId, now: Time) returns (out: Outcome)
      ensures out == AuthStore.Refresh(State(), issuer, userId, now)
    {
      if userId !in sessions {
        return Failure(Forbidden, AuthStore.TokenNotFound);
      }
      var decode := issuer.verifyRefresh(sessions[userId], now);
      match decode
      case Decoded(claims) =>
        var payload := Claims(claims.id, claims.email, claims.role);
        var accessToken := issuer.access(payload, now);
        return Refreshed(accessToken.token, accessToken.expirationTimeInSeconds);
      case TokenExpired =>
        return Failure(Forbidden, AuthStore.TokenIsExpired);
      case TokenInvalid =>
        return Undefined;
    }

    method ChangePassword(userId: UserId, oldPassword: Password, newPassword: Password, salt: Salt)
      returns (out: Outcome)
      requires Valid()
      modifies this
      ensures Valid()
      ensures AuthStore.Step(State(), out)
              == AuthStore.ChangePassword(old(State()), hashing, userId, oldPassword, newPassword, salt)
    {
      if userId !in users {
        return Failure(NotFound, AuthStore.CustomerNotFound);
      }
      var customer := users[userId];
      if !hashing.compare(oldPassword, customer.password) {
        return Failure(Forbidden, AuthStore.OldPasswordNotCorrect);
      }
      var hash := hashing.hash(newPassword, salt);
      users := users[userId := customer.(password := hash)];
      return OkSignal(AuthStore.PasswordChanged);
    }

    /** `ticket` is what the reset-token generator drew and `delivery` how
        the mail went. */
    method ForgotPassword(email: Email, ticket: ResetTicket, delivery: Delivery)
      returns (out: Outcome)
      requires Valid()
      modifies this
      ensures Valid()
      ensures AuthStore.Step(State(), out)
              == AuthStore.ForgotPassword(old(State()), email, ticket, delivery)
    {
      var auth := AuthStore.FindByEmail(users, email);
      if auth.None? {
        return Failure(Forbidden, AuthStore.EmailNotCorrect);
      }
      var id := auth.value;
      users := users[id := users[id].(resetToken := Some(ticket.tokenHash),
                                      resetTokenExpires := Some(ticket.expires))];
      // Both the delivery error and the "Email has been sent" exception
      // thrown after a successful send reach the same catch.
      if AuthStore.ClearsTicket(delivery) {
        users := users[id := users[id].(resetToken := None, resetTokenExpires := None)];
      }
      return Undefined;
    }

    method ResetPassword(token: Token, resetPassword: Password, salt: Salt, now: Time)
      returns (out: Outcome)
      requires Valid()
      modifies this
      ensures Valid()
      ensures AuthStore.Step(State(), out)
              == AuthStore.ResetPassword(old(State()), hashing, token, resetPassword, salt, now)
    {
      var resetToken := hashing.sha256(token);
      var auth := AuthStore.FindFirstByTicket(users, resetToken, now);
      if auth.None? {
        return Failure(BadRequest, AuthStore.ResetInvalid);
      }
      var id := auth.value;
      users := users[id := users[id].(password := hashing.hash(resetPassword, salt),
                                      resetToken := None, resetTokenExpires := None)];
      return OkSignal(AuthStore.PasswordReset);
    }

    method Logout(userId: UserId) returns (out: Outcome)
      requires Valid()
      modifies this
      ensures Valid()
      ensures AuthStore.Step(State(), out) == AuthStore.Logout(old(State()), userId)
    {
      if userId !in sessions {
        return OkSignal(AuthStore.LogoutSuccess);
      }
      sessions := sessions - {userId};
      return OkSignal(AuthStore.LogoutSuccess);
    }
  }
}

/** The three tables the authentication service reads and writes, and one
    transition function per operation of AuthService
    (src/modules/auth/auth.service.ts). Each function gives the tables after
    the call and how the call ends; the class in service.dfy is proved to
    follow them. */
module AuthStore {
  import opened AuthTypes

  /** The user table, the refresh-session table (keyed by its unique userId
      column, so at most one session per user) and the permission table.
      `nextId` is the id the database hands to the next user it creates. */
  datatype Store = Store(
    users: map<UserId, User>,
    sessions: map<UserId, Token>,
    perms: map<UserId, Perm>,
    nextId: UserId)

  /** The tables after a call, and how the call ended. */
  datatype Step = Step(store: Store, out: Outcome)

  const EmailExists := "Email is already exist"
  const EmailNotCorrect := "Email is not correct"
  const PasswordNotCorrect := "Password is not correct"
  const NotAuthorized := "You're not authorize to proccess"
  const TokenNotFound := "Token not found"
  const TokenIsExpired := "Token is expired"
  const CustomerNotFound := "Customer not found"
  const OldPasswordNotCorrect := "Old password is not correct"
  const PasswordChanged := "Password has successfully changed"
  const ResetInvalid := "Reset token has been expires or invalid"
  const PasswordReset := "Password has been reset"
  const LogoutSuccess := "Logout success"

  /** The email column is unique: findUnique by email names at most one row. */
  ghost predicate UniqueEmails(users: map<UserId, User>) {
    forall a, b :: a in users && b in users && users[a].email == users[b].email ==> a == b
  }

  /** The store invariant every operation keeps. */
  ghost predicate Valid(s: Store) {
    && UniqueEmails(s.users)
    && (forall id :: id in s.users ==> s.users[id].id == id && id < s.nextId)
    && (forall id :: id in s.users ==>
          (s.users[id].resetToken.Some? <==> s.users[id].resetTokenExpires.Some?))
    && s.sessions.Keys <= s.users.Keys
    && s.perms.Keys <= s.users.Keys
  }

  predicate OwnsEmail(users: map<UserId, User>, id: UserId, email: Email) {
    id in users && users[id].email == email
  }

  ghost predicate EmailTaken(users: map<UserId, User>, email: Email) {
    exists id :: OwnsEmail(users, id, email)
  }

  /** findUnique({ where: { email } }). */
  function FindByEmail(users: map<UserId, User>, email: Email): (r: Option<UserId>)
    requires UniqueEmails(users)
    ensures r.Some? ==> OwnsEmail(users, r.value, email)
    ensures r.None? <==> !EmailTaken(users, email)
  {
    if exists id | id in users :: users[id].email == email then
      var id :| id in users && users[id].email == email;
      assert OwnsEmail(users, id, email);
      Some(id)
    else
      None
  }

  /** A stored reset ticket answers to `digest` and has not expired at `now`. */
  predicate TicketMatches(u: User, digest: Digest, now: Time) {
    u.resetToken == Some(digest) && u.resetTokenExpires.Some? && u.resetTokenExpires.value > now
  }

  /** `m` is the smallest id in `ids`. */
  predicate IsLeast(m: UserId, ids: set<UserId>) {
    m in ids && forall j :: j in ids ==> m <= j
  }

  lemma {:induction false} LeastElement(ids: set<UserId>)
    requires ids != {}
    ensures exists m :: IsLeast(m, ids)
  {
    var x :| x in ids;
    var rest := ids - {x};
    if rest == {} {
      forall j | j in ids ensures x <= j {
        assert j !in rest;
      }
      assert IsLeast(x, ids);
    } else {
      LeastElement(rest);
      var m :| IsLeast(m, rest);
      var least := if x < m then x else m;
      forall j | j in ids ensures least <= j {
        if j != x { assert j in rest; }
      }
      assert IsLeast(least, ids);
    }
  }

  /** findFirst({ where: { resetToken: digest, resetTokenExpires: { gt: now } } }).
      The database's row order is not given; the earliest-created row (the
      lowest id) is taken. */
  function FindFirstByTicket(users: map<UserId, User>, digest: Digest, now: Time): (r: Option<UserId>)
    ensures r.None? <==> forall id :: id in users ==> !TicketMatches(users[id], digest, now)
    ensures r.Some? ==> r.value in users && TicketMatches(users[r.value], digest, now)
    ensures r.Some? ==> forall j :: j in users && TicketMatches(users[j], digest, now) ==> r.value <= j
  {
    var matches := set id | id in users && TicketMatches(users[id], digest, now);
    if matches == {} then
      assert forall id :: id in users ==> !TicketMatches(users[id], digest, now) by {
        forall id | id in users ensures !TicketMatches(users[id], digest, now) {
          assert id in matches <==> TicketMatches(users[id], digest, now);
        }
      }
      None
    else
      LeastElement(matches);
      var first :| IsLeast(first, matches);
      assert forall j :: j in users && TicketMatches(users[j], digest, now) ==> first <= j by {
        forall j | j in users && TicketMatches(users[j], digest, now) ensures first <= j {
          assert j in matches;
        }
      }
      Some(first)
  }

  /** The token payload built from a user row. */
  function ClaimsOf(u: User): Claims {
    Claims(u.id, u.email, u.role)
  }

  /** `{ ...login }` with password, createdAt and updatedAt deleted. */
  function ToProfile(u: User, permission: Option<PermView>): Profile {
    Profile(u.id, u.email, u.phone, u.fullName, u.role, u.isDelete,
            u.resetToken, u.resetTokenExpires, permission)
  }

  /** The `permission` relation as signIn selects it: create, update and
      remove, without the row's isDelete flag. */
  function PermissionOf(perms: map<UserId, Perm>, id: UserId): Option<PermView> {
    if id in perms then Some(PermView(perms[id].create, perms[id].update, perms[id].remove)) else None
  }

  const NoPermissions := Perm(false, false, false, false)

  /** signUp (auth.service.ts:26-49). */
  function SignUp(s: Store, h: Hashing, email: Email, password: Password, phone: string,
                  salt: Salt, now: Time): (r: Step)
    requires Valid(s)
    ensures Valid(r.store)
    ensures r.out.Failure? || r.out.Account?
    ensures r.out.Failure? <==> EmailTaken(s.users, email)
    ensures r.out.Failure? ==> r == Step(s, Failure(Forbidden, EmailExists))
    ensures r.out.Account? ==>
      var u := r.out.user;
      && u.id !in s.users
      && u.email == email && u.phone == phone
      && u.password == h.hash(password, salt)
      && u.role == Customer && !u.isDelete
      && u.resetToken.None? && u.resetTokenExpires.None?
      && r.store.users == s.users[u.id := u]
      && |r.store.users| == |s.users| + 1
      && r.store.perms == s.perms[u.id := NoPermissions]
      && r.store.sessions == s.sessions
  {
    if FindByEmail(s.users, email).Some? then
      Step(s, Failure(Forbidden, EmailExists))
    else
      var u := User(s.nextId, email, h.hash(password, salt), phone, None, Customer, false,
                    None, None, now, now);
      Step(Store(s.users[u.id := u], s.sessions, s.perms[u.id := NoPermissions], s.nextId + 1),
           Account(u))
  }

  /** signIn (auth.service.ts:51-92). */
  function SignIn(s: Store, h: Hashing, t: TokenIssuer, admin: bool, email: Email,
                  password: Password, now: Time): (r: Step)
    requires Valid(s)
    ensures Valid(r.store)
    ensures r.store.users == s.users && r.store.perms == s.perms && r.store.nextId == s.nextId
    ensures !r.out.SignedIn? ==> r.store == s
    ensures r.out == Failure(NotFound, EmailNotCorrect) <==> !EmailTaken(s.users, email)
    ensures r.out == Failure(Forbidden, PasswordNotCorrect) <==>
      exists id :: OwnsEmail(s.users, id, email) && !h.compare(password, s.users[id].password)
    ensures r.out == Failure(Unauthorized, NotAuthorized) <==>
      exists id :: OwnsEmail(s.users, id, email) && h.compare(password, s.users[id].password)
                   && admin && s.users[id].role == Customer
    ensures r.out.SignedIn? <==>
      exists id :: OwnsEmail(s.users, id, email) && h.compare(password, s.users[id].password)
                   && !(admin && s.users[id].role == Customer)
    ensures r.out.SignedIn? ==>
      exists id :: OwnsEmail(s.users, id, email) &&
        var claims := ClaimsOf(s.users[id]);
        && r.store.sessions.Keys == s.sessions.Keys + {id}
        && r.store.sessions[id] == t.refresh(claims, now)
        && (forall other :: other in s.sessions && other != id ==>
              r.store.sessions[other] == s.sessions[other])
        && r.out.accessToken == t.access(claims, now).token
        && r.out.expired == t.access(claims, now).expirationTimeInSeconds
        && r.out.info == ToProfile(s.users[id], PermissionOf(s.perms, id))
        && r.out.isAuth
  {
    match FindByEmail(s.users, email)
    case None => Step(s, Failure(NotFound, EmailNotCorrect))
    case Some(id) =>
      var login := s.users[id];
      if !h.compare(password, login.password) then
        Step(s, Failure(Forbidden, PasswordNotCorrect))
      else if admin && login.role == Customer then
        Step(s, Failure(Unauthorized, NotAuthorized))
      else
        var info := ToProfile(login, PermissionOf(s.perms, id));
        var payload := ClaimsOf(login);
        var accessToken := t.access(payload, now);
        var refreshToken := t.refresh(payload, now);
        Step(s.(sessions := s.sessions[id := refreshToken]),
             SignedIn(accessToken.token, accessToken.expirationTimeInSeconds, info, true))
  }

  /** refresh (auth.service.ts:94-114). It reads the session table only and
      changes nothing, so it gives an outcome and no new store. */
  function Refresh(s: Store, t: TokenIssuer, userId: UserId, now: Time): (r: Outcome)
    ensures r.Refreshed? || r.Undefined? || r.Failure?
    ensures r == Failure(Forbidden, TokenNotFound) <==> userId !in s.sessions
    ensures r == Failure(Forbidden, TokenIsExpired) <==>
      userId in s.sessions && t.verifyRefresh(s.sessions[userId], now).TokenExpired?
    ensures r.Undefined? <==>
      userId in s.sessions && t.verifyRefresh(s.sessions[userId], now).TokenInvalid?
    ensures r.Refreshed? <==>
      userId in s.sessions && t.verifyRefresh(s.sessions[userId], now).Decoded?
    ensures r.Refreshed? ==>
      userId in s.sessions &&
      var v := t.verifyRefresh(s.sessions[userId], now);
      && v.Decoded?
      && r.accessToken == t.access(v.claims, now).token
      && r.expired == t.access(v.claims, now).expirationTimeInSeconds
  {
    if userId !in s.sessions then
      Failure(Forbidden, TokenNotFound)
    else
      match t.verifyRefresh(s.sessions[userId], now)
      case Decoded(decode) =>
        var payload := Claims(decode.id, decode.email, decode.role);
        var accessToken := t.access(payload, now);
        Refreshed(accessToken.token, accessToken.expirationTimeInSeconds)
      case TokenExpired => Failure(Forbidden, TokenIsExpired)
      case TokenInvalid => Undefined
  }

  /** changePassword (auth.service.ts:116-128). */
  function ChangePassword(s: Store, h: Hashing, userId: UserId, oldPassword: Password,
                          newPassword: Password, salt: Salt): (r: Step)
    requires Valid(s)
    ensures Valid(r.store)
    ensures r.out.Failure? || r.out.OkSignal?
    ensures r.out == Failure(NotFound, CustomerNotFound) <==> userId !in s.users
    ensures r.out == Failure(Forbidden, OldPasswordNotCorrect) <==>
      userId in s.users && !h.compare(oldPassword, s.users[userId].password)
    ensures r.out == OkSignal(PasswordChanged) <==>
      userId in s.users && h.compare(oldPassword, s.users[userId].password)
    ensures r.out.Failure? ==> r.store == s
    ensures r.out.OkSignal? ==>
      && r.store.sessions == s.sessions && r.store.perms == s.perms && r.store.nextId == s.nextId
      && r.store.users.Keys == s.users.Keys
      && (forall other :: other in s.users && other != userId ==> r.store.users[other] == s.users[other])
      && r.store.users[userId] == s.users[userId].(password := h.hash(newPassword, salt))
  {
    if userId !in s.users then
      Step(s, Failure(NotFound, CustomerNotFound))
    else
      var customer := s.users[userId];
      if !h.compare(oldPassword, customer.password) then
        Step(s, Failure(Forbidden, OldPasswordNotCorrect))
      else
        var hash := h.hash(newPassword, salt);
        Step(s.(users := s.users[userId := customer.(password := hash)]),
             OkSignal(PasswordChanged))
  }

  /** The `status` of what forgotPassword's catch receives: the service's
      own "Email has been sent" HttpException (status 200) when the mail
      went out, the delivery error otherwise. */
  function CaughtStatus(d: Delivery): Option<int> {
    match d
    case Delivered => Some(Ok.Code())
    case DeliveryFailed(status) => status
  }

  /** `error && error.status > 200`: the catch clears the ticket. */
  predicate ClearsTicket(d: Delivery) {
    var status := CaughtStatus(d);
    status.Some? && status.value > Ok.Code()
  }

  /** forgotPassword (auth.service.ts:130-160). The reset URL, the subject
      and the mail body are not modelled; the mail's fate is `delivery`. */
  function ForgotPassword(s: Store, email: Email, ticket: ResetTicket, delivery: Delivery): (r: Step)
    requires Valid(s)
    ensures Valid(r.store)
    ensures r.out.Failure? || r.out.Undefined?
    ensures r.out.Failure? <==> !EmailTaken(s.users, email)
    ensures r.out.Failure? ==> r == Step(s, Failure(Forbidden, EmailNotCorrect))
    ensures r.store.sessions == s.sessions && r.store.perms == s.perms && r.store.nextId == s.nextId
    ensures r.out.Undefined? ==>
      exists id :: OwnsEmail(s.users, id, email) && (
        && r.store.users.Keys == s.users.Keys
        && (forall other :: other in s.users && other != id ==> r.store.users[other] == s.users[other])
        && r.store.users[id] == s.users[id].(
             resetToken := if ClearsTicket(delivery) then None else Some(ticket.tokenHash),
             resetTokenExpires := if ClearsTicket(delivery) then None else Some(ticket.expires)))
  {
    match FindByEmail(s.users, email)
    case None => Step(s, Failure(Forbidden, EmailNotCorrect))
    case Some(id) =>
      var written := s.users[id := s.users[id].(resetToken := Some(ticket.tokenHash),
                                                resetTokenExpires := Some(ticket.expires))];
      var users' := if ClearsTicket(delivery) then
                      written[id := written[id].(resetToken := None, resetTokenExpires := None)]
                    else written;
      Step(s.(users := users'), Undefined)
  }

  /** resetPassword (auth.service.ts:162-174). */
  function ResetPassword(s: Store, h: Hashing, token: Token, resetPassword: Password,
                         salt: Salt, now: Time): (r: Step)
    requires Valid(s)
    ensures Valid(r.store)
    ensures r.out.Failure? || r.out.OkSignal?
    ensures r.out.Failure? <==>
      forall id :: id in s.users ==> !TicketMatches(s.users[id], h.sha256(token), now)
    ensures r.out.Failure? ==> r == Step(s, Failure(BadRequest, ResetInvalid))
    ensures r.out.OkSignal? ==>
      && r.out.message == PasswordReset
      && r.store.sessions == s.sessions && r.store.perms == s.perms && r.store.nextId == s.nextId
      && exists id :: id in s.users && TicketMatches(s.users[id], h.sha256(token), now) && (
           && r.store.users.Keys == s.users.Keys
           && (forall other :: other in s.users && other != id ==> r.store.users[other] == s.users[other])
           && r.store.users[id] == s.users[id].(password := h.hash(resetPassword, salt),
                                                resetToken := None, resetTokenExpires := None))
  {
    var resetToken := h.sha256(token);
    match FindFirstByTicket(s.users, resetToken, now)
    case None => Step(s, Failure(BadRequest, ResetInvalid))
    case Some(id) =>
      var u := s.users[id].(password := h.hash(resetPassword, salt),
                            resetToken := None, resetTokenExpires := None);
      Step(s.(users := s.users[id := u]), OkSignal(PasswordReset))
  }

  /** logout (auth.service.ts:176-182). */
  function Logout(s: Store, userId: UserId): (r: Step)
    requires Valid(s)
    ensures Valid(r.store)
    ensures r.out == OkSignal(LogoutSuccess)
    ensures userId !in r.store.sessions
    ensures forall other :: other != userId ==>
      (other in r.store.sessions <==> other in s.sessions) &&
      (other in s.sessions ==> r.store.sessions[other] == s.sessions[other])
    ensures r.store.users == s.users && r.store.perms == s.perms && r.store.nextId == s.nextId
  {
    if userId !in s.sessions then
      Step(s, OkSignal(LogoutSuccess))
    else
      Step(s.(sessions := s.sessions - {userId}), OkSignal(LogoutSuccess))
  }
}

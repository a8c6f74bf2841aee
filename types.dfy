/** The records, outcomes and collaborators of the authentication service
    (src/modules/auth/auth.service.ts). */
module AuthTypes {

  datatype Option<+T> = None | Some(value: T)

  type UserId = nat
  type Email = string
  /** A plaintext password as it arrives in a request. */
  type Password = string
  /** A bcrypt hash or a SHA-256 hex digest, as stored in the user table. */
  type Digest = string
  /** A signed JWT, or the plaintext reset token that is mailed to the user. */
  type Token = string
  /** Milliseconds since the epoch, the unit of Date.now(). */
  type Time = int
  /** The random salt bcrypt draws for each hash. */
  type Salt = nat

  /** ERole: the service only ever tells CUSTOMER apart from the others. */
  datatype Role = Customer | Admin | OtherRole(name: string)

  /** A row of the user table. */
  datatype User = User(
    id: UserId,
    email: Email,
    password: Digest,
    phone: string,
    fullName: Option<string>,
    role: Role,
    isDelete: bool,
    resetToken: Option<Digest>,
    resetTokenExpires: Option<Time>,
    createdAt: Time,
    updatedAt: Time)

  /** A row of the user-permission table. */
  datatype Perm = Perm(create: bool, update: bool, remove: bool, isDelete: bool)

  /** The columns of the permission row that signIn selects into `info`. */
  datatype PermView = PermView(create: bool, update: bool, remove: bool)

  /** The `info` object signIn returns: the user row with its permission
      record attached and without password, createdAt and updatedAt. */
  datatype Profile = Profile(
    id: UserId,
    email: Email,
    phone: string,
    fullName: Option<string>,
    role: Role,
    isDelete: bool,
    resetToken: Option<Digest>,
    resetTokenExpires: Option<Time>,
    permission: Option<PermView>)

  /** TokenPayload: the claims signed into access and refresh tokens. */
  datatype Claims = Claims(id: UserId, email: Email, role: Role)

  /** What AuthHelper.getAccessToken returns. */
  datatype AccessToken = AccessToken(token: Token, expirationTimeInSeconds: int)

  /** How jwt.verify ends: the decoded payload, a TokenExpiredError,
      or any other thrown error. */
  datatype Verification = Decoded(claims: Claims) | TokenExpired | TokenInvalid

  /** The statuses of the HttpExceptions the service throws. */
  datatype Status = Ok | BadRequest | Unauthorized | Forbidden | NotFound {
    function Code(): nat {
      match this
      case Ok => 200
      case BadRequest => 400
      case Unauthorized => 401
      case Forbidden => 403
      case NotFound => 404
    }
  }

  /** How a call of the service ends: a returned value, `undefined`, an
      HttpException with status 200 (success reported by throwing), or an
      HttpException with an error status. */
  datatype Outcome =
    | Account(user: User)
    | SignedIn(accessToken: Token, expired: int, info: Profile, isAuth: bool)
    | Refreshed(accessToken: Token, expired: int)
    | Undefined
    | OkSignal(message: string)
    | Failure(status: Status, message: string)

  /** bcryptjs and node's crypto, as opaque functions: `hash` is bcrypt with
      an explicit salt, `compare` is bcrypt's compareSync, `sha256` is the
      hex SHA-256 digest. */
  datatype Hashing = Hashing(
    hash: (Password, Salt) -> Digest,
    compare: (Password, Digest) -> bool,
    sha256: Token -> Digest)

  /** AuthHelper's token issuing and JwtService.verify with the refresh
      secret, each a function of the claims and the current time. */
  datatype TokenIssuer = TokenIssuer(
    access: (Claims, Time) -> AccessToken,
    refresh: (Claims, Time) -> Token,
    verifyRefresh: (Token, Time) -> Verification)

  /** What AuthHelper.getPasswordResetToken returns. */
  datatype ResetTicket = ResetTicket(token: Token, tokenHash: Digest, expires: Time)

  /** How EmailHelper.sendGmail ends: it returns, or it throws something
      whose `status` is a number or is missing. */
  datatype Delivery = Delivered | DeliveryFailed(status: Option<int>)

  /** bcrypt accepts every password it hashed, whatever the salt. */
  ghost predicate BcryptSound(h: Hashing) {
    forall p: Password, salt: Salt :: h.compare(p, h.hash(p, salt))
  }

  /** A refresh token decodes to the claims it was signed with at the time
      it was issued. */
  ghost predicate RefreshVerifiable(t: TokenIssuer) {
    forall c: Claims, now: Time :: t.verifyRefresh(t.refresh(c, now), now) == Decoded(c)
  }

  /** The generator's contract: the stored digest is the SHA-256 of the
      mailed token and the ticket expires in the future. */
  predicate TicketWellFormed(h: Hashing, ticket: ResetTicket, now: Time) {
    ticket.tokenHash == h.sha256(ticket.token) && ticket.expires > now
  }
}

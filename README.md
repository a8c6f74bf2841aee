# Credential lifecycle of the e-commerce API's AuthService

This project models `AuthService` (src/modules/auth/auth.service.ts), the part of the
e-commerce backend that signs users up and in, mints access tokens from refresh
sessions, changes and resets passwords, and logs users out. The service works
over three persisted tables:

- the user table: id, email (unique), bcrypt password digest, phone, full name,
  role, isDelete, reset-token digest, reset-token expiry, createdAt, updatedAt;
- the refresh-session table (`auth`): at most one row per user, holding the
  signed refresh token;
- the user-permission table: create, update, remove and isDelete flags.

The model has four modules:

- `AuthTypes` (types.dfy): the rows, the token claims, how a call ends
  (`Outcome`), and the collaborators the service cannot see inside: bcrypt,
  SHA-256 (FIPS 180-4), JWT signing and verification (RFC 7519, expiry through
  the `exp` claim of section 4.1.4) and the reset-token generator.
- `AuthStore` (store.dfy): the tables as one value `Store`, the store invariant
  `Valid` (unique emails, ids below the next free id, both reset columns set
  or both null, sessions and permissions only for existing users), and one
  transition function per operation. Each function's contract gives the
  outcome for every branch of the source, both directions of each
  if-and-only-if, and what stays unchanged.
- `Service` (service.dfy): `class AuthService`, whose map fields are updated
  in place in the order the source updates its tables. Each method is proved
  to end in exactly the state and outcome its transition function gives.
  `Refresh` has no `modifies` clause: it changes nothing.
- `AuthFlows` (flows.dfy): lemmas about sequences of calls. Signing up then
  signing in works. A second sign-in replaces the session. After a password
  change the new password is accepted, and the old one only where bcrypt
  still accepts it against the new hash. A reset ticket works once. Logout is
  idempotent.

A call ends in one of six ways: a returned record (`Account`, `SignedIn`,
`Refreshed`), `undefined` (`Undefined`), an HttpException with status 200
(`OkSignal`: the source reports success of changePassword, resetPassword and
logout by throwing), or an HttpException with an error status (`Failure`).
Messages are the source's own strings.

Some behaviour of auth.service.ts that the model keeps as written:

- signUp answers a taken email with `ForbiddenException` "Email is already
  exist" (line 30), status 403.
- forgotPassword never returns "Email has been sent". The status-200
  HttpException thrown at line 151 is caught by the catch at line 152, and
  `200 > 200` is false. So the ticket is kept and the method returns
  `undefined`. The catch clears both reset columns only when what it caught
  has a numeric `status` above 200. A delivery error without a status also
  leaves the ticket in place (`WhichCatchesClearTheTicket`).
- refresh returns `undefined` when `jwt.verify` throws anything other than
  a `TokenExpiredError` (lines 111-112).
- The `info` returned by signIn still carries the reset-token digest and
  expiry. Only password, createdAt and updatedAt are deleted (lines 70-73).
  Its `permission` is the selected create, update and remove flags
  (line 59), not the row's isDelete flag.

The collaborators are parameters. Bcrypt is a pair of functions `hash(password,
salt)` and `compare(password, digest)`, with the salt passed in. Lemmas that need
bcrypt to accept its own hashes assume `BcryptSound`. Nothing assumes that
bcrypt rejects other passwords: where that matters, the lemma states its
result in terms of `compare`. Token signing and verification are functions of the claims, the token
and the current time. `RefreshVerifiable` says a fresh refresh token decodes to
its own claims. The reset ticket, the mail delivery result and the clock are
method parameters.

## Model

| member | source | states |
|---|---|---|
| AuthStore.FindByEmail | src/modules/auth/auth.service.ts:55-62 | findUnique by email finds the row owning the email, and finds nothing exactly when no row has it (relies on unique emails) |
| AuthStore.FindFirstByTicket | src/modules/auth/auth.service.ts:164-167 | findFirst finds a row whose reset digest equals the presented digest and whose expiry is after now; it finds nothing exactly when no row matches |
| AuthStore.SignUp | src/modules/auth/auth.service.ts:26-49 | Forbidden "Email is already exist" with no change exactly when the email exists. Otherwise it adds exactly one new user: CUSTOMER, not deleted, no reset ticket, password = bcrypt hash of the input. It adds one permission row with every flag false. Sessions are unchanged and the store invariant (unique emails) is kept |
| AuthStore.SignIn | src/modules/auth/auth.service.ts:51-92 | Checks run in order. Unknown email gives NotFound. Otherwise a failed bcrypt compare gives Forbidden. Otherwise admin flag with a CUSTOMER role gives Unauthorized. Otherwise it succeeds (each as iff). Failures change nothing. On success only the user's session changes, created or overwritten with the refresh token for {id, email, role}; other sessions keep their tokens. `info` is the row without password/createdAt/updatedAt plus the create/update/remove flags of its permission row, and isAuth is true |
| AuthStore.Refresh | src/modules/auth/auth.service.ts:94-114 | No session gives Forbidden "Token not found". An expired stored token gives Forbidden "Token is expired". Any other verification failure gives undefined. The result is Refreshed exactly when the stored token decodes, and then the access token is issued from the decoded claims. It returns no store, so it never modifies one |
| AuthStore.ChangePassword | src/modules/auth/auth.service.ts:116-128 | Unknown id gives NotFound. A wrong old password gives Forbidden; failures change nothing. Otherwise only that user's password changes, to the hash of the new password, and the call ends with the status-200 "Password has successfully changed" |
| AuthStore.ForgotPassword | src/modules/auth/auth.service.ts:130-160 | Unknown email gives Forbidden with no change. Otherwise it returns undefined and changes only that user's two reset columns, together. They hold the new digest and expiry, or are both null when the caught status exceeds 200 |
| AuthStore.ResetPassword | src/modules/auth/auth.service.ts:162-174 | BadRequest with no change exactly when no user holds the presented token's SHA-256 digest with an expiry after now. Otherwise one matching user gets the new password's hash and both reset columns null, and the call ends with the status-200 "Password has been reset" |
| AuthStore.Logout | src/modules/auth/auth.service.ts:176-182 | Always the status-200 "Logout success". Afterwards the user has no session, and every other user's session is unchanged |
| Service.AuthService.constructor | src/modules/auth/auth.service.ts:18-24 | The service starts over a store satisfying the invariant, with the injected collaborators |
| Service.AuthService.SignUp | src/modules/auth/auth.service.ts:26-49 | In-place inserts into the user and permission tables end in the state and outcome of AuthStore.SignUp; keeps the invariant |
| Service.AuthService.SignIn | src/modules/auth/auth.service.ts:51-92 | The session upsert in place ends in the state and outcome of AuthStore.SignIn |
| Service.AuthService.Refresh | src/modules/auth/auth.service.ts:94-114 | Reads the session table only and returns the outcome of AuthStore.Refresh |
| Service.AuthService.ChangePassword | src/modules/auth/auth.service.ts:116-128 | The password update in place ends in the state and outcome of AuthStore.ChangePassword |
| Service.AuthService.ForgotPassword | src/modules/auth/auth.service.ts:130-160 | Writes the ticket, then conditionally clears it, in place; ends as AuthStore.ForgotPassword |
| Service.AuthService.ResetPassword | src/modules/auth/auth.service.ts:162-174 | The update in place ends in the state and outcome of AuthStore.ResetPassword |
| Service.AuthService.Logout | src/modules/auth/auth.service.ts:176-182 | Deleting the session in place ends in the state and outcome of AuthStore.Logout |
| AuthFlows.OwnerIsFound | src/modules/auth/auth.service.ts:55-62 | With unique emails, the lookup by email returns exactly the row that owns it |
| AuthFlows.SignUpThenSignIn | src/modules/auth/auth.service.ts:26-92 | After a sign-up, the same credentials sign in without the admin flag. The profile has that id, email, role CUSTOMER and all-false permissions, and the new session holds the new refresh token. With the admin flag the result is Unauthorized. Before signing in, refresh gives "Token not found" |
| AuthFlows.SignInAgainReplacesSession | src/modules/auth/auth.service.ts:81-85 | A second successful sign-in overwrites the user's refresh token. The session keys and count stay as they were, so one session per user remains |
| AuthFlows.ChangePasswordThenSignIn | src/modules/auth/auth.service.ts:116-127 | After a password change the new password signs in. The old password gives Forbidden exactly when bcrypt's compare rejects it against the new hash, and signs in otherwise |
| AuthFlows.ForgotThenReset | src/modules/auth/auth.service.ts:130-174 | The ticket is written and the catch does not clear it. Reset with the mailed token before expiry then sets the owner's new password and nulls both reset columns. The same token is refused with BadRequest afterwards (single use) |
| AuthFlows.RolledBackTicketIsRefused | src/modules/auth/auth.service.ts:152-158 | When the caught status exceeds 200, the ticket is cleared and the mailed token gives BadRequest |
| AuthFlows.WhichCatchesClearTheTicket | src/modules/auth/auth.service.ts:151-153 | The catch keeps the ticket after a successful send and after a status-less delivery error. It clears the ticket exactly for a delivery error whose status is above 200 |
| AuthFlows.SignInThenRefresh | src/modules/auth/auth.service.ts:74-109 | Right after a sign-in, refresh returns the access token issued for that user's {id, email, role} |
| AuthFlows.RefreshIgnoresUserTable | src/modules/auth/auth.service.ts:99-108 | Refresh's claims come from the decoded token: changing the user and permission tables does not change its outcome |
| AuthFlows.LogoutIdempotent | src/modules/auth/auth.service.ts:176-182 | Logging out twice gives the same outcome and the same state as once, and refresh afterwards gives "Token not found" |

## Left out

- Cryptography is opaque: bcrypt, SHA-256, JWT signing and verification, and AuthHelper's token and ticket generation are collaborator functions. The reset ticket, including its random token, is a parameter. Access and refresh tokens are fixed functions of the claims and the time, so any randomness in getAccessToken or getRefreshToken is not modelled. The real clock is a parameter. The helper sources (auth.helper, utils) are not part of this model.
- The reset URL, the localised subject, the HTML template and the Gmail call (lines 142-150) are not modelled. Delivery is a parameter: sent, or an error with or without a numeric status. Because of this, the `langCode` and `admin` query fields of forgotPassword do not appear.
- The `image` relation that signIn includes (line 58) is not modelled: the image table is outside this core.
- Row ids come from a counter in the store standing for the database's id generation. Prisma's `@updatedAt` bump is not modelled, because the schema is not part of this model.
- findFirst's row order is unspecified. The model takes the matching row with the lowest id, the earliest created.
- "Sign up failed" (line 48) is unreachable: create returns the new row or throws. It is left out.
- Errors thrown by the database or by the collaborators are not modelled. Examples: a unique-constraint race, a missing `userId` query field, getAccessToken throwing inside refresh's `try`.
- Concurrency and async scheduling are not modelled: each method is one sequential transaction.
- bcryptjs reads only the first 72 bytes of a password, so two passwords sharing those bytes compare equal. The model keeps `compare` opaque and does not encode this rule. AuthFlows.ChangePasswordThenSignIn therefore states that the old password is refused exactly when `compare` rejects it against the new hash.
- AuthStore.SignIn: the `id` of the permission row that line 59 selects is not modelled, because the permission table's ids are outside this model. `info.permission` carries create, update and remove only.
- AuthStore.SignIn: `admin` is taken from the untyped query at line 52, so it is a string, and any non-empty value, `"false"` included, is truthy. The model's `admin: bool` stands for that truthiness.
- AuthStore.Refresh: when `jwt.verify` returns a falsy value without throwing (line 102), refresh returns `undefined`. The model's `Verification` has no such case, so that path is not modelled.
- AuthFlows.ForgotThenReset: assumes no other user holds the same reset digest, because the generator's uniqueness is not visible.
- AuthFlows.RolledBackTicketIsRefused: assumes no other user holds the same reset digest, for the same reason.

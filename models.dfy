/** The stored documents, the request and response shapes, and the error kinds
    of the reported-users backend (Models/ReportedUser.cs and the DTO files under Models). */
module Models {
  import opened Wrappers

  /** A server clock reading, in seconds. The clock itself is a parameter of
      every operation that reads it. */
  type Time = int

  /** The lifecycle state of a reported-user record. */
  datatype Status = Draft | Active

  /** A document of the ReportedUsers collection. `id` is the document key;
      every other text field is nullable. */
  datatype ReportedUser = ReportedUser(
    id: string,
    name: Option<string>,
    idNumber: Option<string>,
    fine: int,
    date: Time,
    location: Option<string>,
    description: Option<string>,
    deleted: bool,
    status: Status,
    createdBy: Option<string>,
    createdAt: Time,
    updatedAt: Time)

  /** A salted one-way password hash. BCrypt is foreign code: the model only
      needs a hash that is determined by salt and password, tells different
      passwords apart and is never the password itself. */
  datatype PasswordHash = BCrypt(salt: string, secret: string)

  function HashPassword(password: string, salt: string): (h: PasswordHash)
    ensures h.salt == salt
  {
    BCrypt(salt, password)
  }

  /** BCrypt's verification: does `password` hash to `h` under `h`'s salt? */
  predicate VerifyPassword(password: string, h: PasswordHash)
    ensures VerifyPassword(password, h) <==> exists salt :: h == HashPassword(password, salt)
  {
    HashPassword(password, h.salt) == h
  }

  /** Only the password a hash was made from verifies against it. */
  lemma VerifyPasswordIff(password: string, original: string, salt: string)
    ensures VerifyPassword(password, HashPassword(original, salt)) <==> password == original
  {
  }

  /** A document of the Users collection, with the fields the services read
      and write. */
  datatype User = User(
    id: string,
    name: string,
    email: string,
    password: PasswordHash,
    phone: Option<string>,
    address: Option<string>,
    isAdmin: bool,
    createdAt: Time,
    updatedAt: Time)

  /** The body of a create request. */
  datatype ReportedUserCreateDto = ReportedUserCreateDto(
    name: Option<string>,
    idNumber: Option<string>,
    fine: int,
    location: Option<string>,
    description: Option<string>)

  /** The body of an update request; `deleted` defaults to false when a client
      leaves it out, and `status` is nullable. */
  datatype ReportedUserUpdateDto = ReportedUserUpdateDto(
    name: Option<string>,
    idNumber: Option<string>,
    location: Option<string>,
    description: Option<string>,
    deleted: bool,
    status: Option<Status>)

  /** The body of a register request, also used for account updates. */
  datatype UserRegisterDto = UserRegisterDto(
    name: string,
    email: string,
    password: Option<string>,
    phone: Option<string>,
    address: Option<string>,
    adminSecret: Option<string>)

  datatype UserLoginDto = UserLoginDto(email: string, password: string)

  /** What the account endpoints return: there is no password field, and
      `isAdmin` is false unless an operation sets it. */
  datatype UserResponse = UserResponse(
    id: string,
    name: string,
    email: string,
    phone: Option<string>,
    address: Option<string>,
    isAdmin: bool,
    createdAt: Time,
    updatedAt: Time)

  /** The projection of a stored user onto a response; `showAdmin` says
      whether the operation copies the admin flag. */
  function ToResponse(u: User, showAdmin: bool): (r: UserResponse)
    ensures r.id == u.id && r.name == u.name && r.email == u.email
    ensures r.isAdmin <==> showAdmin && u.isAdmin
  {
    UserResponse(u.id, u.name, u.email, u.phone, u.address, showAdmin && u.isAdmin, u.createdAt, u.updatedAt)
  }

  /** Why an UnauthorizedAccessException was thrown (HTTP 401 at the controllers). */
  datatype Denial = NotAuthenticated | AdminOnly | SelfOnly

  /** Why any other exception was thrown (HTTP 400, or 404 on the by-id and
      "me" endpoints). */
  datatype Fault =
    | ReportedUserNotFound
    | NotFoundOrNoPermission
    | UserNotFound
    | EmailExists
    | InvalidCredentials
    | PasswordRequired

  datatype Error = Unauthorized(denial: Denial) | Failure(fault: Fault)

  /** The services' `string.IsNullOrEmpty(currentUserId)` guard, negated: the
      caller id is present and not empty. */
  predicate Authenticated(caller: Option<string>) {
    caller.Some? && caller.value != ""
  }
}

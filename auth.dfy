/** Registration and login (Services/AuthService.cs). */
module Auth {
  import opened Wrappers
  import opened Models
  import opened Queries
  import opened Store
  import opened UserContext
  import opened Text

  /** The secret that makes a registering user an admin. */
  const AdminSecret := "AgonSecret"

  /** Tokens expire three hours after they are issued. */
  const TokenLifetime: int := 3 * 60 * 60

  const JwtEmailType := "email"
  const JtiType := "jti"

  /** The admin bootstrap rule: a non-empty secret equal to AdminSecret. */
  predicate GrantsAdmin(adminSecret: Option<string>)
    ensures GrantsAdmin(adminSecret) <==> adminSecret == Some(AdminSecret)
  {
    adminSecret.Some? && adminSecret.value != "" && adminSecret.value == AdminSecret
  }

  function EmailFilter(email: string): User -> bool {
    (u: User) => u.email == email
  }

  /** `Users.Find(u => u.Email == email).FirstOrDefault() != null`. */
  predicate EmailTaken(users: seq<User>, email: string)
    ensures EmailTaken(users, email) <==> exists u :: u in users && u.email == email
  {
    First(users, EmailFilter(email)).Some?
  }

  /** The document Register inserts: name, email, the hash of the password and
      the admin flag; the request's phone number and address are dropped. Both
      timestamps are taken to be the creation time, as for a reported user. */
  function NewUser(dto: UserRegisterDto, id: string, salt: string, now: Time): (u: User)
    requires dto.password.Some?
    ensures u.id == id && u.name == dto.name && u.email == dto.email
    ensures u.password == HashPassword(dto.password.value, salt)
    ensures u.isAdmin <==> dto.adminSecret == Some(AdminSecret)
    ensures u.phone == None && u.address == None
  {
    User(id, dto.name, dto.email, HashPassword(dto.password.value, salt), None, None, GrantsAdmin(dto.adminSecret), now, now)
  }

  /** The claims and expiry of a session token; the signature, issuer and
      audience are not modelled. */
  datatype Token = Token(claims: seq<Claim>, expires: Time)

  /** The token for `u`: subject, email, a fresh token id and the name, valid
      for three hours. */
  function GenerateJwtToken(u: User, jti: string, now: Time): (t: Token)
    ensures FindFirst(t.claims, SubType) == Some(u.id)
    ensures FindFirst(t.claims, JwtEmailType) == Some(u.email)
    ensures FindFirst(t.claims, JtiType) == Some(jti)
    ensures FindFirst(t.claims, NameType) == Some(u.name)
    ensures FindFirst(t.claims, NameIdentifierType) == None
    ensures |t.claims| == 4 && t.expires == now + TokenLifetime
  {
    var claims := [Claim(SubType, u.id), Claim(JwtEmailType, u.email), Claim(JtiType, jti), Claim(NameType, u.name)];
    assert !EqualsIgnoringCase(SubType, JtiType) && !EqualsIgnoringCase(JtiType, SubType) by {
      assert LowerChar(SubType[0]) == 's' && LowerChar(JtiType[0]) == 'j';
    }
    FindFirstOfFour(claims, SubType);
    FindFirstOfFour(claims, JwtEmailType);
    FindFirstOfFour(claims, JtiType);
    FindFirstOfFour(claims, NameType);
    FindFirstOfFour(claims, NameIdentifierType);
    Token(claims, now + TokenLifetime)
  }

  /** FindFirst over four claims, written out. */
  lemma FindFirstOfFour(claims: seq<Claim>, claimType: string)
    requires |claims| == 4
    ensures FindFirst(claims, claimType) ==
      if OfType(claims[0], claimType) then Some(claims[0].value)
      else if OfType(claims[1], claimType) then Some(claims[1].value)
      else if OfType(claims[2], claimType) then Some(claims[2].value)
      else if OfType(claims[3], claimType) then Some(claims[3].value)
      else None
  {
    assert claims[1..][1..][1..][1..] == [];
  }

  /** Looks the user up by email and checks the password. An unknown email
      and a wrong password give the same error. */
  function Login(users: seq<User>, dto: UserLoginDto, jti: string, now: Time): (r: Result<Token, Error>)
    ensures r.Err? ==> r.error == Failure(InvalidCredentials)
    ensures !EmailTaken(users, dto.email) ==> r.Err?
    ensures r.Ok? ==> exists u :: && u in users && u.email == dto.email
                                  && VerifyPassword(dto.password, u.password)
                                  && r.value == GenerateJwtToken(u, jti, now)
  {
    match First(users, EmailFilter(dto.email))
    case None => Err(Failure(InvalidCredentials))
    case Some(u) =>
      if !VerifyPassword(dto.password, u.password) then Err(Failure(InvalidCredentials))
      else Ok(GenerateJwtToken(u, jti, now))
  }

  /** Login checks the password against the first user with the email only
      (account updates do not keep emails unique): it succeeds exactly when the
      password verifies against that user's hash. */
  lemma LoginSucceedsIffPasswordVerifies(users: seq<User>, k: nat, dto: UserLoginDto, jti: string, now: Time)
    requires k < |users| && users[k].email == dto.email
    requires forall j :: 0 <= j < k ==> users[j].email != dto.email
    ensures Login(users, dto, jti, now).Ok? <==> VerifyPassword(dto.password, users[k].password)
    ensures Login(users, dto, jti, now).Ok? ==> Login(users, dto, jti, now).value == GenerateJwtToken(users[k], jti, now)
  {
    var f := FirstIndex(users, EmailFilter(dto.email));
    assert users[k] in users;
    assert f == Some(k);
  }

  class AuthService {
    const db: Database

    constructor (db: Database)
      ensures this.db == db
    {
      this.db := db;
    }

    /** Adds a user under the fresh id `newId`, unless the email is taken. The
        response carries neither the password nor the admin flag. */
    method Register(dto: UserRegisterDto, newId: string, salt: string, now: Time)
      returns (r: Result<UserResponse, Error>)
      requires db.Valid() && FreshUserId(db.users, newId)
      modifies db
      ensures db.Valid() && db.reportedUsers == old(db.reportedUsers)
      ensures EmailTaken(old(db.users), dto.email) ==>
        r == Err(Failure(EmailExists)) && db.users == old(db.users)
      ensures !EmailTaken(old(db.users), dto.email) && dto.password.None? ==>
        r == Err(Failure(PasswordRequired)) && db.users == old(db.users)
      ensures !EmailTaken(old(db.users), dto.email) && dto.password.Some? ==>
        && db.users == old(db.users) + [NewUser(dto, newId, salt, now)]
        && r == Ok(ToResponse(NewUser(dto, newId, salt, now), false))
    {
      var existing := First(db.users, EmailFilter(dto.email));
      if existing.Some? {
        return Err(Failure(EmailExists));
      }
      if dto.password.None? {
        // the hash function rejects a null password
        return Err(Failure(PasswordRequired));
      }
      var user := NewUser(dto, newId, salt, now);
      db.users := db.users + [user];
      r := Ok(ToResponse(user, false));
    }
  }

  /** Registering, then logging in with the same email and password, gives
      the new user's token. */
  lemma RegisterThenLogin(users: seq<User>, dto: UserRegisterDto, id: string, salt: string, now: Time, jti: string, later: Time)
    requires !EmailTaken(users, dto.email) && dto.password.Some?
    ensures
      var u := NewUser(dto, id, salt, now);
      Login(users + [u], UserLoginDto(dto.email, dto.password.value), jti, later) == Ok(GenerateJwtToken(u, jti, later))
  {
    var u := NewUser(dto, id, salt, now);
    FirstIndexAppend(users, u, EmailFilter(dto.email));
  }

  /** A request authenticated with the token's claims resolves to the token's
      user: the missing NameIdentifier claim falls back to "sub". */
  lemma TokenIdentifiesUser(u: User, jti: string, now: Time)
    ensures
      var ctx := Some(HttpContext(Some(ClaimsPrincipal(Some(Identity(true)), GenerateJwtToken(u, jti, now).claims))));
      && GetCurrentUserId(ctx) == Some(u.id)
      && GetCurrentUserName(ctx) == Some(u.name)
      && (u.id != "" ==> IsCurrentUser(ctx, u.id))
  {
  }
}

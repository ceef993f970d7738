/** The account service (Services/UserService.cs): a caller reads, updates and
    deletes only their own user document. */
module Users {
  import opened Wrappers
  import opened Models
  import opened Queries
  import opened Store

  function IdFilter(id: string): User -> bool {
    (u: User) => u.id == id
  }

  /** The caller's own account. */
  function GetCurrentUser(users: seq<User>, caller: Option<string>): (r: Result<UserResponse, Error>)
    ensures !Authenticated(caller) ==> r == Err(Unauthorized(NotAuthenticated))
    ensures Authenticated(caller) && (forall u :: u in users ==> u.id != caller.value) ==> r == Err(Failure(UserNotFound))
    ensures Authenticated(caller) && (exists u :: u in users && u.id == caller.value) ==> r.Ok?
    ensures r.Ok? ==> exists u :: u in users && Some(u.id) == caller && r.value == ToResponse(u, true)
    ensures r.Ok? ==> exists i :: IsFirstMatch(users, (u: User) => caller == Some(u.id), i) && r.value == ToResponse(users[i], true)
    ensures r.Ok? || r == Err(Unauthorized(NotAuthenticated)) || r == Err(Failure(UserNotFound))
  {
    if !Authenticated(caller) then Err(Unauthorized(NotAuthenticated))
    else match UserById(users, caller)
      case None => Err(Failure(UserNotFound))
      case Some(u) => Ok(ToResponse(u, true))
  }

  /** The guard shared by `GetUserById`, `UpdateUser` and `DeleteUser`, in their order:
      authentication, then id == caller, then the document must exist. Gives
      the position of the caller's document. */
  function AuthorizeSelf(users: seq<User>, caller: Option<string>, id: string): (r: Result<nat, Error>)
    ensures !Authenticated(caller) ==> r == Err(Unauthorized(NotAuthenticated))
    ensures Authenticated(caller) && caller.value != id ==> r == Err(Unauthorized(SelfOnly))
    ensures Authenticated(caller) && caller.value == id && (forall u :: u in users ==> u.id != id) ==>
      r == Err(Failure(UserNotFound))
    ensures r.Ok? <==> Authenticated(caller) && caller.value == id && exists u :: u in users && u.id == id
    ensures r.Ok? ==> r.value < |users| && users[r.value].id == id
  {
    if !Authenticated(caller) then Err(Unauthorized(NotAuthenticated))
    else if caller.value != id then Err(Unauthorized(SelfOnly))
    else match FirstIndex(users, IdFilter(id))
      case None => Err(Failure(UserNotFound))
      case Some(i) => Ok(i)
  }

  /** The account `id`, only for its own user; the admin flag is not copied. */
  function GetUserById(users: seq<User>, caller: Option<string>, id: string): (r: Result<UserResponse, Error>)
    ensures (match AuthorizeSelf(users, caller, id)
      case Err(e) => r == Err(e)
      case Ok(i) => r == Ok(ToResponse(users[i], false)))
    ensures r.Ok? ==> Some(r.value.id) == caller && !r.value.isAdmin
  {
    match AuthorizeSelf(users, caller, id)
    case Err(e) => Err(e)
    case Ok(i) => Ok(ToResponse(users[i], false))
  }

  /** The caller's document after an account update: name, email, address,
      phone and update time from the request. The password is not among them:
      `UserService.UpdateUser` builds the password `Set` but does not keep the
      result. */
  function ApplyAccountUpdate(u: User, dto: UserRegisterDto, now: Time): (r: User)
    ensures r.name == dto.name && r.email == dto.email
    ensures r.address == dto.address && r.phone == dto.phone && r.updatedAt == now
    ensures r.id == u.id && r.password == u.password && r.isAdmin == u.isAdmin
    ensures r.createdAt == u.createdAt
  {
    u.(name := dto.name, email := dto.email, address := dto.address, phone := dto.phone, updatedAt := now)
  }

  class UserService {
    const db: Database

    constructor (db: Database)
      ensures this.db == db
    {
      this.db := db;
    }

    /** Updates the caller's own account; the stored password hash never changes. */
    method UpdateUser(caller: Option<string>, id: string, dto: UserRegisterDto, now: Time)
      returns (r: Result<UserResponse, Error>)
      requires db.Valid()
      modifies db
      ensures db.Valid() && db.reportedUsers == old(db.reportedUsers)
      ensures match AuthorizeSelf(old(db.users), caller, id)
        case Err(e) => r == Err(e) && db.users == old(db.users)
        case Ok(i) =>
          && db.users == old(db.users)[i := ApplyAccountUpdate(old(db.users)[i], dto, now)]
          && r == Ok(ToResponse(db.users[i], false))
    {
      if !Authenticated(caller) {
        return Err(Unauthorized(NotAuthenticated));
      }
      if caller.value != id {
        return Err(Unauthorized(SelfOnly));
      }
      var existing := FirstIndex(db.users, IdFilter(id));
      if existing.None? {
        return Err(Failure(UserNotFound));
      }
      var i := existing.value;
      // A non-blank password is hashed too, but the update that would store
      // the hash is discarded, so both cases write the same document.
      var updated := ApplyAccountUpdate(db.users[i], dto, now);
      db.users := db.users[i := updated];
      r := Ok(ToResponse(updated, false));
    }

    /** Removes the caller's own user document; their records stay. */
    method DeleteUser(caller: Option<string>, id: string) returns (r: Result<(), Error>)
      requires db.Valid()
      modifies db
      ensures db.Valid() && db.reportedUsers == old(db.reportedUsers)
      ensures match AuthorizeSelf(old(db.users), caller, id)
        case Err(e) => r == Err(e) && db.users == old(db.users)
        case Ok(i) => r == Ok(()) && db.users == old(db.users)[..i] + old(db.users)[i + 1..]
    {
      if !Authenticated(caller) {
        return Err(Unauthorized(NotAuthenticated));
      }
      if caller.value != id {
        return Err(Unauthorized(SelfOnly));
      }
      var existing := FirstIndex(db.users, IdFilter(id));
      if existing.None? {
        return Err(Failure(UserNotFound));
      }
      var i := existing.value;
      db.users := db.users[..i] + db.users[i + 1..];
      assert forall j :: 0 <= j < |db.users| ==> db.users[j] == old(db.users)[if j < i then j else j + 1];
      r := Ok(());
    }
  }

  /** After an account is deleted, its owner's id no longer resolves to a user. */
  lemma DeletedAccountIsGone(users: seq<User>, caller: Option<string>, id: string)
    requires UniqueUserIds(users)
    requires AuthorizeSelf(users, caller, id).Ok?
    ensures
      var i := AuthorizeSelf(users, caller, id).value;
      var users' := users[..i] + users[i + 1..];
      && |users'| == |users| - 1
      && GetCurrentUser(users', caller) == Err(Failure(UserNotFound))
      && AuthorizeSelf(users', caller, id) == Err(Failure(UserNotFound))
  {
    var i := AuthorizeSelf(users, caller, id).value;
    var users' := users[..i] + users[i + 1..];
    forall u | u in users'
      ensures u.id != id
    {
      var j :| 0 <= j < |users'| && users'[j] == u;
      var k := if j < i then j else j + 1;
      assert users'[j] == users[k];
      assert k != i;
    }
  }

  /** The account update leaves the password as it was, whatever the request
      says: logging in still takes the old password. */
  lemma UpdateKeepsPassword(users: seq<User>, caller: Option<string>, id: string, dto: UserRegisterDto, now: Time, password: string)
    requires AuthorizeSelf(users, caller, id).Ok?
    ensures
      var i := AuthorizeSelf(users, caller, id).value;
      var u' := ApplyAccountUpdate(users[i], dto, now);
      VerifyPassword(password, u'.password) <==> VerifyPassword(password, users[i].password)
  {
  }
}

/** The reported-user records service (Services/ReportedUserService.cs).

    Every operation resolves the caller first and decides from the caller's
    id, the caller's user document and the record's owner whether it may go
    on. The read operations are functions of a snapshot of the collections;
    the writes are methods of `ReportedUserService`, which updates the shared
    `Database` in place. */
module ReportedUsers {
  import opened Wrappers
  import opened Models
  import opened Queries
  import opened Store
  import opened Text

  // ---------------------------------------------------------------------------
  // Case-insensitive text search
  // ---------------------------------------------------------------------------

  /** Characters with a special meaning in a regular expression. */
  const RegexMetacharacters: set<char> :=
    {'\\', '^', '$', '.', '|', '?', '*', '+', '(', ')', '[', ']', '{', '}'}

  /** A search text that the regular-expression engine matches literally. */
  predicate IsLiteralPattern(query: string) {
    forall i :: 0 <= i < |query| ==> query[i] !in RegexMetacharacters
  }

  /** `q` occurs in `s` starting at position `i`. */
  predicate OccursAt(q: string, s: string, i: int) {
    0 <= i && i + |q| <= |s| && s[i..i + |q|] == q
  }

  /** Substring search, by scanning `s` from the left. */
  predicate Occurs(q: string, s: string) {
    q <= s || (s != [] && Occurs(q, s[1..]))
  }

  lemma {:induction false} OccursIff(q: string, s: string)
    ensures Occurs(q, s) <==> exists i :: OccursAt(q, s, i)
  {
    if q <= s {
      assert OccursAt(q, s, 0);
    } else if s != [] {
      OccursIff(q, s[1..]);
      if Occurs(q, s[1..]) {
        var i :| OccursAt(q, s[1..], i);
        assert s[1..][i..i + |q|] == s[i + 1..i + 1 + |q|];
        assert OccursAt(q, s, i + 1);
      }
      if exists i :: OccursAt(q, s, i) {
        var i :| OccursAt(q, s, i);
        assert s[1..][i - 1..i - 1 + |q|] == s[i..i + |q|];
        assert OccursAt(q, s[1..], i - 1);
      }
    }
  }

  /** The reference meaning of a case-insensitive match of a literal pattern:
      some window of the text equals the pattern, letters compared without case. */
  ghost predicate ContainsIgnoringCase(text: string, query: string) {
    exists i :: OccursAt(Lower(query), Lower(text), i)
  }

  /** The regex filter on one nullable field: a null field never matches. */
  predicate FieldMatches(field: Option<string>, query: string)
    ensures FieldMatches(field, query) <==> field.Some? && ContainsIgnoringCase(field.value, query)
  {
    OccursIff(Lower(query), Lower(field.GetOr("")));
    field.Some? && Occurs(Lower(query), Lower(field.value))
  }

  /** `!string.IsNullOrEmpty(NameOrIdNumber)`: whether the text filter applies. */
  predicate HasTextFilter(query: Option<string>) {
    query.Some? && query.value != ""
  }

  // ---------------------------------------------------------------------------
  // Read operations
  // ---------------------------------------------------------------------------

  /** The caller's own records that are not soft-deleted. */
  function GetAllReportedUsers(t: seq<ReportedUser>, caller: Option<string>): (r: Result<seq<ReportedUser>, Error>)
    ensures !Authenticated(caller) <==> r == Err(Unauthorized(NotAuthenticated))
    ensures Authenticated(caller) ==> r.Ok?
    ensures r.Ok? ==> forall x :: x in r.value <==> x in t && !x.deleted && x.createdBy == caller
  {
    if !Authenticated(caller) then Err(Unauthorized(NotAuthenticated))
    else Ok(Filter(t, OwnListFilter(caller)))
  }

  function OwnListFilter(caller: Option<string>): ReportedUser -> bool {
    (x: ReportedUser) => !x.deleted && x.createdBy == caller
  }

  /** The record with id `id`, only if the caller created it; a soft-deleted
      record is still returned to its owner. Absent and not-yours are one error. */
  function GetReportedUserById(t: seq<ReportedUser>, caller: Option<string>, id: string): (r: Result<ReportedUser, Error>)
    ensures !Authenticated(caller) ==> r == Err(Unauthorized(NotAuthenticated))
    ensures r.Ok? ==> Authenticated(caller) && r.value in t && r.value.id == id && r.value.createdBy == caller
    ensures Authenticated(caller) ==>
      (r == Err(Failure(NotFoundOrNoPermission)) <==> forall x :: x in t ==> !(x.id == id && x.createdBy == caller))
    ensures Authenticated(caller) && (exists x :: x in t && x.id == id && x.createdBy == caller) ==> r.Ok?
    ensures r.Ok? ==> exists i :: IsFirstMatch(t, (x: ReportedUser) => x.id == id && x.createdBy == caller, i) && t[i] == r.value
    ensures r.Ok? || r == Err(Unauthorized(NotAuthenticated)) || r == Err(Failure(NotFoundOrNoPermission))
  {
    if !Authenticated(caller) then Err(Unauthorized(NotAuthenticated))
    else match First(t, (x: ReportedUser) => x.id == id && x.createdBy == caller)
      case None => Err(Failure(NotFoundOrNoPermission))
      case Some(x) => Ok(x)
  }

  /** Every non-deleted Draft record, whoever created it; admins only. */
  function GetDraftReportedUsersForAdmin(users: seq<User>, t: seq<ReportedUser>, caller: Option<string>): (r: Result<seq<ReportedUser>, Error>)
    ensures !CallerIsAdmin(users, caller) <==> r == Err(Unauthorized(AdminOnly))
    ensures CallerIsAdmin(users, caller) ==> r.Ok?
    ensures r.Ok? ==> forall x :: x in r.value <==> x in t && !x.deleted && x.status == Draft
  {
    if !CallerIsAdmin(users, caller) then Err(Unauthorized(AdminOnly))
    else Ok(Filter(t, (x: ReportedUser) => !x.deleted && x.status == Draft))
  }

  /** Whether a record is a search hit: not deleted, Active, and, when a query
      text is given, its name or id number contains the text. */
  predicate IsSearchHit(x: ReportedUser, query: Option<string>) {
    && !x.deleted
    && x.status == Active
    && (HasTextFilter(query) ==> FieldMatches(x.name, query.value) || FieldMatches(x.idNumber, query.value))
  }

  /** The non-deleted Active records of every owner, filtered by the query text. */
  function SearchReportedUsers(t: seq<ReportedUser>, caller: Option<string>, query: Option<string>): (r: Result<seq<ReportedUser>, Error>)
    requires query.Some? ==> IsLiteralPattern(query.value)
    ensures !Authenticated(caller) <==> r == Err(Unauthorized(NotAuthenticated))
    ensures Authenticated(caller) ==> r.Ok?
    ensures r.Ok? ==> forall x :: x in r.value <==>
      && x in t && !x.deleted && x.status == Active
      && (HasTextFilter(query) ==>
            || (x.name.Some? && ContainsIgnoringCase(x.name.value, query.value))
            || (x.idNumber.Some? && ContainsIgnoringCase(x.idNumber.value, query.value)))
  {
    if !Authenticated(caller) then Err(Unauthorized(NotAuthenticated))
    else Ok(Filter(t, (x: ReportedUser) => IsSearchHit(x, query)))
  }

  // ---------------------------------------------------------------------------
  // Authorization decisions of the write operations
  // ---------------------------------------------------------------------------

  /** The admin status change: the caller must be an admin; the record is
      found by id alone, whoever owns it. Gives the position to write. */
  function AuthorizeStatusChange(users: seq<User>, t: seq<ReportedUser>, caller: Option<string>, id: string): (r: Result<nat, Error>)
    ensures !CallerIsAdmin(users, caller) ==> r == Err(Unauthorized(AdminOnly))
    ensures CallerIsAdmin(users, caller) && (forall x :: x in t ==> x.id != id) ==> r == Err(Failure(ReportedUserNotFound))
    ensures r.Ok? <==> CallerIsAdmin(users, caller) && exists x :: x in t && x.id == id
    ensures r.Ok? ==> r.value < |t| && t[r.value].id == id
  {
    if !CallerIsAdmin(users, caller) then Err(Unauthorized(AdminOnly))
    else match FirstIndex(t, (x: ReportedUser) => x.id == id)
      case None => Err(Failure(ReportedUserNotFound))
      case Some(i) => Ok(i)
  }

  /** The record filter of an update: an admin's matches the id alone, anyone
      else's also the owner. */
  function UpdateFilter(isAdmin: bool, caller: Option<string>, id: string): ReportedUser -> bool {
    if isAdmin then (x: ReportedUser) => x.id == id
    else (x: ReportedUser) => x.id == id && x.createdBy == caller
  }

  /** May the caller edit record `x`? Admins may edit every record. */
  predicate MayEdit(users: seq<User>, caller: Option<string>, x: ReportedUser) {
    CallerIsAdmin(users, caller) || x.createdBy == caller
  }

  /** The update guard, in `UpdateReportedUser`'s order: authentication, then a
      record the caller may edit, then — only if the request sets a status —
      the admin check. Gives the position to write. */
  function AuthorizeUpdate(users: seq<User>, t: seq<ReportedUser>, caller: Option<string>, id: string, setsStatus: bool): (r: Result<nat, Error>)
    ensures !Authenticated(caller) ==> r == Err(Unauthorized(NotAuthenticated))
    ensures Authenticated(caller) && (forall x :: x in t ==> !(x.id == id && MayEdit(users, caller, x))) ==>
      r == Err(Failure(NotFoundOrNoPermission))
    ensures Authenticated(caller) && (exists x :: x in t && x.id == id && MayEdit(users, caller, x)) ==>
      (r == Err(Unauthorized(AdminOnly)) <==> setsStatus && !CallerIsAdmin(users, caller))
    ensures r.Ok? <==>
      && Authenticated(caller)
      && (exists x :: x in t && x.id == id && MayEdit(users, caller, x))
      && (setsStatus ==> CallerIsAdmin(users, caller))
    ensures r.Ok? ==> r.value < |t| && t[r.value].id == id && MayEdit(users, caller, t[r.value])
  {
    if !Authenticated(caller) then Err(Unauthorized(NotAuthenticated))
    else
      var isAdmin := CallerIsAdmin(users, caller);
      match FirstIndex(t, UpdateFilter(isAdmin, caller, id))
      case None => Err(Failure(NotFoundOrNoPermission))
      case Some(i) => if setsStatus && !isAdmin then Err(Unauthorized(AdminOnly)) else Ok(i)
  }

  /** The soft-delete guard: the record must have been created by the caller;
      an admin gets no exception. Gives the position to write. */
  function AuthorizeDelete(t: seq<ReportedUser>, caller: Option<string>, id: string): (r: Result<nat, Error>)
    ensures !Authenticated(caller) ==> r == Err(Unauthorized(NotAuthenticated))
    ensures Authenticated(caller) && (forall x :: x in t ==> !(x.id == id && x.createdBy == caller)) ==>
      r == Err(Failure(NotFoundOrNoPermission))
    ensures r.Ok? <==> Authenticated(caller) && exists x :: x in t && x.id == id && x.createdBy == caller
    ensures r.Ok? ==> r.value < |t| && t[r.value].id == id && t[r.value].createdBy == caller
  {
    if !Authenticated(caller) then Err(Unauthorized(NotAuthenticated))
    else match FirstIndex(t, DeleteFilter(caller, id))
      case None => Err(Failure(NotFoundOrNoPermission))
      case Some(i) => Ok(i)
  }

  function DeleteFilter(caller: Option<string>, id: string): ReportedUser -> bool {
    (x: ReportedUser) => x.id == id && x.createdBy == caller
  }

  // ---------------------------------------------------------------------------
  // The documents the write operations store
  // ---------------------------------------------------------------------------

  /** The document a create inserts: Draft, not deleted, owned by the caller,
      the request's text fields, and the request's fine dropped. */
  function NewReportedUser(dto: ReportedUserCreateDto, owner: string, id: string, now: Time): (r: ReportedUser)
    ensures r.id == id && r.status == Draft && !r.deleted && r.createdBy == Some(owner)
    ensures r.name == dto.name && r.idNumber == dto.idNumber
    ensures r.location == dto.location && r.description == dto.description
    ensures r.fine == 0
    ensures r.date == now && r.createdAt == now && r.updatedAt == now
  {
    ReportedUser(id, dto.name, dto.idNumber, 0, now, dto.location, dto.description, false, Draft, Some(owner), now, now)
  }

  /** A record after an update: text fields and the deleted flag from the
      request, the status only when the request carries one; id, owner,
      creation time, date and fine stay. */
  function ApplyUpdate(x: ReportedUser, dto: ReportedUserUpdateDto, now: Time): (r: ReportedUser)
    ensures r.id == x.id && r.createdBy == x.createdBy && r.createdAt == x.createdAt
    ensures r.date == x.date && r.fine == x.fine
    ensures r.name == dto.name && r.idNumber == dto.idNumber
    ensures r.location == dto.location && r.description == dto.description
    ensures r.deleted == dto.deleted && r.updatedAt == now
    ensures r.status == (if dto.status.Some? then dto.status.value else x.status)
  {
    x.(name := dto.name, idNumber := dto.idNumber, location := dto.location,
       description := dto.description, deleted := dto.deleted, updatedAt := now,
       status := dto.status.GetOr(x.status))
  }

  // ---------------------------------------------------------------------------
  // The service
  // ---------------------------------------------------------------------------

  class ReportedUserService {
    const db: Database

    constructor (db: Database)
      ensures this.db == db
    {
      this.db := db;
    }

    /** Sets the status (and the update time) of the record with id `id`. */
    method UpdateReportedUserStatusAsAdmin(caller: Option<string>, id: string, status: Status, now: Time)
      returns (r: Result<bool, Error>)
      requires db.Valid()
      modifies db
      ensures db.Valid() && db.users == old(db.users)
      ensures match AuthorizeStatusChange(old(db.users), old(db.reportedUsers), caller, id)
        case Err(e) => r == Err(e) && db.reportedUsers == old(db.reportedUsers)
        case Ok(i) =>
          && r == Ok(true)
          && db.reportedUsers == old(db.reportedUsers)[i := old(db.reportedUsers)[i].(status := status, updatedAt := now)]
    {
      var user := UserById(db.users, caller);
      if user.None? || !user.value.isAdmin {
        return Err(Unauthorized(AdminOnly));
      }
      var filter := (x: ReportedUser) => x.id == id;
      var target := FirstIndex(db.reportedUsers, filter);
      if target.Some? {
        var i := target.value;
        db.reportedUsers := db.reportedUsers[i := db.reportedUsers[i].(status := status, updatedAt := now)];
        assert filter(db.reportedUsers[i]);
      }
      // the record is read back after the update
      var updated := First(db.reportedUsers, filter);
      if updated.None? {
        return Err(Failure(ReportedUserNotFound));
      }
      return Ok(true);
    }

    /** Inserts a new Draft record owned by the caller under the fresh id `newId`. */
    method CreateReportedUser(caller: Option<string>, dto: ReportedUserCreateDto, newId: string, now: Time)
      returns (r: Result<ReportedUser, Error>)
      requires db.Valid() && FreshReportedId(db.reportedUsers, newId)
      modifies db
      ensures db.Valid() && db.users == old(db.users)
      ensures !Authenticated(caller) ==>
        r == Err(Unauthorized(NotAuthenticated)) && db.reportedUsers == old(db.reportedUsers)
      ensures Authenticated(caller) ==>
        && r == Ok(NewReportedUser(dto, caller.value, newId, now))
        && db.reportedUsers == old(db.reportedUsers) + [r.value]
    {
      if !Authenticated(caller) {
        return Err(Unauthorized(NotAuthenticated));
      }
      var reportedUser := NewReportedUser(dto, caller.value, newId, now);
      db.reportedUsers := db.reportedUsers + [reportedUser];
      r := Ok(reportedUser);
    }

    /** Overwrites the editable fields of a record the caller may edit. */
    method UpdateReportedUser(caller: Option<string>, id: string, dto: ReportedUserUpdateDto, now: Time)
      returns (r: Result<ReportedUser, Error>)
      requires db.Valid()
      modifies db
      ensures db.Valid() && db.users == old(db.users)
      ensures match AuthorizeUpdate(old(db.users), old(db.reportedUsers), caller, id, dto.status.Some?)
        case Err(e) => r == Err(e) && db.reportedUsers == old(db.reportedUsers)
        case Ok(i) =>
          && r == Ok(ApplyUpdate(old(db.reportedUsers)[i], dto, now))
          && db.reportedUsers == old(db.reportedUsers)[i := r.value]
    {
      if !Authenticated(caller) {
        return Err(Unauthorized(NotAuthenticated));
      }
      var isAdmin := CallerIsAdmin(db.users, caller);
      var filter := UpdateFilter(isAdmin, caller, id);
      var existing := FirstIndex(db.reportedUsers, filter);
      if existing.None? {
        return Err(Failure(NotFoundOrNoPermission));
      }
      if dto.status.Some? && !isAdmin {
        return Err(Unauthorized(AdminOnly));
      }
      var i := existing.value;
      var updated := ApplyUpdate(db.reportedUsers[i], dto, now);
      db.reportedUsers := db.reportedUsers[i := updated];
      r := Ok(updated);
    }

    /** Soft-deletes a record the caller created: sets only its deleted flag. */
    method DeleteReportedUser(caller: Option<string>, id: string) returns (r: Result<(), Error>)
      requires db.Valid()
      modifies db
      ensures db.Valid() && db.users == old(db.users)
      ensures match AuthorizeDelete(old(db.reportedUsers), caller, id)
        case Err(e) => r == Err(e) && db.reportedUsers == old(db.reportedUsers)
        case Ok(i) =>
          && r == Ok(())
          && db.reportedUsers == old(db.reportedUsers)[i := old(db.reportedUsers)[i].(deleted := true)]
    {
      if !Authenticated(caller) {
        return Err(Unauthorized(NotAuthenticated));
      }
      var matched := FirstIndex(db.reportedUsers, DeleteFilter(caller, id));
      if matched.None? {
        return Err(Failure(NotFoundOrNoPermission));
      }
      var i := matched.value;
      db.reportedUsers := db.reportedUsers[i := db.reportedUsers[i].(deleted := true)];
      r := Ok(());
    }
  }
}

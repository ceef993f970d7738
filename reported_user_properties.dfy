/** Properties that relate several operations of the reported-user service:
    what a write does to what the reads return afterwards. Each state is given
    by the collection contents the service methods' postconditions name. */
module ReportedUserProperties {
  import opened Wrappers
  import opened Models
  import opened Queries
  import opened Store
  import opened ReportedUsers

  /** Create, then read back by id as the same caller: the stored record, in
      Draft, owned by the caller, with the request's fields. */
  lemma CreateThenGetById(t: seq<ReportedUser>, dto: ReportedUserCreateDto, owner: string, id: string, now: Time)
    requires FreshReportedId(t, id) && owner != ""
    ensures
      var rec := NewReportedUser(dto, owner, id, now);
      GetReportedUserById(t + [rec], Some(owner), id) == Ok(rec)
  {
    var rec := NewReportedUser(dto, owner, id, now);
    var p := (x: ReportedUser) => x.id == id && x.createdBy == Some(owner);
    FirstIndexAppend(t, rec, p);
  }

  /** Create appends the new record to its owner's list and to nobody else's. */
  lemma CreateThenGetAll(t: seq<ReportedUser>, dto: ReportedUserCreateDto, owner: string, id: string, now: Time, caller: Option<string>)
    requires Authenticated(caller)
    ensures
      var rec := NewReportedUser(dto, owner, id, now);
      GetAllReportedUsers(t + [rec], caller) ==
        Ok(GetAllReportedUsers(t, caller).value + (if caller == Some(owner) then [rec] else []))
  {
    var rec := NewReportedUser(dto, owner, id, now);
    var f := OwnListFilter(caller);
    FilterAppend(t, [rec], f);
    assert [rec][1..] == [];
    assert Filter([rec], f) == (if f(rec) then [rec] else []);
  }

  /** A record that an authenticated caller did not create is never returned
      by id to that caller, whether or not the caller is an admin. */
  lemma OnlyOwnerReadsById(t: seq<ReportedUser>, k: nat, caller: Option<string>)
    requires UniqueReportedIds(t) && k < |t|
    requires Authenticated(caller) && t[k].createdBy != caller
    ensures GetReportedUserById(t, caller, t[k].id) == Err(Failure(NotFoundOrNoPermission))
  {
    forall x | x in t
      ensures !(x.id == t[k].id && x.createdBy == caller)
    {
      var j :| 0 <= j < |t| && t[j] == x;
      if x.id == t[k].id {
        assert j == k;
      }
    }
  }

  /** After a soft delete the record is still stored and its owner still reads
      it by id, but it no longer appears in the owner's list. */
  lemma SoftDeleteHidesFromList(t: seq<ReportedUser>, caller: Option<string>, id: string)
    requires UniqueReportedIds(t)
    requires AuthorizeDelete(t, caller, id).Ok?
    ensures
      var i := AuthorizeDelete(t, caller, id).value;
      var t' := t[i := t[i].(deleted := true)];
      && |t'| == |t| && t'[i].id == id && t'[i].deleted
      && GetReportedUserById(t', caller, id) == Ok(t'[i])
      && forall x :: x in GetAllReportedUsers(t', caller).value ==> x.id != id
  {
    var i := AuthorizeDelete(t, caller, id).value;
    var t' := t[i := t[i].(deleted := true)];
    forall x | x in t' && x.id == id
      ensures x == t'[i]
    {
      var j :| 0 <= j < |t'| && t'[j] == x;
      assert t[j].id == id;
    }
  }

  /** Deleting an already deleted record succeeds again on the same record and
      leaves the collection as it was. */
  lemma SoftDeleteIdempotent(t: seq<ReportedUser>, caller: Option<string>, id: string)
    requires AuthorizeDelete(t, caller, id).Ok?
    ensures
      var i := AuthorizeDelete(t, caller, id).value;
      var t' := t[i := t[i].(deleted := true)];
      && AuthorizeDelete(t', caller, id) == Ok(i)
      && t'[i := t'[i].(deleted := true)] == t'
  {
    var i := AuthorizeDelete(t, caller, id).value;
    var t' := t[i := t[i].(deleted := true)];
    FirstIndexPointwise(t, t', DeleteFilter(caller, id));
  }

  /** An update from the owner that leaves `deleted` at its default restores a
      soft-deleted record to the owner's list. */
  lemma UpdateRestoresDeleted(users: seq<User>, t: seq<ReportedUser>, caller: Option<string>, id: string, dto: ReportedUserUpdateDto, now: Time)
    requires AuthorizeUpdate(users, t, caller, id, dto.status.Some?).Ok?
    requires !dto.deleted
    ensures
      var i := AuthorizeUpdate(users, t, caller, id, dto.status.Some?).value;
      var t' := t[i := ApplyUpdate(t[i], dto, now)];
      t[i].createdBy == caller ==> t'[i] in GetAllReportedUsers(t', caller).value
  {
  }

  /** A query text only narrows the search: the hits for a text are the hits
      without text, filtered by the text. */
  lemma SearchTextNarrows(t: seq<ReportedUser>, caller: Option<string>, query: string)
    requires Authenticated(caller) && IsLiteralPattern(query)
    ensures
      SearchReportedUsers(t, caller, Some(query)).value ==
        Filter(SearchReportedUsers(t, caller, None).value, (x: ReportedUser) => IsSearchHit(x, Some(query)))
    ensures SearchReportedUsers(t, caller, Some("")) == SearchReportedUsers(t, caller, None)
  {
    FilterNarrows(t, (x: ReportedUser) => IsSearchHit(x, Some(query)), (x: ReportedUser) => IsSearchHit(x, None));
    FilterPointwise(t, (x: ReportedUser) => IsSearchHit(x, Some("")), (x: ReportedUser) => IsSearchHit(x, None));
  }

  /** No record is at the same time a draft for the admins and a search hit. */
  lemma DraftsAreNeverSearchHits(users: seq<User>, t: seq<ReportedUser>, caller: Option<string>, query: Option<string>)
    requires query.Some? ==> IsLiteralPattern(query.value)
    ensures
      var drafts := GetDraftReportedUsersForAdmin(users, t, caller);
      var hits := SearchReportedUsers(t, caller, query);
      drafts.Ok? && hits.Ok? ==> forall x :: x in drafts.value ==> x !in hits.value
  {
  }

  /** An admin's activation of a live draft moves it from the drafts list to
      the search results of every authenticated caller. */
  lemma ActivationPublishes(users: seq<User>, t: seq<ReportedUser>, admin: Option<string>, id: string, now: Time, caller: Option<string>)
    requires AuthorizeStatusChange(users, t, admin, id).Ok?
    requires Authenticated(caller)
    ensures
      var i := AuthorizeStatusChange(users, t, admin, id).value;
      var t' := t[i := t[i].(status := Active, updatedAt := now)];
      && (!t[i].deleted ==> t'[i] in SearchReportedUsers(t', caller, None).value)
      && t'[i] !in GetDraftReportedUsersForAdmin(users, t', admin).value
  {
  }
}

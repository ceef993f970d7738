/** The two collections of the document database (Data/MongoDbContext.cs),
    kept in memory in natural order. */
module Store {
  import opened Wrappers
  import opened Models
  import opened Queries

  /** The document key `_id` is unique within a collection whose key is `key`. */
  ghost predicate UniqueKeys<T>(s: seq<T>, key: T -> string) {
    forall i, j :: 0 <= i < |s| && 0 <= j < |s| && key(s[i]) == key(s[j]) ==> i == j
  }

  function UserKey(u: User): string { u.id }

  function ReportedKey(r: ReportedUser): string { r.id }

  ghost predicate UniqueUserIds(users: seq<User>) {
    UniqueKeys(users, UserKey)
  }

  ghost predicate UniqueReportedIds(t: seq<ReportedUser>) {
    UniqueKeys(t, ReportedKey)
  }

  /** No document of `t` has key `id`: the id a new insert may take. */
  predicate FreshReportedId(t: seq<ReportedUser>, id: string) {
    forall x :: x in t ==> x.id != id
  }

  predicate FreshUserId(users: seq<User>, id: string) {
    forall u :: u in users ==> u.id != id
  }

  /** `Users.Find(u => u.Id == currentUserId).FirstOrDefault()`; a null id
      matches no stored user. */
  function UserById(users: seq<User>, caller: Option<string>): (r: Option<User>)
    ensures r.Some? ==> r.value in users && caller == Some(r.value.id)
    ensures r.None? <==> forall u :: u in users ==> caller != Some(u.id)
    ensures r.Some? ==> exists i :: IsFirstMatch(users, (u: User) => caller == Some(u.id), i) && users[i] == r.value
  {
    if caller.None? then None else First(users, (u: User) => u.id == caller.value)
  }

  /** The admin check of the admin-only operations: the caller has a user
      document and its IsAdmin flag is set. */
  predicate CallerIsAdmin(users: seq<User>, caller: Option<string>)
    ensures CallerIsAdmin(users, caller) ==> exists u :: u in users && caller == Some(u.id) && u.isAdmin
    ensures (exists i :: IsFirstMatch(users, (u: User) => caller == Some(u.id), i) && users[i].isAdmin) ==>
      CallerIsAdmin(users, caller)
  {
    var u := UserById(users, caller);
    u.Some? && u.value.isAdmin
  }

  /** With unique keys, the caller is an admin exactly when some stored user
      with the caller's id is one. */
  lemma CallerIsAdminIff(users: seq<User>, caller: Option<string>)
    requires UniqueUserIds(users)
    ensures CallerIsAdmin(users, caller) <==>
      exists i :: 0 <= i < |users| && caller == Some(users[i].id) && users[i].isAdmin
  {
    var u := UserById(users, caller);
    if u.Some? {
      var k :| 0 <= k < |users| && users[k] == u.value;
      if exists i :: 0 <= i < |users| && caller == Some(users[i].id) && users[i].isAdmin {
        var i :| 0 <= i < |users| && caller == Some(users[i].id) && users[i].isAdmin;
        assert i == k;
      }
    }
  }

  /** The database context shared by all services. */
  class Database {
    var users: seq<User>
    var reportedUsers: seq<ReportedUser>

    ghost predicate Valid()
      reads this
    {
      UniqueUserIds(users) && UniqueReportedIds(reportedUsers)
    }

    constructor (users: seq<User>, reportedUsers: seq<ReportedUser>)
      requires UniqueUserIds(users) && UniqueReportedIds(reportedUsers)
      ensures Valid()
      ensures this.users == users && this.reportedUsers == reportedUsers
    {
      this.users := users;
      this.reportedUsers := reportedUsers;
    }
  }
}

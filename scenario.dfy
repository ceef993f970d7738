/** Clients of the services. Everything asserted here follows from the
    services' contracts. */
module Scenario {
  import opened Wrappers
  import opened Models
  import opened Store
  import opened UserContext
  import opened Auth
  import opened ReportedUsers

  /** The request context of a caller presenting `token`. */
  function Bearer(token: Token): Option<HttpContext> {
    Some(HttpContext(Some(ClaimsPrincipal(Some(Identity(true)), token.claims))))
  }

  /** Two registrations, only the second with the admin secret; each user logs
      in and the token resolves to their own id. */
  method RegisterAndLogIn() {
    var db := new Database([], []);
    var auth := new AuthService(db);

    var a := UserRegisterDto("A", "a@x.com", Some("p"), None, None, Some("wrong"));
    var ra := auth.Register(a, "ua", "salt-a", 0);
    assert ra.Ok? && !ra.value.isAdmin && !db.users[0].isAdmin;

    var b := UserRegisterDto("B", "b@x.com", Some("p"), None, None, Some(AdminSecret));
    var rb := auth.Register(b, "ub", "salt-b", 1);
    assert rb.Ok? && !rb.value.isAdmin && db.users[1].isAdmin;

    var again := auth.Register(b, "uc", "salt-c", 2);
    assert again == Err(Failure(EmailExists)) && |db.users| == 2;

    LoginSucceedsIffPasswordVerifies(db.users, 1, UserLoginDto("b@x.com", "p"), "j", 3);
    var t := Login(db.users, UserLoginDto("b@x.com", "p"), "j", 3);
    assert t.Ok?;
    TokenIdentifiesUser(db.users[1], "j", 3);
    assert GetCurrentUserId(Bearer(t.value)) == Some("ub");
  }

  /** A record created by a non-admin is a draft; its owner cannot activate
      it, an admin can. */
  method ActivationNeedsAdmin() {
    var userA := User("ua", "A", "a@x.com", HashPassword("p", "s"), None, None, false, 0, 0);
    var userB := User("ub", "B", "b@x.com", HashPassword("p", "s"), None, None, true, 0, 0);
    var db := new Database([userA, userB], []);
    var records := new ReportedUserService(db);

    var created := records.CreateReportedUser(Some("ua"), ReportedUserCreateDto(Some("Smith"), Some("123"), 50, None, None), "r1", 3);
    assert created.Ok? && created.value.status == Draft && db.reportedUsers == [created.value];

    assert !CallerIsAdmin(db.users, Some("ua"));
    var refused := records.UpdateReportedUserStatusAsAdmin(Some("ua"), "r1", Active, 4);
    assert refused == Err(Unauthorized(AdminOnly));
    assert db.reportedUsers[0].status == Draft;

    assert CallerIsAdmin(db.users, Some("ub"));
    var granted := records.UpdateReportedUserStatusAsAdmin(Some("ub"), "r1", Active, 5);
    assert granted == Ok(true);
    assert db.reportedUsers[0].status == Active;
  }
}

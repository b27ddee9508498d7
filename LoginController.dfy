/** loginController.js: `adminRegister` inserts an `admin` through the
    users table after a weaker check than `register`; its `login` is the
    handler of userController.js, `UserStore.Login`, except that it checks
    passwords with the `bcrypt` package where userController.js uses
    `bcryptjs`; one `compare` parameter stands for both, as both read the
    same hash format. */
module LoginController {
  import opened Common
  import opened Records
  import opened Database
  import opened UserStore

  /** adminRegister: 400 only when the username is missing or
      empty; an absent e-mail fails the look-up (500); a taken e-mail is
      400; otherwise the insert as an `admin`, with whatever password was
      sent (an absent one fails the insert). */
  method AdminRegister(db: Db, body: Fields, hash: string -> string, isEmail: string -> bool)
    returns (status: int, view: Option<UserView>)
    requires db.Valid()
    modifies db`users, db`nextUserId
    ensures db.Valid()
    ensures status == BAD_REQUEST <==>
              !Truthy(body, "username") || ("email" in body && EmailTaken(old(db.users), body["email"], db.collate))
    ensures status == CREATED <==>
              && Truthy(body, "username") && "email" in body && "password" in body
              && !EmailTaken(old(db.users), body["email"], db.collate) && !UsernameTaken(old(db.users), body["username"], db.collate)
              && isEmail(body["email"])
    ensures status == CREATED || status == BAD_REQUEST || status == SERVER_ERROR
    ensures status == CREATED ==>
              && old(db.nextUserId) !in old(db.users)
              && db.users == old(db.users)[old(db.nextUserId) :=
                   User(body["username"], body["email"], StoredPassword(body["password"], hash), "admin")]
              && view == Some(UserView(None, Some(body["username"]), body["email"], Some("admin")))
    ensures status != CREATED ==> db.users == old(db.users) && view.None?
  {
    view := None;
    if !Truthy(body, "username") {
      return BAD_REQUEST, view;
    }
    if "email" !in body {
      return SERVER_ERROR, view;
    }
    var existing := FindByEmail(db, body["email"]);
    if existing.Some? {
      return BAD_REQUEST, view;
    }
    var created;
    assert "admin" in RoleEnum;
    status, created := InsertUser(db, Some(body["username"]), Some(body["email"]), Get(body, "password"),
                                  "admin", hash, isEmail);
    if status == CREATED {
      var user := db.users[created.value];
      view := Some(UserView(None, Some(user.username), user.email, Some(user.role)));
    }
  }
}

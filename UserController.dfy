/** userController.js: `register` looks the e-mail up and then inserts a
    `customer` through the users table; its `login` is `UserStore.Login`. */
module UserController {
  import opened Common
  import opened Records
  import opened Database
  import opened UserStore

  /** register: 400 unless username, e-mail and password are
      all truthy, 400 when the e-mail is taken, otherwise the insert as a
      `customer` (201) or its failure (500). */
  method Register(db: Db, body: Fields, hash: string -> string, isEmail: string -> bool)
    returns (status: int, view: Option<UserView>)
    requires db.Valid()
    modifies db`users, db`nextUserId
    ensures db.Valid()
    ensures status == BAD_REQUEST <==>
              || !Truthy(body, "username") || !Truthy(body, "email") || !Truthy(body, "password")
              || EmailTaken(old(db.users), body["email"], db.collate)
    ensures status == CREATED <==>
              && Truthy(body, "username") && Truthy(body, "email") && Truthy(body, "password")
              && !EmailTaken(old(db.users), body["email"], db.collate) && !UsernameTaken(old(db.users), body["username"], db.collate)
              && isEmail(body["email"])
    ensures status == CREATED || status == BAD_REQUEST || status == SERVER_ERROR
    ensures status == CREATED ==>
              && old(db.nextUserId) !in old(db.users)
              && db.users == old(db.users)[old(db.nextUserId) :=
                   User(body["username"], body["email"], hash(body["password"]), "customer")]
              && view == Some(UserView(None, Some(body["username"]), body["email"], None))
    ensures status != CREATED ==> db.users == old(db.users) && view.None?
  {
    view := None;
    if !Truthy(body, "username") || !Truthy(body, "email") || !Truthy(body, "password") {
      return BAD_REQUEST, view;
    }
    var existing := FindByEmail(db, body["email"]);
    if existing.Some? {
      return BAD_REQUEST, view;
    }
    var created;
    assert "customer" in RoleEnum;
    status, created := InsertUser(db, Some(body["username"]), Some(body["email"]), Some(body["password"]),
                                  "customer", hash, isEmail);
    if status == CREATED {
      var user := db.users[created.value];
      view := Some(UserView(None, Some(user.username), user.email, None));
    }
  }

  /** A user who registered logs in with the same e-mail and password, when
      `compare` accepts every password against its own hash. */
  method RegisterThenLogin(db: Db, body: Fields, hash: string -> string, isEmail: string -> bool,
                           compare: (string, string) -> bool, sign: (Claims, int) -> string)
    returns (registered: int, loggedIn: int)
    requires db.Valid()
    requires forall p :: compare(p, hash(p))
    modifies db`users, db`nextUserId
    ensures registered == CREATED ==> loggedIn == OK
  {
    var view;
    registered, view := Register(db, body, hash, isEmail);
    ghost var id := old(db.nextUserId);
    if registered == CREATED {
      assert id in db.users && db.users[id].email == body["email"];
      assert compare(body["password"], db.users[id].password);
    }
    var token, claims;
    loggedIn, token, claims := Login(db, body, compare, sign);
  }
}

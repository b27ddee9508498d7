/** The `users` table as user.model.js defines it, with what both
    registration handlers and both login handlers do with it: look a user
    up by e-mail, insert a row through the model's checks and its
    `beforeCreate` hook, and sign a token for a user who logged in. bcrypt
    and jsonwebtoken are parameters: `hash`, `compare` and `sign`. */
module UserStore {
  import opened Common
  import opened Records
  import opened Database

  /** The claims a token carries; `id` is `None` when the payload's `id`
      was undefined and JSON dropped it. */
  datatype Claims = Claims(id: Option<int>, email: string)

  /** `expiresIn: '1d'`, in seconds. */
  const OneDay: int := 86400

  /** The user object a handler answers with: never the password. */
  datatype UserView = UserView(id: Option<int>, username: Option<string>, email: string, role: Option<string>)

  /** A stored user's e-mail equals `email` under the collation. */
  predicate EmailTaken(users: map<int, User>, email: string, collate: string -> string)
  {
    exists k :: k in users && collate(users[k].email) == collate(email)
  }

  predicate UsernameTaken(users: map<int, User>, username: string, collate: string -> string)
  {
    exists k :: k in users && collate(users[k].username) == collate(username)
  }

  /** `User.findOne({ where: { email } })`: the one user whose e-mail the
      collation equates with `email`, when there is one. */
  method FindByEmail(db: Db, email: string) returns (found: Option<int>)
    requires db.Valid()
    ensures found.Some? <==> EmailTaken(db.users, email, db.collate)
    ensures found.Some? ==> found.value in db.users && db.collate(db.users[found.value].email) == db.collate(email)
    ensures found.Some? ==> forall k :: k in db.users && db.collate(db.users[k].email) == db.collate(email) ==> k == found.value
  {
    if EmailTaken(db.users, email, db.collate) {
      var k :| k in db.users && db.collate(db.users[k].email) == db.collate(email);
      found := Some(k);
    } else {
      found := None;
    }
  }

  /** The `beforeCreate` hook: a truthy password is replaced by its hash, an
      empty one is stored as it is. */
  function StoredPassword(password: string, hash: string -> string): (r: string)
    ensures password != "" ==> r == hash(password)
    ensures password == "" ==> r == ""
  {
    if password != "" then hash(password) else password
  }

  /** `User.create` succeeds: the NOT NULL columns are given, the e-mail
      passes its check, the role is one of the enum values, and neither
      the username nor the e-mail is stored already. */
  predicate Insertable(users: map<int, User>, username: Option<string>, email: Option<string>,
                       password: Option<string>, role: string, isEmail: string -> bool, collate: string -> string)
  {
    && username.Some? && email.Some? && password.Some?
    && isEmail(email.value) && role in RoleEnum
    && !UsernameTaken(users, username.value, collate) && !EmailTaken(users, email.value, collate)
  }

  /** A user whose username and e-mail are both new keeps both unique. */
  lemma InsertKeepsUsersUnique(users: map<int, User>, id: int, u: User, collate: string -> string)
    requires UniqueUserEmails(users, collate) && UniqueUsernames(users, collate) && id !in users
    requires !UsernameTaken(users, u.username, collate) && !EmailTaken(users, u.email, collate)
    ensures UniqueUserEmails(users[id := u], collate) && UniqueUsernames(users[id := u], collate)
  {
  }

  /** `User.create({ ... })`: the row at the next key, or 500. */
  method InsertUser(db: Db, username: Option<string>, email: Option<string>, password: Option<string>,
                    role: string, hash: string -> string, isEmail: string -> bool)
    returns (status: int, created: Option<int>)
    requires db.Valid()
    modifies db`users, db`nextUserId
    ensures db.Valid()
    ensures status == CREATED <==> Insertable(old(db.users), username, email, password, role, isEmail, db.collate)
    ensures status == CREATED || status == SERVER_ERROR
    ensures status == CREATED ==>
              && created == Some(old(db.nextUserId)) && old(db.nextUserId) !in old(db.users)
              && db.users == old(db.users)[old(db.nextUserId) :=
                   User(username.value, email.value, StoredPassword(password.value, hash), role)]
    ensures status != CREATED ==> db.users == old(db.users) && db.nextUserId == old(db.nextUserId) && created.None?
  {
    if !Insertable(db.users, username, email, password, role, isEmail, db.collate) {
      return SERVER_ERROR, None;
    }
    var u := User(username.value, email.value, StoredPassword(password.value, hash), role);
    var id := db.nextUserId;
    InsertKeepsUsersUnique(db.users, id, u, db.collate);
    KeysBelowAfterInsert(db.users, id, u);
    db.users := db.users[id := u];
    db.nextUserId := id + 1;
    return CREATED, Some(id);
  }

  /** The payload `{ id: user.id, email: user.email }` as written: the key
      column is `userId`, so `user.id` is undefined and only the e-mail is
      signed. */
  function Payload(key: int, u: User): (c: Claims)
    ensures c.id.None? && c.email == u.email
  {
    Claims(None, u.email)
  }

  /** The payload with the user's key, as evidently intended. */
  function PayloadCorrected(key: int, u: User): (c: Claims)
    ensures c.id == Some(key) && c.email == u.email
  {
    Claims(Some(key), u.email)
  }

  /** With the key in the payload, the claims name exactly the user who
      logged in; as written they name no user by key at all. */
  lemma CorrectedPayloadNamesUser(users: map<int, User>, key: int, collate: string -> string)
    requires UniqueUserEmails(users, collate) && key in users
    ensures var c := PayloadCorrected(key, users[key]);
            && c.id.Some? && c.id.value in users && users[c.id.value].email == c.email
            && forall k :: k in users && collate(users[k].email) == collate(c.email) ==> Some(k) == c.id
    ensures Payload(key, users[key]).id.None?
  {
  }

  /** login, in both controllers: 500 when the body has no
      e-mail (an undefined WHERE value) or no password (bcrypt rejects it),
      404 for an unknown e-mail, 401 when the password does not match,
      otherwise a token signed over the payload for one day. The user is
      found under the collation, so the token and the answer carry the
      e-mail as stored, which may differ from the one sent. */
  method Login(db: Db, body: Fields, compare: (string, string) -> bool, sign: (Claims, int) -> string)
    returns (status: int, token: Option<string>, view: Option<UserView>)
    requires db.Valid()
    ensures status == SERVER_ERROR <==>
              "email" !in body || (EmailTaken(db.users, body["email"], db.collate) && "password" !in body)
    ensures status == NOT_FOUND <==> "email" in body && !EmailTaken(db.users, body["email"], db.collate)
    ensures status == UNAUTHORIZED <==>
              && "email" in body && "password" in body
              && exists k :: k in db.users && db.collate(db.users[k].email) == db.collate(body["email"])
                             && !compare(body["password"], db.users[k].password)
    ensures status == OK <==>
              && "email" in body && "password" in body
              && exists k :: k in db.users && db.collate(db.users[k].email) == db.collate(body["email"])
                             && compare(body["password"], db.users[k].password)
    ensures status == OK ==>
              exists k :: && k in db.users && db.collate(db.users[k].email) == db.collate(body["email"])
                          && token == Some(sign(Claims(None, db.users[k].email), OneDay))
                          && view == Some(UserView(None, None, db.users[k].email, None))
    ensures status != OK ==> token.None? && view.None?
  {
    token, view := None, None;
    if "email" !in body {
      return SERVER_ERROR, token, view;
    }
    var found := FindByEmail(db, body["email"]);
    if found.None? {
      return NOT_FOUND, token, view;
    }
    var key := found.value;
    var user := db.users[key];
    if "password" !in body {
      return SERVER_ERROR, token, view;
    }
    if !compare(body["password"], user.password) {
      return UNAUTHORIZED, token, view;
    }
    var claims := Payload(key, user);
    token := Some(sign(claims, OneDay));
    view := Some(UserView(claims.id, None, user.email, None));
    status := OK;
  }
}

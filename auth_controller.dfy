/** The decisions of `register`, `login` and `getMe` over the users table. Password hashing and
    checking are parameters; a token is its payload (signing and expiry are not modelled). */
module AuthController {
  import opened Common
  import opened Tables

  /** The claims `jwt.sign` is given. */
  datatype Token = Token(id: int, email: string, role: Role)

  /** The `user` object of a reply: the row without its password hash. */
  datatype PublicUser = PublicUser(id: int, name: string, email: string, role: Role)

  datatype Session = Session(token: Token, user: PublicUser)

  /** The columns `getMe` selects: the account without its hash, with its creation time. */
  datatype Profile = Profile(id: int, name: string, email: string, role: Role, createdAt: string)

  function Public(u: UserRow): PublicUser {
    PublicUser(u.id, u.name, u.email, u.role)
  }

  /** `users[0]` of `SELECT * FROM users WHERE email = ?`. */
  function FindByEmail(users: seq<UserRow>, email: string): (r: Option<UserRow>)
    ensures r.Some? ==> r.value in users && r.value.email == email
    ensures r.None? <==> forall i :: 0 <= i < |users| ==> users[i].email != email
  {
    if users == [] then None
    else if users[0].email == email then Some(users[0])
    else FindByEmail(users[1..], email)
  }

  /** `users[0]` of `SELECT ... FROM users WHERE id = ?`. */
  function FindById(users: seq<UserRow>, id: int): (r: Option<UserRow>)
    ensures r.Some? ==> r.value in users && r.value.id == id
    ensures r.None? <==> forall i :: 0 <= i < |users| ==> users[i].id != id
  {
    if users == [] then None
    else if users[0].id == id then Some(users[0])
    else FindById(users[1..], id)
  }

  predicate EmailsUnique(users: seq<UserRow>) {
    forall i, j :: 0 <= i < j < |users| ==> users[i].email != users[j].email
  }

  /** `register`: every field is required, an address may be registered once, and a new account
      always gets role user. */
  method Register(db: Database, name: Option<string>, email: Option<string>, password: Option<string>,
                  hash: string -> string, now: string)
    returns (res: Response<Session>)
    requires db.Valid()
    modifies db
    ensures db.Valid()
    ensures db.releases == old(db.releases) && db.tracks == old(db.tracks) && db.revenues == old(db.revenues)
    ensures !Truthy(name) || !Truthy(email) || !Truthy(password) ==>
      res == Fail(400, "All fields are required") && db.users == old(db.users)
    ensures Truthy(name) && Truthy(email) && Truthy(password) && FindByEmail(old(db.users), email.value).Some? ==>
      res == Fail(409, "Email already exists") && db.users == old(db.users)
    ensures res.Ok? <==>
      Truthy(name) && Truthy(email) && Truthy(password) && FindByEmail(old(db.users), email.value).None?
    ensures res.Ok? ==> (
      var row := UserRow(old(db.nextUserId), name.value, email.value, hash(password.value), User, now);
      db.users == old(db.users) + [row] &&
      res == Ok(201, Session(Token(row.id, row.email, User), Public(row))))
    ensures EmailsUnique(old(db.users)) ==> EmailsUnique(db.users)
  {
    if !Truthy(name) || !Truthy(email) || !Truthy(password) {
      return Fail(400, "All fields are required");
    }
    var existing := FindByEmail(db.users, email.value);
    if existing.Some? {
      return Fail(409, "Email already exists");
    }
    var hashed := hash(password.value);
    var userId := db.nextUserId;
    var row := UserRow(userId, name.value, email.value, hashed, User, now);
    db.users := db.users + [row];
    db.nextUserId := userId + 1;
    res := Ok(201, Session(Token(userId, email.value, User), Public(row)));
  }

  /** `login`: both fields are required; an unknown address and a wrong password give the same
      answer; otherwise the token carries the stored id, email and role. */
  function Login(users: seq<UserRow>, email: Option<string>, password: Option<string>,
                 verify: (string, string) -> bool): (res: Response<Session>)
    ensures !Truthy(email) || !Truthy(password) ==> res == Fail(400, "Email and password are required")
    ensures Truthy(email) && Truthy(password) ==>
      (res.Fail? <==> FindByEmail(users, email.value).None? ||
                      !verify(password.value, FindByEmail(users, email.value).value.passwordHash))
    ensures Truthy(email) && Truthy(password) && res.Fail? ==> res == Fail(401, "Invalid credentials")
    ensures res.Ok? ==> (
      var u := FindByEmail(users, email.value).value;
      res == Ok(200, Session(Token(u.id, u.email, u.role), Public(u))))
  {
    if !Truthy(email) || !Truthy(password) then Fail(400, "Email and password are required")
    else
      match FindByEmail(users, email.value)
      case None => Fail(401, "Invalid credentials")
      case Some(u) =>
        if !verify(password.value, u.passwordHash) then Fail(401, "Invalid credentials")
        else Ok(200, Session(Token(u.id, u.email, u.role), Public(u)))
  }

  /** An unknown address and a known address with a wrong password are indistinguishable. */
  lemma LoginFailuresAlike(users: seq<UserRow>, unknown: string, known: string, password: string,
                           verify: (string, string) -> bool)
    requires unknown != "" && known != "" && password != ""
    requires FindByEmail(users, unknown).None?
    requires FindByEmail(users, known).Some? && !verify(password, FindByEmail(users, known).value.passwordHash)
    ensures Login(users, Some(unknown), Some(password), verify) == Login(users, Some(known), Some(password), verify)
  {
  }

  /** `getMe`: 401 without an authenticated caller, 404 when the caller's id has no row;
      otherwise that row's id, name, email, role and creation time. */
  function GetMe(users: seq<UserRow>, caller: Option<AuthUser>): (res: Response<Profile>)
    ensures caller.None? ==> res == Fail(401, "Not authenticated")
    ensures caller.Some? && FindById(users, caller.value.id).None? ==> res == Fail(404, "User not found")
    ensures res.Ok? <==> caller.Some? && FindById(users, caller.value.id).Some?
    ensures res.Ok? ==> res.code == 200 && res.body.id == caller.value.id
    ensures res.Ok? ==> var u := FindById(users, caller.value.id).value;
      res.body == Profile(u.id, u.name, u.email, u.role, u.createdAt)
  {
    match caller
    case None => Fail(401, "Not authenticated")
    case Some(c) =>
      match FindById(users, c.id)
      case None => Fail(404, "User not found")
      case Some(u) => Ok(200, Profile(u.id, u.name, u.email, u.role, u.createdAt))
  }

  lemma {:induction false} FindByEmailAppend(users: seq<UserRow>, row: UserRow, email: string)
    ensures FindByEmail(users + [row], email) ==
      if FindByEmail(users, email).Some? then FindByEmail(users, email)
      else if row.email == email then Some(row) else None
  {
    if users == [] {
      assert [row][1..] == [];
    } else {
      assert (users + [row])[1..] == users[1..] + [row];
      FindByEmailAppend(users[1..], row, email);
    }
  }

  lemma {:induction false} FindByIdAppend(users: seq<UserRow>, row: UserRow, id: int)
    ensures FindById(users + [row], id) ==
      if FindById(users, id).Some? then FindById(users, id)
      else if row.id == id then Some(row) else None
  {
    if users == [] {
      assert [row][1..] == [];
    } else {
      assert (users + [row])[1..] == users[1..] + [row];
      FindByIdAppend(users[1..], row, id);
    }
  }

  /** Once registered, the address and password log in as the new account, with role user,
      provided the password check accepts the stored hash of the password. */
  lemma LoginAfterRegister(users: seq<UserRow>, id: int, name: string, email: string, password: string,
                           hash: string -> string, verify: (string, string) -> bool, now: string)
    requires email != "" && password != ""
    requires FindByEmail(users, email).None?
    requires verify(password, hash(password))
    ensures var row := UserRow(id, name, email, hash(password), User, now);
      Login(users + [row], Some(email), Some(password), verify) ==
        Ok(200, Session(Token(id, email, User), PublicUser(id, name, email, User)))
  {
    FindByEmailAppend(users, UserRow(id, name, email, hash(password), User, now), email);
  }

  /** A newly registered id is found by `getMe` when no earlier row uses it, which the id
      counter guarantees. */
  lemma GetMeAfterRegister(users: seq<UserRow>, row: UserRow, caller: AuthUser)
    requires caller.id == row.id
    requires forall i :: 0 <= i < |users| ==> users[i].id < row.id
    ensures GetMe(users + [row], Some(caller)) == Ok(200, Profile(row.id, row.name, row.email, row.role, row.createdAt))
  {
    FindByIdAppend(users, row, row.id);
  }
}

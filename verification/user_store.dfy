/** The auth routes: register a user under a new email, and the login
    decision chain. The User collection is the store's state. Password
    hashing and comparison (bcrypt) and token signing (jwt) are the
    parameters `hash`, `compare` and `sign`. */
module Users {
  import opened Common
  import opened Records
  import opened AuthGate
  import opened Collections

  /** A stored user: `_id`, `email`, and the bcrypt hash in `password`. */
  datatype User = User(id: UserId, email: string, passwordHash: string)

  /** `{ msg, token, email }`: the reply to a successful login. */
  datatype LoginReply = LoginReply(msg: string, token: string, email: string)

  const EmailTaken: ApiError := Msg("Email already exists")
  const RegisteredMsg: string := "User registered successfully!"
  const InvalidEmail: ApiError := Msg("Invalid email")
  const InvalidPassword: ApiError := Msg("Invalid password")
  const LoginOk: string := "Login successful"
  /** `expiresIn: "7d"`, in seconds. */
  const TokenLifetime: nat := 7 * 24 * 60 * 60

  function IdOf(u: User): UserId { u.id }
  function EmailOf(u: User): string { u.email }

  /** `User.findOne({ email })`: the first user with exactly that email
      (case-sensitive), if any. */
  function FindByEmail(users: seq<User>, email: string): (r: Option<User>)
    ensures r.Some? <==> exists u :: u in users && u.email == email
    ensures r.Some? ==> r.value in users && r.value.email == email
  {
    if users == [] then None
    else if users[0].email == email then Some(users[0])
    else
      var r := FindByEmail(users[1..], email);
      assert forall u :: u in users <==> u == users[0] || u in users[1..];
      r
  }

  /** Ids are distinct and below the next id, and emails are distinct. */
  predicate StoreValid(users: seq<User>, nextId: UserId) {
    (forall i :: 0 <= i < |users| ==> users[i].id < nextId)
    && UniqueBy(users, IdOf)
    && UniqueBy(users, EmailOf)
  }

  /** The register handler as a function of the collection: an email
      already present is refused with 400 and nothing is added; otherwise
      one user is appended, holding `hash(password)` and never the
      password itself. */
  function RegisterUser(users: seq<User>, nextId: UserId, email: string, password: string, hash: string -> string)
    : (out: (Response<string>, seq<User>))
    ensures (exists u :: u in users && u.email == email) ==> out == (ErrorStatus(400, EmailTaken), users)
    ensures out.0.Json? <==> !exists u :: u in users && u.email == email
    ensures out.0.Json? ==> out.0.body == RegisteredMsg && out.1 == users + [User(nextId, email, hash(password))]
  {
    if FindByEmail(users, email).Some? then (ErrorStatus(400, EmailTaken), users)
    else (Json(RegisteredMsg), users + [User(nextId, email, hash(password))])
  }

  /** Registering keeps the store valid: in particular emails stay unique. */
  lemma RegisterKeepsValid(users: seq<User>, nextId: UserId, email: string, password: string, hash: string -> string)
    requires StoreValid(users, nextId)
    ensures var out := RegisterUser(users, nextId, email, password, hash);
            StoreValid(out.1, if out.0.Json? then nextId + 1 else nextId)
  {
    var out := RegisterUser(users, nextId, email, password, hash);
    if out.0.Json? {
      var s := out.1;
      forall i | 0 <= i < |users| ensures users[i].email != email {
        assert users[i] in users;
      }
      forall i, j | 0 <= i < j < |s| ensures IdOf(s[i]) != IdOf(s[j]) && EmailOf(s[i]) != EmailOf(s[j]) {
        if j < |users| {
          assert s[i] == users[i] && s[j] == users[j];
        }
      }
    }
  }

  /** The login decision chain: unknown email, then wrong password, then a
      token signed over the user's id with a 7-day lifetime, returned with
      the stored email. */
  function LoginFor(users: seq<User>, email: string, password: string,
                    compare: (string, string) -> bool, sign: (UserId, nat) -> string): (r: Response<LoginReply>)
    ensures FindByEmail(users, email).None? ==> r == ErrorStatus(400, InvalidEmail)
    ensures (FindByEmail(users, email).Some? && !compare(password, FindByEmail(users, email).value.passwordHash))
            ==> r == ErrorStatus(400, InvalidPassword)
    ensures r.Json? <==> FindByEmail(users, email).Some? && compare(password, FindByEmail(users, email).value.passwordHash)
    ensures r.Json? ==> r.body == LoginReply(LoginOk, sign(FindByEmail(users, email).value.id, TokenLifetime), email)
  {
    match FindByEmail(users, email)
    case None => ErrorStatus(400, InvalidEmail)
    case Some(u) =>
      if !compare(password, u.passwordHash) then ErrorStatus(400, InvalidPassword)
      else Json(LoginReply(LoginOk, sign(u.id, TokenLifetime), u.email))
  }

  /** Register, then log in with the same credentials: when bcrypt accepts
      the password against its own hash and jwt verifies what it signed,
      the login succeeds with a token that the routes' gate accepts as the
      new user. */
  lemma RegisterThenLogin(users: seq<User>, nextId: UserId, email: string, password: string,
                          hash: string -> string, compare: (string, string) -> bool,
                          sign: (UserId, nat) -> string, verify: string -> Option<UserId>)
    requires StoreValid(users, nextId)
    requires !exists u :: u in users && u.email == email
    requires compare(password, hash(password))
    requires sign(nextId, TokenLifetime) != "" && verify(sign(nextId, TokenLifetime)) == Some(nextId)
    ensures var s := RegisterUser(users, nextId, email, password, hash).1;
            LoginFor(s, email, password, compare, sign) == Json(LoginReply(LoginOk, sign(nextId, TokenLifetime), email))
    ensures Authenticate(Some(sign(nextId, TokenLifetime)), verify) == Json(nextId)
  {
    var s := RegisterUser(users, nextId, email, password, hash).1;
    var u := User(nextId, email, hash(password));
    RegisterKeepsValid(users, nextId, email, password, hash);
    var found := FindByEmail(s, email);
    assert u in s;
    assert found == Some(u);
  }

  /** A login with a password the stored hash rejects never yields a token. */
  lemma WrongPasswordGetsNoToken(users: seq<User>, email: string, password: string,
                                 compare: (string, string) -> bool, sign: (UserId, nat) -> string)
    requires forall u :: u in users && u.email == email ==> !compare(password, u.passwordHash)
    ensures !LoginFor(users, email, password, compare, sign).Json?
  {
  }

  /** The User collection behind the two routes. */
  class UserStore {
    var users: seq<User>
    var nextId: UserId

    predicate Valid()
      reads this
    {
      StoreValid(users, nextId)
    }

    constructor()
      ensures Valid() && users == []
    {
      users := [];
      nextId := 0;
    }

    /** `POST /register` */
    method Register(email: string, password: string, hash: string -> string) returns (r: Response<string>)
      requires Valid()
      modifies this
      ensures Valid()
      ensures (r, users) == RegisterUser(old(users), old(nextId), email, password, hash)
      ensures nextId == if r.Json? then old(nextId) + 1 else old(nextId)
    {
      RegisterKeepsValid(users, nextId, email, password, hash);
      var out := RegisterUser(users, nextId, email, password, hash);
      r, users := out.0, out.1;
      if r.Json? {
        nextId := nextId + 1;
      }
    }

    /** `POST /login`: reads the store and never changes it. */
    method Login(email: string, password: string, compare: (string, string) -> bool, sign: (UserId, nat) -> string)
      returns (r: Response<LoginReply>)
      ensures r == LoginFor(users, email, password, compare, sign)
      ensures r.Json? ==> r.body.email == email && r.body.msg == LoginOk
    {
      r := LoginFor(users, email, password, compare, sign);
    }
  }
}

/** Registration and login over the user table, which is keyed by email.
    Password hashing, hash comparison and token signing belong to libraries
    and are parameters: `hash(password, salt)` is the stored hash, `compare`
    checks a password against a stored hash, `sign` makes a token from the
    claims. */
module AuthSvc {
  import opened Base

  datatype User = User(id: string, email: string, password: string, name: string)

  function UserEmail(u: User): string { u.email }

  /** What a token carries. */
  datatype Claims = Claims(userId: string, email: string)

  /** The user as returned to the client: no password. */
  datatype PublicUser = PublicUser(id: string, email: string, name: string)

  datatype Session = Session(user: PublicUser, token: string)

  datatype RegisterDto = RegisterDto(email: string, password: string, name: string)

  datatype Crypto = Crypto(
    hash: (string, string) -> string,
    compare: (string, string) -> bool,
    sign: Claims -> string)

  const UserExists: string := "User already exists"
  const InvalidCredentials: string := "Invalid credentials"

  /** The library's promise that a password matches its own hash, whatever
      the salt. */
  ghost predicate HashMatches(c: Crypto) {
    forall p, salt :: c.compare(p, c.hash(p, salt))
  }

  /** The session a stored user gets: the public fields and a token over the
      user's id and email. */
  function SessionFor(u: User, c: Crypto): (s: Session)
    ensures s.user.id == u.id && s.user.email == u.email && s.user.name == u.name
    ensures s.token == c.sign(Claims(u.id, u.email))
  {
    Session(PublicUser(u.id, u.email, u.name), c.sign(Claims(u.id, u.email)))
  }

  class AuthService {
    var users: map<string, User>
    const crypto: Crypto

    ghost predicate Valid()
      reads this
    {
      forall e :: e in users ==> users[e].email == e
    }

    constructor(crypto: Crypto)
      ensures Valid() && users == map[] && this.crypto == crypto
    {
      users := map[];
      this.crypto := crypto;
    }

    predicate IdTaken(id: string)
      reads this
    {
      exists e :: e in users && users[e].id == id
    }

    /** `register`: an email already in the table is refused and nothing is
        stored; otherwise the user is stored with the hash of the password,
        never the password, and gets a session. */
    method Register(data: RegisterDto, newId: string, salt: string) returns (r: Result<Session>)
      requires Valid()
      modifies this
      ensures Valid()
      ensures data.email in old(users) ==> r == Err(UserExists) && users == old(users)
      ensures data.email !in old(users) && old(IdTaken(newId)) ==> r == Err(UniqueViolation) && users == old(users)
      ensures data.email !in old(users) && !old(IdTaken(newId)) ==>
        var u := User(newId, data.email, crypto.hash(data.password, salt), data.name);
        && users == old(users)[data.email := u]
        && r == Ok(SessionFor(u, crypto))
    {
      if data.email in users {
        return Err(UserExists);
      }
      if IdTaken(newId) {
        return Err(UniqueViolation);
      }
      var u := User(newId, data.email, crypto.hash(data.password, salt), data.name);
      users := users[data.email := u];
      r := Ok(SessionFor(u, crypto));
    }

    /** `login`: an unknown email and a wrong password fail with the same
        message; the right password gives the user's session. */
    function Login(email: string, password: string): (r: Result<Session>)
      reads this
      requires Valid()
      ensures r.Err? ==> r.message == InvalidCredentials
      ensures r.Ok? <==> email in users && crypto.compare(password, users[email].password)
      ensures r.Ok? ==> r.value.user.email == email && r.value.user.id == users[email].id
      ensures r.Ok? ==> r.value.token == crypto.sign(Claims(users[email].id, email))
      ensures r.Ok? ==> r.value == SessionFor(users[email], crypto)
    {
      if email !in users then Err(InvalidCredentials)
      else if !crypto.compare(password, users[email].password) then Err(InvalidCredentials)
      else Ok(SessionFor(users[email], crypto))
    }
  }

  /** A user who just registered can log in with the same password and gets
      the session registration returned, provided the hash library keeps its
      promise. */
  method RegisterThenLogin(svc: AuthService, data: RegisterDto, newId: string, salt: string)
    returns (registered: Result<Session>, loggedIn: Result<Session>)
    requires svc.Valid() && HashMatches(svc.crypto)
    modifies svc
    ensures registered.Ok? ==> loggedIn == registered
    ensures data.email in old(svc.users) ==> registered == Err(UserExists)
  {
    registered := svc.Register(data, newId, salt);
    loggedIn := svc.Login(data.email, data.password);
  }

  /** The stored password is a hash: a stored user can log in with a password
      exactly when that password matches the stored hash, and the two ways of
      failing cannot be told apart from the reply. */
  lemma {:induction false} LoginFailuresAlike(svc: AuthService, email: string, password: string, other: string)
    requires svc.Valid()
    requires email !in svc.users
    requires other in svc.users && !svc.crypto.compare(password, svc.users[other].password)
    ensures svc.Login(email, password) == svc.Login(other, password)
  {
  }
}

/**
 * Registration and login. The user store is keyed by email; password hashing
 * and its check are functions the caller supplies (bcrypt with a random salt
 * in the system), and a signed access token is kept symbolic as the payload
 * it signs.
 */
module AuthService {
  import opened Common

  const USER := "user"
  const ORGANIZER := "organizer"
  const ADMIN := "admin"
  const LOCAL_PROVIDER := "local"
  const EMAIL_TAKEN := "Email đã tồn tại!"
  const REGISTERED := "Đăng ký thành công"

  /** A row of the users table; the id is issued by the store. */
  datatype User = User(
    id: nat,
    email: string,
    username: Option<string>,
    passwordHash: Option<string>,
    role: string,
    interests: seq<string>,
    provider: Option<string>,
    providerId: Option<string>)

  /** A user row with password_hash taken out: what a successful credential check hands on. */
  datatype SafeUser = SafeUser(
    id: nat,
    email: string,
    username: Option<string>,
    role: string,
    interests: seq<string>,
    provider: Option<string>,
    providerId: Option<string>)

  /** The sign-up body; user_type is what the form sent, if anything. */
  datatype RegisterDto = RegisterDto(email: string, password: string, userType: Option<string>)

  datatype TokenPayload = TokenPayload(email: string, sub: nat, role: string)

  /** A JWT, kept as the payload it signs. */
  datatype AccessToken = Signed(payload: TokenPayload)

  datatype RegisterResponse = RegisterResponse(message: string, accessToken: AccessToken)

  datatype LoginResponse = LoginResponse(accessToken: AccessToken)

  /**
   * The role stored for a sign-up: the form offers student, professional and
   * organizer, and only organizer survives; everything else, admin included,
   * is stored as a plain user.
   */
  function StoredRole(userType: Option<string>): (role: string)
    ensures role == ORGANIZER <==> userType == Some(ORGANIZER)
    ensures role == USER || role == ORGANIZER
    ensures role != ADMIN
  {
    if userType == Some(ORGANIZER) then ORGANIZER else USER
  }

  /** The user without its password hash. */
  function WithoutHash(u: User): (s: SafeUser)
    ensures s.id == u.id && s.email == u.email && s.username == u.username && s.role == u.role
    ensures s.interests == u.interests && s.provider == u.provider && s.providerId == u.providerId
  {
    SafeUser(u.id, u.email, u.username, u.role, u.interests, u.provider, u.providerId)
  }

  /**
   * The credential check: the stored user for the email, without its hash,
   * when the user exists, has a non-empty hash and the password matches it.
   */
  function ValidateUser(users: map<string, User>, email: string, password: string,
                        compare: (string, string) -> bool): (r: Option<SafeUser>)
    ensures r.Some? <==>
              email in users && Truthy(users[email].passwordHash) &&
              compare(password, users[email].passwordHash.value)
    ensures r.Some? ==> r.value == WithoutHash(users[email])
  {
    if email in users then
      var user := users[email];
      if Truthy(user.passwordHash) && compare(password, user.passwordHash.value) then Some(WithoutHash(user))
      else None
    else None
  }

  /** The token issued for an authenticated user. */
  function Login(user: SafeUser): (r: LoginResponse)
    ensures r.accessToken.payload.email == user.email
    ensures r.accessToken.payload.sub == user.id
    ensures r.accessToken.payload.role == user.role
  {
    LoginResponse(Signed(TokenPayload(user.email, user.id, user.role)))
  }

  /** A login after a successful credential check carries the stored identity and role of that email. */
  lemma LoginCarriesStoredIdentity(users: map<string, User>, email: string, password: string,
                                   compare: (string, string) -> bool)
    requires forall e :: e in users ==> users[e].email == e
    requires ValidateUser(users, email, password, compare).Some?
    ensures var token := Login(ValidateUser(users, email, password, compare).value).accessToken;
            email in users && token.payload == TokenPayload(email, users[email].id, users[email].role)
  {
    var u := ValidateUser(users, email, password, compare).value;
    assert u == WithoutHash(users[email]);
  }

  /** The stored row of a local sign-up. */
  function LocalUser(id: nat, email: string, passwordHash: string, role: string): User
  {
    User(id, email, None, Some(passwordHash), role, [], Some(LOCAL_PROVIDER), None)
  }

  /**
   * A user stored by sign-up passes the credential check with the password it
   * signed up with, whenever the supplied check accepts a password against
   * its own non-empty hash, and the check hands on the stored identity.
   */
  lemma RegisteredUserValidates(users: map<string, User>, id: nat, dto: RegisterDto, salt: string,
                                hash: (string, string) -> string, compare: (string, string) -> bool)
    requires hash(dto.password, salt) != ""
    requires compare(dto.password, hash(dto.password, salt))
    ensures var stored := users[dto.email := LocalUser(id, dto.email, hash(dto.password, salt), StoredRole(dto.userType))];
            ValidateUser(stored, dto.email, dto.password, compare) ==
              Some(SafeUser(id, dto.email, None, StoredRole(dto.userType), [], Some(LOCAL_PROVIDER), None))
  {
  }

  class AuthService {
    /** the users table, keyed by its unique email column */
    var users: map<string, User>
    /** the next id the store issues */
    var nextId: nat

    /** Every row sits under its own email and holds an id already issued, no two alike. */
    ghost predicate Valid()
      reads this
    {
      && (forall e :: e in users ==> users[e].email == e && users[e].id < nextId)
      && (forall e1, e2 :: e1 in users && e2 in users && e1 != e2 ==> users[e1].id != users[e2].id)
    }

    constructor ()
      ensures Valid() && users == map[]
    {
      users := map[];
      nextId := 0;
    }

    /**
     * Sign-up. `salt` is the generated salt and `hash` the hashing function;
     * the token returned logs the new user in.
     */
    method Register(dto: RegisterDto, salt: string, hash: (string, string) -> string)
      returns (r: Result<RegisterResponse>)
      requires Valid()
      modifies this
      ensures Valid()
      ensures dto.email in old(users) ==> r == Err(BadRequest(EMAIL_TAKEN)) && unchanged(this)
      ensures dto.email !in old(users) ==>
                var user := LocalUser(old(nextId), dto.email, hash(dto.password, salt), StoredRole(dto.userType));
                && users == old(users)[dto.email := user]
                && r == Ok(RegisterResponse(REGISTERED, Login(WithoutHash(user)).accessToken))
    {
      if dto.email in users {
        return Err(BadRequest(EMAIL_TAKEN));
      }
      var hashedPassword := hash(dto.password, salt);
      var dbRole := USER;
      if dto.userType == Some(ORGANIZER) {
        dbRole := ORGANIZER;
      }
      var newUser := LocalUser(nextId, dto.email, hashedPassword, dbRole);
      users := users[dto.email := newUser];
      nextId := nextId + 1;
      var payload := TokenPayload(newUser.email, newUser.id, newUser.role);
      r := Ok(RegisterResponse(REGISTERED, Signed(payload)));
    }
  }
}

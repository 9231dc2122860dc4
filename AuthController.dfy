/** Registration, login and profile lookup over the Users table. Password hashing and token
    signing are library calls whose internals are not modelled: the controller holds them as
    function values, and the one fact login needs about them is the hypothesis HasherSound. */
module AuthEndpoints {
  import opened Models
  import opened Responses

  datatype RegisterRequest = RegisterRequest(email: string, password: string, firstName: string, lastName: string)
  datatype LoginRequest = LoginRequest(email: string, password: string)

  /** The user object of a response: the public fields only, no password hash. */
  datatype UserView = UserView(id: string, email: string, firstName: string, lastName: string, role: string)

  datatype AuthResponse = AuthResponse(token: string, user: UserView)

  const EmailExists := "Email already exists"
  const InvalidCredentials := "Invalid email or password"
  /** Stands for the 500 the framework answers when `SaveChangesAsync` fails in Register. */
  const RegisterFailed := "An error occurred while saving the user"

  function View(u: User): (r: UserView)
  {
    UserView(u.id, u.email, u.firstName, u.lastName, u.role)
  }

  /** Users are stored under their own id (the primary key). */
  predicate KeyedById(users: map<string, User>)
  {
    forall id :: id in users ==> users[id].id == id
  }

  /** The unique index on Email: no two users share an email. */
  predicate UniqueEmails(users: map<string, User>)
  {
    forall a, b :: a in users && b in users && users[a].email == users[b].email ==> a == b
  }

  predicate EmailTaken(users: map<string, User>, email: string)
  {
    exists id :: id in users && users[id].email == email
  }

  /** FirstOrDefault(u => u.Email == email); the unique index makes the answer unique. */
  function FindByEmail(users: map<string, User>, email: string): (r: Option<User>)
    requires UniqueEmails(users)
    ensures r.None? <==> !EmailTaken(users, email)
    ensures forall id :: id in users && users[id].email == email ==> r == Some(users[id])
  {
    if EmailTaken(users, email) then
      var id :| id in users && users[id].email == email;
      Some(users[id])
    else
      None
  }

  /** Inserting a user whose email and key are both new keeps both table invariants. */
  lemma InsertKeepsInvariants(users: map<string, User>, user: User)
    requires KeyedById(users) && UniqueEmails(users)
    requires user.id !in users && !EmailTaken(users, user.email)
    ensures KeyedById(users[user.id := user]) && UniqueEmails(users[user.id := user])
  {
  }

  class AuthController {
    /** The Users table, keyed by id. */
    var users: map<string, User>
    /** BCrypt.HashPassword, with its random salt as an argument. */
    const hashPassword: (string, int) -> string
    /** BCrypt.Verify(password, hash). */
    const verifyPassword: (string, string) -> bool
    /** JwtService.GenerateToken(id, email, role). */
    const generateToken: (string, string, string) -> string

    ghost predicate Valid()
      reads this
    {
      KeyedById(users) && UniqueEmails(users)
    }

    /** Verifying a password against a hash of it succeeds, whatever the salt. */
    ghost predicate HasherSound()
    {
      forall p, salt :: verifyPassword(p, hashPassword(p, salt))
    }

    constructor (users: map<string, User>, hashPassword: (string, int) -> string,
                 verifyPassword: (string, string) -> bool, generateToken: (string, string, string) -> string)
      requires KeyedById(users) && UniqueEmails(users)
      ensures Valid()
      ensures this.users == users && this.hashPassword == hashPassword
      ensures this.verifyPassword == verifyPassword && this.generateToken == generateToken
    {
      this.users := users;
      this.hashPassword := hashPassword;
      this.verifyPassword := verifyPassword;
      this.generateToken := generateToken;
    }

    /** POST register: rejects an email already stored; otherwise stores a new user with the
        hashed password and the default role, and answers with a token and the public fields.
        `newId`, `salt` and `now` are the fresh Guid, the salt and the clock reading. A key
        that is already stored makes the insert fail (500) with nothing stored. */
    method Register(request: RegisterRequest, newId: string, salt: int, now: DateTime)
      returns (r: ActionResult<AuthResponse>)
      requires Valid()
      modifies this
      ensures Valid()
      ensures EmailTaken(old(users), request.email) ==> r == BadRequest(EmailExists) && users == old(users)
      ensures !EmailTaken(old(users), request.email) && newId in old(users) ==>
                r == InternalError(RegisterFailed) && users == old(users)
      ensures !EmailTaken(old(users), request.email) && newId !in old(users) ==>
                var user := User(newId, request.email, hashPassword(request.password, salt),
                                 request.firstName, request.lastName, DefaultRole, now, None);
                && users == old(users)[newId := user]
                && r == Ok(AuthResponse(generateToken(newId, request.email, DefaultRole), View(user)))
      ensures r.Ok? ==> |users.Keys| == |old(users).Keys| + 1
      ensures r.Ok? && HasherSound() ==> Login(LoginRequest(request.email, request.password)) == r
    {
      if EmailTaken(users, request.email) {
        return BadRequest(EmailExists);
      }
      var user := User(newId, request.email, hashPassword(request.password, salt),
                       request.firstName, request.lastName, DefaultRole, now, None);
      if newId in users {
        return InternalError(RegisterFailed);
      }
      InsertKeepsInvariants(users, user);
      users := users[newId := user];
      var token := generateToken(user.id, user.email, user.role);
      r := Ok(AuthResponse(token, View(user)));
      assert users[newId] == user;
    }

    /** POST login: a token and the public fields of the user with that email when the
        password verifies against the stored hash; one and the same Unauthorized answer when
        the email is unknown or the password is wrong. */
    function Login(request: LoginRequest): (r: ActionResult<AuthResponse>)
      reads this
      requires Valid()
      ensures r.Ok? || r == Unauthorized(InvalidCredentials)
      ensures r.Ok? <==> exists id :: && id in users && users[id].email == request.email
                                      && verifyPassword(request.password, users[id].passwordHash)
      ensures r.Ok? ==> exists id :: && id in users && users[id].email == request.email
                                     && r.value.token == generateToken(id, request.email, users[id].role)
                                     && r.value.user == View(users[id])
    {
      match FindByEmail(users, request.email)
      case None => Unauthorized(InvalidCredentials)
      case Some(user) =>
        if !verifyPassword(request.password, user.passwordHash) then Unauthorized(InvalidCredentials)
        else Ok(AuthResponse(generateToken(user.id, user.email, user.role), View(user)))
    }

    /** GET profile: the public fields of the caller's stored record. */
    function GetProfile(claim: Option<string>): (r: ActionResult<UserView>)
      reads this
      requires Valid()
      ensures IsNullOrEmpty(claim) ==> r == Unauthorized("")
      ensures !IsNullOrEmpty(claim) && claim.value !in users ==> r == NotFound("")
      ensures r.Ok? ==> claim.Some? && claim.value in users && r.value == View(users[claim.value])
                        && r.value.id == claim.value
      ensures !IsNullOrEmpty(claim) && claim.value in users ==> r == Ok(View(users[claim.value]))
      ensures r.Ok? || r == Unauthorized("") || r == NotFound("")
    {
      if IsNullOrEmpty(claim) then Unauthorized("")
      else if claim.value !in users then NotFound("")
      else Ok(View(users[claim.value]))
    }
  }
}

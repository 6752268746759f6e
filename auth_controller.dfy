/** Signing in, creating a user as an administrator, and changing a password.
    Password hashing and comparison are parameters: `hashedPassword` is the
    hash of the generated password and `matches(plain, hash)` is the bcrypt
    comparison. The signed token is left out. */
module AuthController {
  import opened Common
  import opened Calendar
  import opened Records
  import opened Identity

  const INVALID_CREDENTIALS: string := "Invalid login credentials"
  const ONLY_APPROVERS_SIGN_UP: string := "Only Admin or HR can create users"
  const EMAIL_EXISTS: string := "User with this email already exists"
  const USER_NOT_FOUND: string := "User not found"
  const WRONG_CURRENT_PASSWORD: string := "Current password is incorrect"

  /** `OR: [{ loginId }, { email: loginId }]` */
  predicate SignsInAs(u: User, loginId: string) {
    u.loginId == loginId || u.email == loginId
  }

  /** The signed-in user and the row sent back without its password. */
  datatype Session = Session(userId: int, user: PublicUser)

  /** `signIn`: the first user whose login id or email is the given identifier,
      if the password matches its hash. An unknown identifier and a wrong
      password get the same error. */
  method SignIn(db: Db, loginId: string, password: string, matches: (string, string) -> bool)
    returns (r: Result<Session>)
    ensures r.Err? ==> r.error == Unauthorized(INVALID_CREDENTIALS)
    ensures r.Ok? ==> && r.value.userId in db.users
                      && SignsInAs(db.users[r.value.userId], loginId)
                      && matches(password, db.users[r.value.userId].password)
                      && r.value.user == WithoutPassword(db.users[r.value.userId])
    ensures (forall u :: u in db.users && SignsInAs(db.users[u], loginId) ==> !matches(password, db.users[u].password))
            ==> r.Err?
    ensures (exists u :: u in db.users && SignsInAs(db.users[u], loginId))
            && (forall u :: u in db.users && SignsInAs(db.users[u], loginId) ==> matches(password, db.users[u].password))
            ==> r.Ok?
  {
    var candidates := set u | u in db.users && SignsInAs(db.users[u], loginId);
    if candidates == {} {
      assert forall u :: u in db.users && SignsInAs(db.users[u], loginId) ==> u in candidates;
      return Err(Unauthorized(INVALID_CREDENTIALS));
    }
    var u := Pick(candidates);
    if !matches(password, db.users[u].password) {
      return Err(Unauthorized(INVALID_CREDENTIALS));
    }
    r := Ok(Session(u, WithoutPassword(db.users[u])));
  }

  /** Some user, of any company, has the email as email or login id. */
  predicate EmailInUse(users: map<int, User>, email: string) {
    exists u :: u in users && (users[u].email == email || users[u].loginId == email)
  }

  predicate MaySignUp(requester: Option<Caller>) {
    requester.Some? && IsAdminOrHr(requester.value.role)
  }

  /** `signUp`: an ADMIN or HR requester creates a user in the company of the
      given name, creating that company when no company has the name. The
      user joins in the clock's year. */
  method SignUp(db: Db, requester: Option<Caller>, companyName: string, name: string, email: string,
                phone: Option<string>, role: Option<Role>, hashedPassword: string, now: Instant)
    returns (r: Result<int>)
    requires db.Valid()
    modifies db`companies, db`users, db`nextId
    ensures db.Valid()
    ensures !MaySignUp(requester) ==> r == Err(Unauthorized(ONLY_APPROVERS_SIGN_UP))
    ensures MaySignUp(requester) && EmailInUse(old(db.users), email) ==> r == Err(BadRequest(EMAIL_EXISTS))
    ensures r.Err? ==> db.companies == old(db.companies) && db.users == old(db.users) && db.nextId == old(db.nextId)
    ensures (MaySignUp(requester) && !EmailInUse(old(db.users), email)) ==>
              var created := !HasCompanyNamed(old(db.companies), companyName);
              var id := old(db.nextId) + (if created then 1 else 0);
              && (created ==> db.companies == old(db.companies)[old(db.nextId) := Company(companyName, CompanyCode(companyName))])
              && (!created ==> db.companies == old(db.companies))
              && r == Ok(id) && id !in old(db.users) && id in db.users && db.nextId == id + 1
              && db.users == old(db.users)[id := db.users[id]]
              && db.users[id].companyId in db.companies
              && db.companies[db.users[id].companyId].name == companyName
              && IsNewUser(db.users[id], db.companies, old(db.users), db.users[id].companyId, name, email,
                           hashedPassword, role.GetOr(USER), now.year, SignUpFields(name, phone))
  {
    if !MaySignUp(requester) {
      return Err(Unauthorized(ONLY_APPROVERS_SIGN_UP));
    }
    if exists u :: u in db.users && (db.users[u].email == email || db.users[u].loginId == email) {
      return Err(BadRequest(EMAIL_EXISTS));
    }
    var companyId := FindOrCreateCompany(db, companyName);
    r := AddUser(db, companyId, name, email, hashedPassword, role.GetOr(USER), now.year, SignUpFields(name, phone));
  }

  /** The descriptive columns `signUp` writes. */
  function SignUpFields(name: string, phone: Option<string>): map<string, Value> {
    map["name" := VStr(name), "phone" := StrOrNull(phone)]
  }

  /** `changePassword`: the caller's current password must match the stored
      hash; then the hash is replaced and the first-login flag cleared. */
  method ChangePassword(db: Db, userId: int, currentPassword: string, newHash: string,
                        matches: (string, string) -> bool) returns (r: Result<int>)
    requires db.Valid()
    modifies db`users
    ensures db.Valid()
    ensures userId !in old(db.users) ==> r == Err(NotFound(USER_NOT_FOUND))
    ensures userId in old(db.users) && !matches(currentPassword, old(db.users)[userId].password)
            ==> r == Err(Unauthorized(WRONG_CURRENT_PASSWORD))
    ensures r.Err? ==> db.users == old(db.users)
    ensures r.Ok? <==> userId in old(db.users) && matches(currentPassword, old(db.users)[userId].password)
    ensures r.Ok? ==> r.value == userId
                      && db.users == old(db.users)[userId := old(db.users)[userId].(password := newHash, isFirstLogin := false)]
  {
    if userId !in db.users {
      return Err(NotFound(USER_NOT_FOUND));
    }
    var user := db.users[userId];
    if !matches(currentPassword, user.password) {
      return Err(Unauthorized(WRONG_CURRENT_PASSWORD));
    }
    db.users := db.users[userId := user.(password := newHash, isFirstLogin := false)];
    r := Ok(userId);
  }
}

/** The admin routes of routes/admin.js: registration, login and the
    details of the signed-in admin, over the `admins` table, with the email
    check reaching into `users` as well. */
module AdminRoutes {
  import opened Http
  import opened Validation
  import opened Auth
  import opened Identity
  import UserRoutes

  const EMAIL_IN_USE := "Email already in use"
  const REGISTER_FAILED := "Error registering admin"
  const REGISTERED := "Admin registered successfully!"
  const ADMIN_NOT_FOUND := "Admin not found"

  // ---------------------------------------------------------- register_admin

  datatype AdminRequest = AdminRequest(username: Field<string>, email: Field<string>, password: Field<string>)

  /** The validation chains of POST /api/register_admin, in declaration order. */
  function RegisterAdminChecks(req: AdminRequest, isEmail: string -> bool): (r: seq<Check>)
    ensures FirstError(r) ==
              if !NotEmpty(req.username) then Some("Username is required")
              else if !IsEmail(req.email, isEmail) then Some("Invalid email format")
              else if !MinLength(req.password, 6) then Some("Password must be at least 6 characters")
              else None
  {
    var r := [ Check(NotEmpty(req.username), "Username is required"),
               Check(IsEmail(req.email, isEmail), "Invalid email format"),
               Check(MinLength(req.password, 6), "Password must be at least 6 characters") ];
    FirstErrorStep(r); FirstErrorStep(r[1..]); FirstErrorStep(r[2..]);
    assert r[1..][1..] == r[2..] && r[2..][1..] == [];
    r
  }

  /** POST /api/register_admin. The email must be free in both tables. The
      username is unique only by the column constraint: the INSERT fails
      (500) after the id sequence has already advanced. */
  function RegisterAdmin(t: IdentityTables, req: AdminRequest, isEmail: string -> bool,
                         hash: string -> string): (r: Handled<string, IdentityTables>)
    requires TablesValid(t)
    ensures TablesValid(r.state)
    ensures r.state.users == t.users
    ensures r.response.status in {CREATED, BAD_REQUEST, SERVER_ERROR}
    ensures r.response.status == BAD_REQUEST ==> r.state == t
    ensures r.response.status == BAD_REQUEST <==>
              || FirstError(RegisterAdminChecks(req, isEmail)).Some?
              || UserEmailTaken(t.users, AsString(req.email))
              || AdminEmailTaken(t.admins, AsString(req.email))
    ensures FirstError(RegisterAdminChecks(req, isEmail)).Some? ==>
              r.response == Failure(BAD_REQUEST, FirstError(RegisterAdminChecks(req, isEmail)).value)
    ensures FirstError(RegisterAdminChecks(req, isEmail)).None? &&
            (UserEmailTaken(t.users, AsString(req.email)) || AdminEmailTaken(t.admins, AsString(req.email))) ==>
              r.response == Failure(BAD_REQUEST, EMAIL_IN_USE)
    ensures r.response.status == SERVER_ERROR ==>
              r.state == t.(nextAdminId := t.nextAdminId + 1) && UsernameTaken(t.admins, AsString(req.username))
    ensures r.response.status == CREATED ==>
              && !UserEmailTaken(t.users, AsString(req.email))
              && t.nextAdminId !in t.admins
              && r.state.admins == t.admins[t.nextAdminId := Admin(t.nextAdminId, AsString(req.username),
                                                                   AsString(req.email), hash(AsString(req.password)))]
              && r.state.nextAdminId == t.nextAdminId + 1
  {
    match FirstError(RegisterAdminChecks(req, isEmail))
    case Some(message) => Handled(Failure(BAD_REQUEST, message), t)
    case None =>
      var email := AsString(req.email);
      if UserEmailTaken(t.users, email) || AdminEmailTaken(t.admins, email) then
        Handled(Failure(BAD_REQUEST, EMAIL_IN_USE), t)
      else
        var id := t.nextAdminId;
        var t' := t.(nextAdminId := id + 1);
        if UsernameTaken(t.admins, AsString(req.username)) then Handled(Failure(SERVER_ERROR, REGISTER_FAILED), t')
        else
          var row := Admin(id, AsString(req.username), email, hash(AsString(req.password)));
          Handled(Success(CREATED, REGISTERED), t'.(admins := t.admins[id := row]))
  }

  method PostRegisterAdmin(db: IdentityDb, req: AdminRequest, isEmail: string -> bool,
                           hash: string -> string) returns (response: Response<string>)
    requires db.Valid()
    modifies db
    ensures db.Valid()
    ensures Handled(response, db.Tables()) == RegisterAdmin(old(db.Tables()), req, isEmail, hash)
  {
    var error := FirstError(RegisterAdminChecks(req, isEmail));
    if error.Some? {
      return Failure(BAD_REQUEST, error.value);
    }
    var email := AsString(req.email);
    var existingUser := db.FindUserByEmail(email);
    var existingAdmin := db.FindAdminByEmail(email);
    if existingUser.Some? || existingAdmin.Some? {
      return Failure(BAD_REQUEST, EMAIL_IN_USE);
    }
    var hashed := hash(AsString(req.password));
    // Admin.create: the serial default draws an id, then the unique index on
    // username is checked.
    var id := db.nextAdminId;
    db.nextAdminId := db.nextAdminId + 1;
    if UsernameTaken(db.admins, AsString(req.username)) {
      return Failure(SERVER_ERROR, REGISTER_FAILED);
    }
    db.admins := db.admins[id := Admin(id, AsString(req.username), email, hashed)];
    response := Success(CREATED, REGISTERED);
  }

  // ------------------------------------------------------------- login_admin

  /** POST /api/login_admin: the token `jwt.sign({ email, id })` for the
      admin with that email whose stored hash the password matches. */
  ghost function LoginAdmin(t: IdentityTables, email: Field<string>, password: Field<string>,
                            isEmail: string -> bool, c: Crypto): (r: Response<string>)
    requires AdminsValid(t.admins, t.nextAdminId)
    ensures r.status in {OK, BAD_REQUEST, UNAUTHORIZED}
    ensures r.status == BAD_REQUEST <==> FirstError(UserRoutes.LoginChecks(email, password, isEmail)).Some?
    ensures FirstError(UserRoutes.LoginChecks(email, password, isEmail)).Some? ==>
              r == Failure(BAD_REQUEST, FirstError(UserRoutes.LoginChecks(email, password, isEmail)).value)
    ensures r.status == OK <==>
              FirstError(UserRoutes.LoginChecks(email, password, isEmail)).None? &&
              exists k :: k in t.admins && t.admins[k].email == AsString(email) &&
                          c.compare(AsString(password), t.admins[k].password)
    ensures r.status == OK ==>
              exists k :: k in t.admins && t.admins[k].email == AsString(email) &&
                          r == Success(OK, c.sign(Claims(AsString(email), AdminNumber(k))))
    ensures r.status == UNAUTHORIZED ==> r == Failure(UNAUTHORIZED, UserRoutes.INVALID_CREDENTIALS)
  {
    match FirstError(UserRoutes.LoginChecks(email, password, isEmail))
    case Some(message) => Failure(BAD_REQUEST, message)
    case None =>
      match FindAdmin(t.admins, t.nextAdminId, AsString(email))
      case None => Failure(UNAUTHORIZED, UserRoutes.INVALID_CREDENTIALS)
      case Some(admin) =>
        FindAdminUnique(t.admins, t.nextAdminId, admin.id);
        if !c.compare(AsString(password), admin.password) then Failure(UNAUTHORIZED, UserRoutes.INVALID_CREDENTIALS)
        else Success(OK, c.sign(Claims(admin.email, AdminNumber(admin.id))))
  }

  /** A successful admin registration can be followed by an admin login with
      the same credentials, whose token passes the gate. */
  lemma RegisterAdminThenLogin(t: IdentityTables, req: AdminRequest, isEmail: string -> bool, c: Crypto)
    requires TablesValid(t) && Sound(c)
    requires RegisterAdmin(t, req, isEmail, c.hash).response.status == CREATED
    ensures var t' := RegisterAdmin(t, req, isEmail, c.hash).state;
            var claims := Claims(AsString(req.email), AdminNumber(t.nextAdminId));
            && LoginAdmin(t', req.email, req.password, isEmail, c) == Success(OK, c.sign(claims))
            && Authenticate(Some("Bearer " + c.sign(claims)), c.verify) == Accepted(claims)
  {
    var t' := RegisterAdmin(t, req, isEmail, c.hash).state;
    var claims := Claims(AsString(req.email), AdminNumber(t.nextAdminId));
    var checks := RegisterAdminChecks(req, isEmail);
    assert checks[1].passed && checks[2].passed;
    FindAdminUnique(t'.admins, t'.nextAdminId, t.nextAdminId);
    assert c.compare(AsString(req.password), c.hash(AsString(req.password)));
    SignedTokenPasses(c, claims);
  }

  // ----------------------------------------------------------- admin_details

  /** The JSON `{ username, email }` of GET /api/admin_details. */
  datatype AdminInfo = AdminInfo(username: string, email: string)

  /** GET /api/admin_details, behind the bearer gate: the admin whose email
      is the token's email claim. */
  ghost function AdminDetails(t: IdentityTables, header: Option<string>,
                              verify: string -> Option<Claims>): (r: Response<AdminInfo>)
    requires AdminsValid(t.admins, t.nextAdminId)
    ensures r.status in {OK, UNAUTHORIZED, FORBIDDEN, NOT_FOUND}
    ensures r.status == UNAUTHORIZED <==> Authenticate(header, verify).Missing?
    ensures r.status == FORBIDDEN <==> Authenticate(header, verify).Rejected?
    ensures r.status == NOT_FOUND <==>
              Authenticate(header, verify).Accepted? &&
              !AdminEmailTaken(t.admins, Authenticate(header, verify).claims.email)
    ensures r.status == OK ==>
              && Authenticate(header, verify).Accepted?
              && exists k :: k in t.admins && t.admins[k].email == Authenticate(header, verify).claims.email &&
                             r == Success(OK, AdminInfo(t.admins[k].username, t.admins[k].email))
  {
    match Authenticate(header, verify)
    case Missing => Refusal(Missing)
    case Rejected => Refusal(Rejected)
    case Accepted(claims) =>
      match FindAdmin(t.admins, t.nextAdminId, claims.email)
      case None => Failure(NOT_FOUND, ADMIN_NOT_FOUND)
      case Some(admin) => Success(OK, AdminInfo(admin.username, admin.email))
  }

  // ------------------------------------------- the two tables against each other

  /** User registration consults only `users`: an email held by an admin can
      still be registered as a user. */
  lemma UserMayTakeAdminEmail(t: IdentityTables, req: UserRoutes.RegisterRequest, isEmail: string -> bool,
                              hash: string -> string, newId: string)
    requires TablesValid(t)
    requires FirstError(UserRoutes.RegisterChecks(req, isEmail)).None?
    requires AdminEmailTaken(t.admins, AsString(req.email)) && !UserEmailTaken(t.users, AsString(req.email))
    requires newId !in t.users
    ensures UserRoutes.Register(t, req, isEmail, hash, newId).response.status == CREATED
    ensures AdminEmailTaken(UserRoutes.Register(t, req, isEmail, hash, newId).state.admins, AsString(req.email))
  {
  }

  /** Both login routes sign with the same secret and admin_details reads
      only the email claim, so a user's token opens the details of an admin
      who shares that user's email. */
  lemma UserTokenOpensAdminDetails(t: IdentityTables, email: string, password: string,
                                   isEmail: string -> bool, c: Crypto)
    requires TablesValid(t) && Sound(c)
    requires UserRoutes.Login(t, Given(email), Given(password), isEmail, c).status == OK
    requires AdminEmailTaken(t.admins, email)
    ensures var token := UserRoutes.Login(t, Given(email), Given(password), isEmail, c).body;
            AdminDetails(t, Some("Bearer " + token), c.verify).status == OK
  {
    var k :| k in t.users && t.users[k].email == email &&
             UserRoutes.Login(t, Given(email), Given(password), isEmail, c) ==
             Success(OK, c.sign(Claims(email, UserCode(k))));
    SignedTokenPasses(c, Claims(email, UserCode(k)));
  }
}

/** The user routes of routes/user.js: registration, login and profile
    update over the `users` table. Each handler is a function from the tables
    before the request to the response and the tables after it; the two that
    write run as methods on the database, proved to follow those functions. */
module UserRoutes {
  import opened Http
  import opened Validation
  import opened Auth
  import opened Identity

  const USER_EXISTS := "User with this email already exists"
  const SAVE_FAILED := "Error saving user to database"
  const REGISTERED := "User registered successfully"
  const INVALID_CREDENTIALS := "Invalid credentials"
  const USER_NOT_FOUND := "User not found"
  const EMAIL_IN_USE := "Email is already in use by another account"
  const UPDATED := "User details updated successfully!"

  // ---------------------------------------------------------------- register

  datatype RegisterRequest = RegisterRequest(
    firstname: Field<string>, lastname: Field<string>, email: Field<string>,
    password: Field<string>, phone: Field<string>, address: Field<string>)

  /** The validation chains of POST /api/register, in declaration order. */
  function RegisterChecks(req: RegisterRequest, isEmail: string -> bool): (r: seq<Check>)
    ensures FirstError(r) ==
              if !NotEmpty(req.firstname) then Some("First name is required")
              else if !NotEmpty(req.lastname) then Some("Last name is required")
              else if !IsEmail(req.email, isEmail) then Some("Invalid email format")
              else if !MinLength(req.password, 6) then Some("Password must be at least 6 characters")
              else None
  {
    var r := [ Check(NotEmpty(req.firstname), "First name is required"),
               Check(NotEmpty(req.lastname), "Last name is required"),
               Check(IsEmail(req.email, isEmail), "Invalid email format"),
               Check(MinLength(req.password, 6), "Password must be at least 6 characters") ];
    FirstErrorStep(r); FirstErrorStep(r[1..]); FirstErrorStep(r[2..]); FirstErrorStep(r[3..]);
    assert r[1..][1..] == r[2..] && r[2..][1..] == r[3..] && r[3..][1..] == [];
    r
  }

  /** The row `User.create` inserts for a registration. */
  function NewUser(id: string, req: RegisterRequest, hash: string -> string): (u: User)
    ensures u.id == id && u.email == AsString(req.email)
    ensures u.firstname == AsString(req.firstname) && u.lastname == AsString(req.lastname)
    ensures u.password == hash(AsString(req.password))
    ensures u.phone.None? <==> !Truthy(req.phone)
    ensures u.phone.Some? ==> req.phone == Given(u.phone.value)
    ensures u.address.None? <==> !Truthy(req.address)
    ensures u.address.Some? ==> req.address == Given(u.address.value)
  {
    User(id, AsString(req.firstname), AsString(req.lastname), AsString(req.email),
         hash(AsString(req.password)), OrNull(req.phone), OrNull(req.address))
  }

  /** POST /api/register. `newId` is the code `crypto.randomBytes(3)` drew;
      when it collides with an existing key the insert fails. */
  function Register(t: IdentityTables, req: RegisterRequest, isEmail: string -> bool,
                    hash: string -> string, newId: string): (r: Handled<string, IdentityTables>)
    requires TablesValid(t)
    ensures TablesValid(r.state)
    ensures r.state.admins == t.admins && r.state.nextAdminId == t.nextAdminId
    ensures r.response.status in {CREATED, BAD_REQUEST, SERVER_ERROR}
    ensures r.response.status != CREATED ==> r.state == t
    ensures r.response.status == BAD_REQUEST <==>
              FirstError(RegisterChecks(req, isEmail)).Some? || UserEmailTaken(t.users, AsString(req.email))
    ensures FirstError(RegisterChecks(req, isEmail)).Some? ==>
              r.response == Failure(BAD_REQUEST, FirstError(RegisterChecks(req, isEmail)).value)
    ensures FirstError(RegisterChecks(req, isEmail)).None? && UserEmailTaken(t.users, AsString(req.email)) ==>
              r.response == Failure(BAD_REQUEST, USER_EXISTS)
    ensures r.response.status == CREATED <==>
              FirstError(RegisterChecks(req, isEmail)).None? && !UserEmailTaken(t.users, AsString(req.email)) &&
              newId !in t.users
    ensures r.response.status == CREATED ==>
              && r.state.users.Keys == t.users.Keys + {newId}
              && (forall k :: k in t.users ==> r.state.users[k] == t.users[k])
              && FindUser(r.state.users, AsString(req.email)) == Some(NewUser(newId, req, hash))
  {
    match FirstError(RegisterChecks(req, isEmail))
    case Some(message) => Handled(Failure(BAD_REQUEST, message), t)
    case None =>
      var email := AsString(req.email);
      if UserEmailTaken(t.users, email) then Handled(Failure(BAD_REQUEST, USER_EXISTS), t)
      else if newId in t.users then Handled(Failure(SERVER_ERROR, SAVE_FAILED), t)
      else
        var users' := t.users[newId := NewUser(newId, req, hash)];
        FindUserUnique(users', newId);
        Handled(Success(CREATED, REGISTERED), t.(users := users'))
  }

  method PostRegister(db: IdentityDb, req: RegisterRequest, isEmail: string -> bool,
                      hash: string -> string, newId: string) returns (response: Response<string>)
    requires db.Valid()
    modifies db
    ensures db.Valid()
    ensures Handled(response, db.Tables()) == Register(old(db.Tables()), req, isEmail, hash, newId)
  {
    var error := FirstError(RegisterChecks(req, isEmail));
    if error.Some? {
      return Failure(BAD_REQUEST, error.value);
    }
    var email := AsString(req.email);
    var existing := db.FindUserByEmail(email);
    if existing.Some? {
      return Failure(BAD_REQUEST, USER_EXISTS);
    }
    var hashed := hash(AsString(req.password));
    if newId in db.users {
      return Failure(SERVER_ERROR, SAVE_FAILED);
    }
    db.users := db.users[newId := User(newId, AsString(req.firstname), AsString(req.lastname), email,
                                       hashed, OrNull(req.phone), OrNull(req.address))];
    response := Success(CREATED, REGISTERED);
  }

  // ------------------------------------------------------------------- login

  /** The validation chains of POST /api/login, in declaration order. */
  function LoginChecks(email: Field<string>, password: Field<string>, isEmail: string -> bool): (r: seq<Check>)
    ensures FirstError(r) ==
              if !IsEmail(email, isEmail) then Some("Invalid email format")
              else if !NotEmpty(password) then Some("Password is required")
              else None
  {
    var r := [ Check(IsEmail(email, isEmail), "Invalid email format"),
               Check(NotEmpty(password), "Password is required") ];
    FirstErrorStep(r); FirstErrorStep(r[1..]);
    assert r[1..][1..] == [];
    r
  }

  /** POST /api/login: the token `jwt.sign({ email, id })` for the user with
      that email whose stored hash the password matches. */
  ghost function Login(t: IdentityTables, email: Field<string>, password: Field<string>,
                       isEmail: string -> bool, c: Crypto): (r: Response<string>)
    requires UsersValid(t.users)
    ensures r.status in {OK, BAD_REQUEST, UNAUTHORIZED}
    ensures r.status == BAD_REQUEST <==> FirstError(LoginChecks(email, password, isEmail)).Some?
    ensures FirstError(LoginChecks(email, password, isEmail)).Some? ==>
              r == Failure(BAD_REQUEST, FirstError(LoginChecks(email, password, isEmail)).value)
    ensures r.status == OK <==>
              FirstError(LoginChecks(email, password, isEmail)).None? &&
              exists k :: k in t.users && t.users[k].email == AsString(email) &&
                          c.compare(AsString(password), t.users[k].password)
    ensures r.status == OK ==>
              exists k :: k in t.users && t.users[k].email == AsString(email) &&
                          r == Success(OK, c.sign(Claims(AsString(email), UserCode(k))))
    ensures r.status == UNAUTHORIZED ==> r == Failure(UNAUTHORIZED, INVALID_CREDENTIALS)
  {
    match FirstError(LoginChecks(email, password, isEmail))
    case Some(message) => Failure(BAD_REQUEST, message)
    case None =>
      match FindUser(t.users, AsString(email))
      case None => Failure(UNAUTHORIZED, INVALID_CREDENTIALS)
      case Some(user) =>
        FindUserUnique(t.users, user.id);
        if !c.compare(AsString(password), user.password) then Failure(UNAUTHORIZED, INVALID_CREDENTIALS)
        else Success(OK, c.sign(Claims(user.email, UserCode(user.id))))
  }

  /** An unknown email and a wrong password for a known one get the same
      response, so a caller cannot tell which emails are registered. */
  lemma LoginFailuresAlike(t: IdentityTables, k: string, unknown: string, password: string,
                           isEmail: string -> bool, c: Crypto)
    requires UsersValid(t.users) && k in t.users && !UserEmailTaken(t.users, unknown)
    requires isEmail(unknown) && isEmail(t.users[k].email) && password != ""
    requires !c.compare(password, t.users[k].password)
    ensures Login(t, Given(unknown), Given(password), isEmail, c) ==
            Login(t, Given(t.users[k].email), Given(password), isEmail, c) ==
            Failure(UNAUTHORIZED, INVALID_CREDENTIALS)
  {
    FindUserUnique(t.users, k);
  }

  /** A successful registration can be followed by a login with the same
      credentials, and the token it returns passes the bearer gate carrying
      the new user's email and code. */
  lemma RegisterThenLogin(t: IdentityTables, req: RegisterRequest, isEmail: string -> bool,
                          c: Crypto, newId: string)
    requires TablesValid(t) && Sound(c)
    requires Register(t, req, isEmail, c.hash, newId).response.status == CREATED
    ensures var t' := Register(t, req, isEmail, c.hash, newId).state;
            var claims := Claims(AsString(req.email), UserCode(newId));
            && Login(t', req.email, req.password, isEmail, c) == Success(OK, c.sign(claims))
            && Authenticate(Some("Bearer " + c.sign(claims)), c.verify) == Accepted(claims)
  {
    var t' := Register(t, req, isEmail, c.hash, newId).state;
    var claims := Claims(AsString(req.email), UserCode(newId));
    var checks := RegisterChecks(req, isEmail);
    assert checks[2].passed && checks[3].passed;
    FindUserUnique(t'.users, newId);
    assert c.compare(AsString(req.password), c.hash(AsString(req.password)));
    SignedTokenPasses(c, claims);
  }

  // ------------------------------------------------------------- update_user

  datatype UpdateRequest = UpdateRequest(
    firstname: Field<string>, lastname: Field<string>, email: Field<string>,
    phone: Field<string>, address: Field<string>, password: Field<string>)

  /** The validation chains of PUT /api/update_user, in declaration order:
      both keys are optional, but a key that is present, even as `null`, must
      pass its rule. */
  function UpdateChecks(req: UpdateRequest, isEmail: string -> bool): (r: seq<Check>)
    ensures FirstError(r) ==
              if !req.email.Undefined? && !IsEmail(req.email, isEmail) then Some("Invalid email format")
              else if !req.password.Undefined? && !MinLength(req.password, 6) then
                Some("Password must be at least 6 characters")
              else None
  {
    var r := [ Check(Optional(req.email, IsEmail(req.email, isEmail)), "Invalid email format"),
               Check(Optional(req.password, MinLength(req.password, 6)), "Password must be at least 6 characters") ];
    FirstErrorStep(r); FirstErrorStep(r[1..]);
    assert r[1..][1..] == [];
    r
  }

  /** The field-by-field assignment of PUT /api/update_user: names and email
      are replaced only by truthy values, phone and address by anything but
      `undefined` (null included), and the password by the hash of a truthy
      one. */
  function Merge(u: User, req: UpdateRequest, hash: string -> string): (r: User)
    ensures r.id == u.id
    ensures Truthy(req.firstname) ==> r.firstname == req.firstname.value
    ensures !Truthy(req.firstname) ==> r.firstname == u.firstname
    ensures Truthy(req.lastname) ==> r.lastname == req.lastname.value
    ensures !Truthy(req.lastname) ==> r.lastname == u.lastname
    ensures Truthy(req.email) ==> r.email == req.email.value
    ensures !Truthy(req.email) ==> r.email == u.email
    ensures req.phone.Undefined? ==> r.phone == u.phone
    ensures req.phone.Null? ==> r.phone == None
    ensures req.phone.Given? ==> r.phone == Some(req.phone.value)
    ensures req.address.Undefined? ==> r.address == u.address
    ensures req.address.Null? ==> r.address == None
    ensures req.address.Given? ==> r.address == Some(req.address.value)
    ensures Truthy(req.password) ==> r.password == hash(req.password.value)
    ensures !Truthy(req.password) ==> r.password == u.password
  {
    User(u.id,
         if Truthy(req.firstname) then req.firstname.value else u.firstname,
         if Truthy(req.lastname) then req.lastname.value else u.lastname,
         if Truthy(req.email) then req.email.value else u.email,
         if Truthy(req.password) then hash(req.password.value) else u.password,
         (match req.phone case Undefined => u.phone case Null => None case Given(v) => Some(v)),
         (match req.address case Undefined => u.address case Null => None case Given(v) => Some(v)))
  }

  /** Sending the same update twice leaves the row as sending it once.
      bcrypt draws a fresh salt on every call, so each PUT hashes with its
      own `hash`: the second PUT ends where a single PUT with its salt would,
      it agrees with the first PUT on every column but the password, and it
      agrees on the password too when the body carries no password. */
  lemma MergeIdempotent(u: User, req: UpdateRequest, firstHash: string -> string, secondHash: string -> string)
    ensures Merge(Merge(u, req, firstHash), req, secondHash) == Merge(u, req, secondHash)
    ensures Merge(Merge(u, req, firstHash), req, secondHash).(password := "") ==
            Merge(u, req, firstHash).(password := "")
    ensures !Truthy(req.password) ==> Merge(Merge(u, req, firstHash), req, secondHash) == Merge(u, req, firstHash)
  {
  }

  /** A body without any of the six keys changes nothing. */
  lemma MergeEmptyRequest(u: User, hash: string -> string)
    ensures Merge(u, UpdateRequest(Undefined, Undefined, Undefined, Undefined, Undefined, Undefined), hash) == u
  {
  }

  /** PUT /api/update_user, behind the bearer gate. The row is looked up by
      the email claim of the token. */
  ghost function UpdateUser(t: IdentityTables, header: Option<string>, req: UpdateRequest,
                            isEmail: string -> bool, c: Crypto): (r: Handled<string, IdentityTables>)
    requires TablesValid(t)
    ensures TablesValid(r.state)
    ensures r.state.admins == t.admins && r.state.nextAdminId == t.nextAdminId
    ensures r.response.status in {OK, BAD_REQUEST, UNAUTHORIZED, FORBIDDEN, NOT_FOUND}
    ensures r.response.status != OK ==> r.state == t
    ensures r.response.status == UNAUTHORIZED <==> Authenticate(header, c.verify).Missing?
    ensures r.response.status == FORBIDDEN <==> Authenticate(header, c.verify).Rejected?
    ensures r.response.status == NOT_FOUND <==>
              && Authenticate(header, c.verify).Accepted?
              && FirstError(UpdateChecks(req, isEmail)).None?
              && !UserEmailTaken(t.users, Authenticate(header, c.verify).claims.email)
    ensures r.response.status == OK ==>
              && Authenticate(header, c.verify).Accepted?
              && exists k :: && k in t.users
                             && t.users[k].email == Authenticate(header, c.verify).claims.email
                             && r.state.users == t.users[k := Merge(t.users[k], req, c.hash)]
    ensures r.response.status == OK <==>
              && Authenticate(header, c.verify).Accepted?
              && FirstError(UpdateChecks(req, isEmail)).None?
              && var u := FindUser(t.users, Authenticate(header, c.verify).claims.email);
                 && u.Some?
                 && !(Truthy(req.email) && req.email.value != u.value.email && UserEmailTaken(t.users, req.email.value))
    ensures (r.response.status == BAD_REQUEST && r.response != Failure(BAD_REQUEST, EMAIL_IN_USE)) <==>
              Authenticate(header, c.verify).Accepted? && FirstError(UpdateChecks(req, isEmail)).Some?
    ensures Authenticate(header, c.verify).Accepted? && FirstError(UpdateChecks(req, isEmail)).Some? ==>
              r.response == Failure(BAD_REQUEST, FirstError(UpdateChecks(req, isEmail)).value)
    ensures r.response == Failure(BAD_REQUEST, EMAIL_IN_USE) <==>
              && Authenticate(header, c.verify).Accepted?
              && FirstError(UpdateChecks(req, isEmail)).None?
              && var u := FindUser(t.users, Authenticate(header, c.verify).claims.email);
                 && u.Some?
                 && Truthy(req.email) && req.email.value != u.value.email
                 && UserEmailTaken(t.users, req.email.value)
  {
    match Authenticate(header, c.verify)
    case Missing => Handled(Refusal(Missing), t)
    case Rejected => Handled(Refusal(Rejected), t)
    case Accepted(claims) =>
      match FirstError(UpdateChecks(req, isEmail))
      case Some(message) => Handled(Failure(BAD_REQUEST, message), t)
      case None =>
        match FindUser(t.users, claims.email)
        case None => Handled(Failure(NOT_FOUND, USER_NOT_FOUND), t)
        case Some(user) =>
          if Truthy(req.email) && req.email.value != user.email && UserEmailTaken(t.users, req.email.value) then
            Handled(Failure(BAD_REQUEST, EMAIL_IN_USE), t)
          else
            var t' := t.(users := t.users[user.id := Merge(user, req, c.hash)]);
            assert UsersValid(t'.users) by { MergeKeepsEmailsUnique(t.users, user, req, c.hash); }
            Handled(Success(OK, UPDATED), t')
  }

  /** Replacing a row by its merge keeps emails unique, provided a changed
      email is not held by any row. */
  lemma MergeKeepsEmailsUnique(users: map<string, User>, user: User, req: UpdateRequest, hash: string -> string)
    requires UsersValid(users) && user.id in users && users[user.id] == user
    requires Truthy(req.email) && req.email.value != user.email ==> !UserEmailTaken(users, req.email.value)
    ensures UsersValid(users[user.id := Merge(user, req, hash)])
  {
    var users' := users[user.id := Merge(user, req, hash)];
    forall j, k | j in users' && k in users' && users'[j].email == users'[k].email
      ensures j == k
    {
    }
  }

  method PutUpdateUser(db: IdentityDb, header: Option<string>, req: UpdateRequest,
                       isEmail: string -> bool, c: Crypto) returns (response: Response<string>)
    requires db.Valid()
    modifies db
    ensures db.Valid()
    ensures Handled(response, db.Tables()) == UpdateUser(old(db.Tables()), header, req, isEmail, c)
  {
    var gate := Authenticate(header, c.verify);
    if !gate.Accepted? {
      return Refusal(gate);
    }
    var error := FirstError(UpdateChecks(req, isEmail));
    if error.Some? {
      return Failure(BAD_REQUEST, error.value);
    }
    var found := db.FindUserByEmail(gate.claims.email);
    if found.None? {
      return Failure(NOT_FOUND, USER_NOT_FOUND);
    }
    var user := found.value;
    if Truthy(req.email) && req.email.value != user.email {
      var holder := db.FindUserByEmail(req.email.value);
      if holder.Some? {
        return Failure(BAD_REQUEST, EMAIL_IN_USE);
      }
    }
    if Truthy(req.firstname) { user := user.(firstname := req.firstname.value); }
    if Truthy(req.lastname) { user := user.(lastname := req.lastname.value); }
    if Truthy(req.email) { user := user.(email := req.email.value); }
    if !req.phone.Undefined? { user := user.(phone := if req.phone.Given? then Some(req.phone.value) else None); }
    if !req.address.Undefined? { user := user.(address := if req.address.Given? then Some(req.address.value) else None); }
    if Truthy(req.password) {
      user := user.(password := c.hash(req.password.value));
    }
    assert user == Merge(found.value, req, c.hash);
    MergeKeepsEmailsUnique(db.users, found.value, req, c.hash);
    db.users := db.users[user.id := user];
    response := Success(OK, UPDATED);
  }
}

/** The two identity tables, `users` (models/Users.js) and `admins`
    (models/Admin.js), which routes/user.js and routes/admin.js read and
    write, with the keys and unique columns the models declare. */
module Identity {
  import opened Http

  /** A row of `users`: a six-character code as primary key, a unique email,
      a bcrypt hash as password, and nullable phone and address. */
  datatype User = User(id: string, firstname: string, lastname: string, email: string,
                       password: string, phone: Option<string>, address: Option<string>)

  /** A row of `admins`: a serial key, a unique username and a unique email. */
  datatype Admin = Admin(id: nat, username: string, email: string, password: string)

  /** Both tables, and the next value of the `admins` id sequence. */
  datatype IdentityTables = IdentityTables(users: map<string, User>, admins: map<nat, Admin>, nextAdminId: nat)

  /** Every row sits under its own key and no two rows share an email. */
  ghost predicate UsersValid(users: map<string, User>) {
    && (forall k :: k in users ==> users[k].id == k)
    && (forall j, k :: j in users && k in users && users[j].email == users[k].email ==> j == k)
  }

  /** Every row sits under its own key, which the sequence has already
      handed out, and emails and usernames are unique. */
  ghost predicate AdminsValid(admins: map<nat, Admin>, nextId: nat) {
    && 1 <= nextId
    && (forall k :: k in admins ==> admins[k].id == k && k < nextId)
    && (forall j, k :: j in admins && k in admins && admins[j].email == admins[k].email ==> j == k)
    && (forall j, k :: j in admins && k in admins && admins[j].username == admins[k].username ==> j == k)
  }

  ghost predicate TablesValid(t: IdentityTables) {
    UsersValid(t.users) && AdminsValid(t.admins, t.nextAdminId)
  }

  predicate UserEmailTaken(users: map<string, User>, email: string) {
    exists k :: k in users && users[k].email == email
  }

  predicate AdminEmailTaken(admins: map<nat, Admin>, email: string) {
    exists k :: k in admins && admins[k].email == email
  }

  predicate UsernameTaken(admins: map<nat, Admin>, username: string) {
    exists k :: k in admins && admins[k].username == username
  }

  /** `User.findOne({ where: { email } })`. */
  ghost function FindUser(users: map<string, User>, email: string): (r: Option<User>)
    requires UsersValid(users)
    ensures r.Some? <==> UserEmailTaken(users, email)
    ensures r.Some? ==> r.value.id in users && users[r.value.id] == r.value && r.value.email == email
  {
    if UserEmailTaken(users, email) then
      var k :| k in users && users[k].email == email;
      Some(users[k])
    else None
  }

  /** `Admin.findOne({ where: { email } })`. */
  ghost function FindAdmin(admins: map<nat, Admin>, nextId: nat, email: string): (r: Option<Admin>)
    requires AdminsValid(admins, nextId)
    ensures r.Some? <==> AdminEmailTaken(admins, email)
    ensures r.Some? ==> r.value.id in admins && admins[r.value.id] == r.value && r.value.email == email
  {
    if AdminEmailTaken(admins, email) then
      var k :| k in admins && admins[k].email == email;
      Some(admins[k])
    else None
  }

  /** The row found by email is the only row with that email. */
  lemma FindUserUnique(users: map<string, User>, k: string)
    requires UsersValid(users) && k in users
    ensures FindUser(users, users[k].email) == Some(users[k])
  {
  }

  lemma FindAdminUnique(admins: map<nat, Admin>, nextId: nat, k: nat)
    requires AdminsValid(admins, nextId) && k in admins
    ensures FindAdmin(admins, nextId, admins[k].email) == Some(admins[k])
  {
  }

  /** The database connection's view of the two tables. */
  class IdentityDb {
    var users: map<string, User>
    var admins: map<nat, Admin>
    var nextAdminId: nat

    function Tables(): IdentityTables
      reads this
    {
      IdentityTables(users, admins, nextAdminId)
    }

    ghost predicate Valid()
      reads this
    {
      TablesValid(Tables())
    }

    constructor ()
      ensures Valid() && Tables() == IdentityTables(map[], map[], 1)
    {
      users, admins, nextAdminId := map[], map[], 1;
    }

    /** `User.findOne({ where: { email } })` as the ORM runs it: some row
        with that email, if any. */
    method FindUserByEmail(email: string) returns (r: Option<User>)
      requires Valid()
      ensures r == FindUser(users, email)
    {
      var found := set k | k in users && users[k].email == email;
      if found == {} {
        assert forall k :: k in users && users[k].email == email ==> k in found;
        r := None;
      } else {
        var k :| k in found;
        FindUserUnique(users, k);
        r := Some(users[k]);
      }
    }

    /** `Admin.findOne({ where: { email } })`. */
    method FindAdminByEmail(email: string) returns (r: Option<Admin>)
      requires Valid()
      ensures r == FindAdmin(admins, nextAdminId, email)
    {
      var found := set k | k in admins && admins[k].email == email;
      if found == {} {
        assert forall k :: k in admins && admins[k].email == email ==> k in found;
        r := None;
      } else {
        var k :| k in found;
        FindAdminUnique(admins, nextAdminId, k);
        r := Some(admins[k]);
      }
    }
  }
}

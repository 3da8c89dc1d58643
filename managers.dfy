/** `UserManager`: the checks and defaults applied when an account is created,
    for an ordinary user and for a superuser. */
module Managers {
  import opened Common
  import opened PyText
  import opened UserModels
  import opened Store
  import opened Integrity

  /** The keyword arguments (`**extra_fields`) a caller may pass; `None` is an
      argument left out. */
  datatype ExtraFields = ExtraFields(
    fullName: Option<string>,
    dob: Option<string>,
    gender: Option<string>,
    address: Option<string>,
    phone: Option<string>,
    identification: Option<string>,
    role: Option<Role>,
    isStaff: Option<bool>,
    isSuperuser: Option<bool>)

  function OrElse<T>(o: Option<T>, d: T): T
  {
    if o.Some? then o.value else d
  }

  /** The row `create` builds: the field defaults of the User model fill in every
      argument left out (an empty string for a text column without a default). */
  function NewUserRow(email: string, password: string, extra: ExtraFields,
                      normalize: string -> string, hash: string -> string): (u: User)
    ensures u.email == normalize(Strip(email)) && u.password == Hashed(hash(password))
    ensures u.role == (if extra.role.Some? then extra.role.value else DefaultRole)
    ensures u.gender == (if extra.gender.Some? then extra.gender.value else DefaultGender)
    ensures extra.dob.Some? ==> u.dob == extra.dob.value
  {
    User(
      email := normalize(Strip(email)),
      password := Hashed(hash(password)),
      fullName := OrElse(extra.fullName, ""),
      dob := OrElse(extra.dob, ""),
      gender := OrElse(extra.gender, DefaultGender),
      address := OrElse(extra.address, ""),
      phone := OrElse(extra.phone, ""),
      identification := OrElse(extra.identification, ""),
      role := OrElse(extra.role, DefaultRole),
      isStaff := OrElse(extra.isStaff, false),
      isSuperuser := OrElse(extra.isSuperuser, false))
  }

  /** What the database accepts for a new user row: a date of birth (NOT NULL),
      an email and an identification no other user has (UNIQUE), and values
      within the column widths. */
  predicate Admissible(users: map<UserId, User>, u: User, extra: ExtraFields)
  {
    && extra.dob.Some?
    && (forall v :: v in users ==> users[v].email != u.email && users[v].identification != u.identification)
    && FitsColumns(u)
  }

  /** `create_user`: a missing or empty email, then a missing or empty
      password, is refused; otherwise the row is built from the stripped,
      normalised email and the password's hash, and inserted if the database
      accepts it. `normalize_email` and `make_password` are parameters. */
  method CreateUser(db: Database, email: Option<string>, password: Option<string>, extra: ExtraFields,
                    normalize: string -> string, hash: string -> string) returns (r: Result<UserId>)
    requires db.Valid()
    modifies db`tables
    ensures db.Valid()
    ensures !TruthyStr(email) ==> r == Err(EmailRequired)
    ensures TruthyStr(email) && !TruthyStr(password) ==> r == Err(PasswordRequired)
    ensures TruthyStr(email) && TruthyStr(password) ==>
              var u := NewUserRow(email.value, password.value, extra, normalize, hash);
              && (r.Ok? <==> Admissible(old(db.tables.users), u, extra))
              && (r.Ok? ==> r.value !in old(db.tables.users) && db.tables == old(db.tables).(users := old(db.tables.users)[r.value := u]))
              && (r.Err? ==> r.error == IntegrityViolation)
    ensures r.Err? ==> db.tables == old(db.tables)
  {
    if !TruthyStr(email) {
      return Err(EmailRequired);
    }
    if !TruthyStr(password) {
      return Err(PasswordRequired);
    }
    var u := NewUserRow(email.value, password.value, extra, normalize, hash);
    if !Admissible(db.tables.users, u, extra) {
      return Err(IntegrityViolation);
    }
    var id := FreshId(db.tables.users.Keys);
    PutUserOk(db.tables, id, u);
    db.tables := db.tables.(users := db.tables.users[id := u]);
    r := Ok(id);
  }

  /** The `setdefault` calls of `create_superuser`: a value the caller passed
      is kept, a missing one gets the superuser default (`now` is the
      `timezone.now()` reading). */
  function SuperuserDefaults(extra: ExtraFields, now: string): (e: ExtraFields)
    ensures e.isStaff == Some(OrElse(extra.isStaff, true))
    ensures e.isSuperuser == Some(OrElse(extra.isSuperuser, true))
    ensures e.fullName == Some(OrElse(extra.fullName, "ADMINISTRATOR"))
    ensures e.dob == Some(OrElse(extra.dob, now))
    ensures e.role == Some(OrElse(extra.role, Administrator))
    ensures e.gender == extra.gender && e.address == extra.address && e.phone == extra.phone
    ensures e.identification == extra.identification
  {
    extra.(isStaff := Some(OrElse(extra.isStaff, true)),
           isSuperuser := Some(OrElse(extra.isSuperuser, true)),
           fullName := Some(OrElse(extra.fullName, "ADMINISTRATOR")),
           dob := Some(OrElse(extra.dob, now)),
           role := Some(OrElse(extra.role, Administrator)))
  }

  /** `create_superuser`: `create_user` with the superuser defaults, then
      exactly one Administrator profile for the new account. */
  method CreateSuperuser(db: Database, email: Option<string>, password: Option<string>, extra: ExtraFields,
                         now: string, normalize: string -> string, hash: string -> string)
    returns (r: Result<UserId>)
    requires db.Valid()
    modifies db`tables
    ensures db.Valid()
    ensures !TruthyStr(email) ==> r == Err(EmailRequired)
    ensures TruthyStr(email) && !TruthyStr(password) ==> r == Err(PasswordRequired)
    ensures TruthyStr(email) && TruthyStr(password) ==>
              var full := SuperuserDefaults(extra, now);
              && (r.Ok? <==> Admissible(old(db.tables.users), NewUserRow(email.value, password.value, full, normalize, hash), full))
              && (r.Err? ==> r.error == IntegrityViolation)
    ensures r.Err? ==> db.tables == old(db.tables)
    ensures r.Ok? ==>
              var u := NewUserRow(email.value, password.value, SuperuserDefaults(extra, now), normalize, hash);
              && r.value !in old(db.tables.users)
              && db.tables == old(db.tables).(users := old(db.tables.users)[r.value := u],
                                              administrators := old(db.tables.administrators) + {r.value})
  {
    var full := SuperuserDefaults(extra, now);
    r := CreateUser(db, email, password, full, normalize, hash);
    if r.Ok? {
      AddAdministratorOk(db.tables, r.value);
      db.tables := db.tables.(administrators := db.tables.administrators + {r.value});
    }
  }
}

/** `UserSerializer` (registration) and `UserUpdateSerializer` (editing the
    current account): which supplied fields are checked, what `validate`
    demands of each role, the rows `create` writes, and how `update` merges
    new values into the account and its profile. */
module UserSerializers {
  import opened Common
  import opened PyText
  import opened UserModels
  import opened Store
  import opened Integrity
  import opened Managers
  import opened UserValidators

  /** The writable fields of `UserSerializer` as parsed; `None` is a field the
      request did not supply. */
  datatype Registration = Registration(
    role: Option<Role>,
    email: Option<string>,
    password: Option<string>,
    identification: Option<string>,
    fullName: Option<string>,
    dob: Option<string>,
    certificate: Option<string>,
    degree: Option<string>,
    studentId: Option<string>,
    university: Option<string>,
    faculty: Option<string>,
    major: Option<string>,
    academicYear: Option<int>)

  function ErrorOf<T>(r: Result<T>): seq<Error>
  {
    if r.Err? then [r.error] else []
  }

  function RequiredError<T>(o: Option<T>): seq<Error>
  {
    if o.None? then [FieldRequired] else []
  }

  function TrimOpt(o: Option<string>): Option<string>
  {
    if o.Some? then Some(Strip(o.value)) else None
  }

  /** `trim_whitespace`: every `CharField` of the serializer, the email and
      password fields included, strips its input before any validator sees
      it, and the stripped value is what `create` receives. The role, the
      date and the year are not strings. */
  function TrimRegistration(d: Registration): Registration
  {
    d.(email := TrimOpt(d.email), password := TrimOpt(d.password), identification := TrimOpt(d.identification),
       fullName := TrimOpt(d.fullName), certificate := TrimOpt(d.certificate), degree := TrimOpt(d.degree),
       studentId := TrimOpt(d.studentId), university := TrimOpt(d.university), faculty := TrimOpt(d.faculty),
       major := TrimOpt(d.major))
  }

  /** The field errors `is_valid` collects before `validate` runs, in field
      order. A `validate_<field>` method runs only on a supplied field; the
      model's required columns (email, password, identification, full_name,
      dob) report a missing value. */
  function RegistrationFieldErrors(d: Registration): (es: seq<Error>)
    ensures es == [] <==>
              && (d.role.Some? ==> d.role == Some(Student))
              && d.email.Some? && EmailShape(Strip(d.email.value))
              && d.password.Some? && PasswordShape(Strip(d.password.value))
              && d.identification.Some? && DigitString(Strip(d.identification.value), IdentificationDigits)
              && d.fullName.Some? && d.dob.Some?
              && (d.studentId.Some? ==> DigitString(Strip(d.studentId.value), StudentIdDigits))
  {
    (if d.role.Some? then ErrorOf(ValidateRole(d.role)) else [])
    + (if d.email.Some? then ErrorOf(ValidateEmail(d.email)) else [FieldRequired])
    + (if d.password.Some? then ErrorOf(ValidatePassword(d.password)) else [FieldRequired])
    + (if d.identification.Some? then ErrorOf(ValidateIdentification(d.identification)) else [FieldRequired])
    + RequiredError(d.fullName)
    + RequiredError(d.dob)
    + (if d.studentId.Some? then ErrorOf(ValidateStudentId(d.studentId)) else [])
  }

  predicate StudentFieldsTruthy(d: Registration)
  {
    TruthyStr(d.studentId) && TruthyStr(d.university) && TruthyStr(d.faculty) && TruthyStr(d.major)
    && TruthyInt(d.academicYear)
  }

  /** `UserSerializer.validate`: a MANAGER needs a certificate, a SPECIALIST a
      degree and a STUDENT all five student fields, each truthy. A request
      that names no role meets no requirement. */
  function ValidateRegistration(d: Registration): (r: Result<Registration>)
    ensures r.Ok? <==>
              && (d.role == Some(Manager) ==> TruthyStr(d.certificate))
              && (d.role == Some(Specialist) ==> TruthyStr(d.degree))
              && (d.role == Some(Student) ==> StudentFieldsTruthy(d))
    ensures r.Ok? ==> r.value == d
    ensures r.Err? && d.role == Some(Manager) ==> r.error == CertificateRequired
    ensures r.Err? && d.role == Some(Specialist) ==> r.error == DegreeRequired
    ensures r.Err? && d.role == Some(Student) ==> r.error == StudentInfoRequired
  {
    if d.role == Some(Manager) && !TruthyStr(d.certificate) then Err(CertificateRequired)
    else if d.role == Some(Specialist) && !TruthyStr(d.degree) then Err(DegreeRequired)
    else if d.role == Some(Student) && !StudentFieldsTruthy(d) then Err(StudentInfoRequired)
    else Ok(d)
  }

  /** The keyword arguments `create` passes on once the profile fields are popped. */
  function RegistrationExtra(d: Registration): ExtraFields
  {
    ExtraFields(d.fullName, d.dob, None, None, None, d.identification, d.role, None, None)
  }

  /** The Student row `create_user_instance` asks for; `None` when a NOT NULL
      column would receive `None`. */
  function StudentRow(d: Registration): (p: Option<StudentProfile>)
    ensures p.Some? <==> d.studentId.Some? && d.university.Some? && d.faculty.Some? && d.major.Some?
                         && d.academicYear.Some?
    ensures p.Some? ==> p.value.studentId == d.studentId.value && p.value.academicYear == d.academicYear.value
  {
    if d.studentId.Some? && d.university.Some? && d.faculty.Some? && d.major.Some? && d.academicYear.Some? then
      Some(StudentProfile(d.studentId.value, d.university.value, d.faculty.value, d.major.value, d.academicYear.value))
    else
      None
  }

  /** A registration that passes both checks always yields a STUDENT account:
      `validate_role` lets no other role through, and a missing role takes
      the model default. */
  lemma RegisteredRoleIsStudent(d: Registration)
    requires RegistrationFieldErrors(d) == []
    ensures OrElse(RegistrationExtra(d).role, DefaultRole) == Student
    ensures d.role.None? || d.role == Some(Student)
    ensures TruthyStr(d.email) && TruthyStr(d.password)
  {
    var e, p := Strip(d.email.value), Strip(d.password.value);
    assert |e| <= |d.email.value| && |p| <= |d.password.value|;
    var i, j :| 0 <= i < |e| && 0 <= j < |e| && EmailSplit(e, i, j);
  }

  /** Once trimmed, a registration that passes the field validators has an
      identification and a student id that fit their columns, however much
      white space surrounded them. */
  lemma TrimmedRegistrationFits(raw: Registration)
    requires RegistrationFieldErrors(TrimRegistration(raw)) == []
    ensures |TrimRegistration(raw).identification.value| <= IdentificationMaxLength
    ensures TrimRegistration(raw).studentId.Some? ==> |TrimRegistration(raw).studentId.value| <= StudentIdMaxLength
  {
    StripIdempotent(raw.identification.value);
    if raw.studentId.Some? {
      StripIdempotent(raw.studentId.value);
    }
  }

  /** The registration endpoint: the fields trim their input, then `is_valid`
      (the field validators, then `validate`), then `save`, which runs `create`. */
  method Register(db: Database, raw: Registration, normalize: string -> string, hash: string -> string)
    returns (r: Result<UserId>, account: Option<UserId>)
    requires db.Valid()
    modifies db`tables
    ensures db.Valid()
    ensures db.tables == old(db.tables).(users := db.tables.users, students := db.tables.students)
    ensures var d := TrimRegistration(raw);
            RegistrationFieldErrors(d) != [] ==> r == Err(FieldErrors(RegistrationFieldErrors(d)))
    ensures var d := TrimRegistration(raw);
            RegistrationFieldErrors(d) == [] && ValidateRegistration(d).Err? ==> r == Err(ValidateRegistration(d).error)
    ensures var d := TrimRegistration(raw);
            account.Some? ==> RegistrationFieldErrors(d) == [] && ValidateRegistration(d).Ok?
    ensures account.None? ==> db.tables == old(db.tables)
    ensures r.Ok? ==> account == Some(r.value)
    ensures r.Err? ==> db.tables.students == old(db.tables.students)
    ensures var d := TrimRegistration(raw);
            RegistrationFieldErrors(d) == [] && ValidateRegistration(d).Ok? ==>
              var u := NewUserRow(d.email.value, d.password.value, RegistrationExtra(d), normalize, hash);
              && (account.Some? <==> Admissible(old(db.tables.users), u, RegistrationExtra(d)))
              && (account.Some? ==> account.value !in old(db.tables.users) && db.tables.users == old(db.tables.users)[account.value := u]
                                    && u.role == Student && account.value in db.tables.users)
              && (r.Ok? <==> account.Some? && StudentRow(d).Some? && |d.studentId.value| <= StudentIdMaxLength)
              && (r.Ok? ==> db.tables.students == old(db.tables.students)[r.value := StudentRow(d).value])
              && (account.Some? && r.Err? ==> r.error == IntegrityViolation)
  {
    var d := TrimRegistration(raw);
    var errors := RegistrationFieldErrors(d);
    if errors != [] {
      return Err(FieldErrors(errors)), None;
    }
    var checked := ValidateRegistration(d);
    if checked.Err? {
      return Err(checked.error), None;
    }
    RegisteredRoleIsStudent(d);
    r, account := Create(db, d, normalize, hash);
  }

  /** `UserSerializer.create` followed by `create_user_instance`: the
      account row is written first, then a Student row when the account's
      role is STUDENT (no other role gets a profile here). There is no
      transaction, so when the Student row is refused (a registration without
      a role supplies no student fields) the account stays behind without a
      profile while the request fails. `account` is the account row left in
      the store, if any. */
  method Create(db: Database, d: Registration, normalize: string -> string, hash: string -> string)
    returns (r: Result<UserId>, account: Option<UserId>)
    requires db.Valid()
    modifies db`tables
    ensures db.Valid()
    ensures db.tables == old(db.tables).(users := db.tables.users, students := db.tables.students)
    ensures !TruthyStr(d.email) || !TruthyStr(d.password) ==>
              account.None? && r.Err? && r.error in {EmailRequired, PasswordRequired}
    ensures TruthyStr(d.email) && TruthyStr(d.password) ==>
              var u := NewUserRow(d.email.value, d.password.value, RegistrationExtra(d), normalize, hash);
              && (account.Some? <==> Admissible(old(db.tables.users), u, RegistrationExtra(d)))
              && (account.Some? ==> account.value !in old(db.tables.users) && db.tables.users == old(db.tables.users)[account.value := u])
              && (u.role == Student ==>
                    (r.Ok? <==> account.Some? && StudentRow(d).Some? && |d.studentId.value| <= StudentIdMaxLength))
              && (u.role != Student ==> (r.Ok? <==> account.Some?))
    ensures account.None? ==> db.tables == old(db.tables)
    ensures r.Ok? ==> account == Some(r.value)
    ensures r.Ok? && db.tables.users[r.value].role == Student ==>
              db.tables.students == old(db.tables.students)[r.value := StudentRow(d).value]
    ensures r.Err? || db.tables.users[r.value].role != Student ==> db.tables.students == old(db.tables.students)
    ensures account.Some? && r.Err? ==> r.error == IntegrityViolation
  {
    account := None;
    var extra := RegistrationExtra(d);
    var created := CreateUser(db, d.email, d.password, extra, normalize, hash);
    if created.Err? {
      return Err(created.error), None;
    }
    var id := created.value;
    account := Some(id);
    if db.tables.users[id].role != Student {
      return Ok(id), account;
    }
    var row := StudentRow(d);
    if row.None? || |row.value.studentId| > StudentIdMaxLength {
      return Err(IntegrityViolation), account;
    }
    PutStudentOk(db.tables, id, row.value);
    db.tables := db.tables.(students := db.tables.students[id := row.value]);
    r := Ok(id);
  }

  // ---- UserUpdateSerializer ----

  /** The account columns `update` may assign with `setattr`. */
  datatype UserField = EmailField | FullNameField | DobField | GenderField | AddressField | PhoneField

  function Get(u: User, f: UserField): string
  {
    match f
    case EmailField => u.email
    case FullNameField => u.fullName
    case DobField => u.dob
    case GenderField => u.gender
    case AddressField => u.address
    case PhoneField => u.phone
  }

  /** `setattr(user, f, x)`. */
  function Set(u: User, f: UserField, x: string): (v: User)
    ensures forall g :: Get(v, g) == if g == f then x else Get(u, g)
    ensures v.password == u.password && v.identification == u.identification && v.role == u.role
    ensures v.isStaff == u.isStaff && v.isSuperuser == u.isSuperuser
  {
    match f
    case EmailField => u.(email := x)
    case FullNameField => u.(fullName := x)
    case DobField => u.(dob := x)
    case GenderField => u.(gender := x)
    case AddressField => u.(address := x)
    case PhoneField => u.(phone := x)
  }

  /** The value the last assignment to `f` in `items` leaves, `d` when there is none. */
  function LastAssigned(items: seq<(UserField, string)>, f: UserField, d: string): string
  {
    if items == [] then d
    else if items[|items| - 1].0 == f then items[|items| - 1].1
    else LastAssigned(items[..|items| - 1], f, d)
  }

  /** The account once every assignment in `items` has been made. */
  function Assigned(u: User, items: seq<(UserField, string)>): (v: User)
    ensures forall f :: Get(v, f) == LastAssigned(items, f, Get(u, f))
    ensures v.password == u.password && v.identification == u.identification && v.role == u.role
    ensures v.isStaff == u.isStaff && v.isSuperuser == u.isSuperuser
  {
    u.(email := LastAssigned(items, EmailField, u.email), fullName := LastAssigned(items, FullNameField, u.fullName),
       dob := LastAssigned(items, DobField, u.dob), gender := LastAssigned(items, GenderField, u.gender),
       address := LastAssigned(items, AddressField, u.address), phone := LastAssigned(items, PhoneField, u.phone))
  }

  /** The `for attr, value in validated_data.items(): setattr(user, attr, value)`
      loop: each column ends with the last value assigned to it, every other
      part of the account is kept. */
  method SetAttributes(u: User, items: seq<(UserField, string)>) returns (v: User)
    ensures v == Assigned(u, items)
    ensures forall f :: Get(v, f) == LastAssigned(items, f, Get(u, f))
    ensures v.password == u.password && v.identification == u.identification && v.role == u.role
    ensures v.isStaff == u.isStaff && v.isSuperuser == u.isSuperuser
  {
    v := u;
    var i := 0;
    while i < |items|
      invariant 0 <= i <= |items|
      invariant forall f :: Get(v, f) == LastAssigned(items[..i], f, Get(u, f))
      invariant v.password == u.password && v.identification == u.identification && v.role == u.role
      invariant v.isStaff == u.isStaff && v.isSuperuser == u.isSuperuser
    {
      assert items[..i + 1][..i] == items[..i];
      v := Set(v, items[i].0, items[i].1);
      i := i + 1;
    }
    assert items[..|items|] == items;
    assert Get(v, EmailField) == Get(Assigned(u, items), EmailField);
    assert Get(v, FullNameField) == Get(Assigned(u, items), FullNameField);
    assert Get(v, DobField) == Get(Assigned(u, items), DobField);
    assert Get(v, GenderField) == Get(Assigned(u, items), GenderField);
    assert Get(v, AddressField) == Get(Assigned(u, items), AddressField);
    assert Get(v, PhoneField) == Get(Assigned(u, items), PhoneField);
  }

  /** The fields of `UserUpdateSerializer` as parsed; `None` is a field the
      request did not supply. */
  datatype AccountUpdate = AccountUpdate(
    oldPassword: Option<string>,
    newPassword: Option<string>,
    email: Option<string>,
    fullName: Option<string>,
    dob: Option<string>,
    gender: Option<string>,
    address: Option<string>,
    phone: Option<string>,
    certificate: Option<string>,
    degree: Option<string>,
    studentId: Option<string>,
    university: Option<string>,
    faculty: Option<string>,
    major: Option<string>,
    academicYear: Option<int>)

  /** `trim_whitespace` of the `CharField`s and the `EmailField` of
      `UserUpdateSerializer`; the date and the year are not strings. */
  function TrimUpdate(d: AccountUpdate): AccountUpdate
  {
    d.(oldPassword := TrimOpt(d.oldPassword), newPassword := TrimOpt(d.newPassword), email := TrimOpt(d.email),
       fullName := TrimOpt(d.fullName), gender := TrimOpt(d.gender), address := TrimOpt(d.address),
       phone := TrimOpt(d.phone), certificate := TrimOpt(d.certificate), degree := TrimOpt(d.degree),
       studentId := TrimOpt(d.studentId), university := TrimOpt(d.university), faculty := TrimOpt(d.faculty),
       major := TrimOpt(d.major))
  }

  /** The field errors of `UserUpdateSerializer`, in field order. Its
      `validate_identification` never runs: the serializer has no such field. */
  function UpdateFieldErrors(d: AccountUpdate): (es: seq<Error>)
    ensures es == [] <==>
              && (d.newPassword.Some? ==> PasswordShape(Strip(d.newPassword.value)))
              && (d.email.Some? ==> EmailShape(Strip(d.email.value)))
              && (d.studentId.Some? ==> DigitString(Strip(d.studentId.value), StudentIdDigits))
  {
    (if d.newPassword.Some? then ErrorOf(ValidatePassword(d.newPassword)) else [])
    + (if d.email.Some? then ErrorOf(ValidateEmail(d.email)) else [])
    + (if d.studentId.Some? then ErrorOf(ValidateStudentId(d.studentId)) else [])
  }

  function Item(f: UserField, o: Option<string>): seq<(UserField, string)>
  {
    if o.Some? then [(f, o.value)] else []
  }

  /** What is left of `validated_data` for the `setattr` loop that reaches a
      column, in field order. The passwords never do: `new_password` is popped
      when both are given, and `old_password`, or a lone `new_password`,
      becomes a plain attribute that `save` ignores. */
  function UpdateItems(d: AccountUpdate): seq<(UserField, string)>
  {
    Item(EmailField, d.email) + Item(FullNameField, d.fullName) + Item(DobField, d.dob)
    + Item(GenderField, d.gender) + Item(AddressField, d.address) + Item(PhoneField, d.phone)
  }

  function Supplied(d: AccountUpdate, f: UserField): Option<string>
  {
    match f
    case EmailField => d.email
    case FullNameField => d.fullName
    case DobField => d.dob
    case GenderField => d.gender
    case AddressField => d.address
    case PhoneField => d.phone
  }

  lemma {:induction false} LastAssignedConcat(a: seq<(UserField, string)>, b: seq<(UserField, string)>,
                                              f: UserField, x: string)
    ensures LastAssigned(a + b, f, x) == LastAssigned(b, f, LastAssigned(a, f, x))
  {
    if b == [] {
      assert a + b == a;
    } else {
      assert (a + b)[..|a + b| - 1] == a + b[..|b| - 1];
      LastAssignedConcat(a, b[..|b| - 1], f, x);
    }
  }

  lemma LastAssignedItem(g: UserField, o: Option<string>, f: UserField, x: string)
    ensures LastAssigned(Item(g, o), f, x) == if g == f && o.Some? then o.value else x
  {
    if o.Some? {
      assert Item(g, o)[..0] == [];
    }
  }

  /** Each column ends with the value the request supplied for it, or keeps
      its old value. */
  lemma UpdateItemsAssign(d: AccountUpdate, f: UserField, x: string)
    ensures LastAssigned(UpdateItems(d), f, x) == OrElse(Supplied(d, f), x)
  {
    var i1, i2, i3 := Item(EmailField, d.email), Item(FullNameField, d.fullName), Item(DobField, d.dob);
    var i4, i5, i6 := Item(GenderField, d.gender), Item(AddressField, d.address), Item(PhoneField, d.phone);
    LastAssignedConcat(i1, i2, f, x);
    LastAssignedConcat(i1 + i2, i3, f, x);
    LastAssignedConcat(i1 + i2 + i3, i4, f, x);
    LastAssignedConcat(i1 + i2 + i3 + i4, i5, f, x);
    LastAssignedConcat(i1 + i2 + i3 + i4 + i5, i6, f, x);
    var y1 := LastAssigned(i1, f, x);
    LastAssignedItem(EmailField, d.email, f, x);
    var y2 := LastAssigned(i2, f, y1);
    LastAssignedItem(FullNameField, d.fullName, f, y1);
    var y3 := LastAssigned(i3, f, y2);
    LastAssignedItem(DobField, d.dob, f, y2);
    var y4 := LastAssigned(i4, f, y3);
    LastAssignedItem(GenderField, d.gender, f, y3);
    var y5 := LastAssigned(i5, f, y4);
    LastAssignedItem(AddressField, d.address, f, y4);
    LastAssignedItem(PhoneField, d.phone, f, y5);
  }

  /** The password handling of `update`: `set_password` runs only when both
      the old and the new password were supplied. */
  function UpdatedPassword(u: User, d: AccountUpdate, hash: string -> string): (p: Hashed)
    ensures p != u.password ==> d.oldPassword.Some? && d.newPassword.Some?
  {
    if d.oldPassword.Some? && d.newPassword.Some? then Hashed(hash(d.newPassword.value)) else u.password
  }

  /** The account `update` hands to `save`: the password handled first, then
      each supplied column replaced and everything else kept. */
  function UpdatedUser(u: User, d: AccountUpdate, hash: string -> string): (v: User)
    ensures forall f :: Get(v, f) == OrElse(Supplied(d, f), Get(u, f))
    ensures v.password == UpdatedPassword(u, d, hash)
    ensures v.identification == u.identification && v.role == u.role
    ensures v.isStaff == u.isStaff && v.isSuperuser == u.isSuperuser
  {
    var w := u.(password := UpdatedPassword(u, d, hash));
    forall f ensures Get(Assigned(w, UpdateItems(d)), f) == OrElse(Supplied(d, f), Get(u, f)) {
      UpdateItemsAssign(d, f, Get(w, f));
    }
    Assigned(w, UpdateItems(d))
  }

  /** `user.save()` succeeds: the email stays unique and every column fits its width. */
  predicate Savable(users: map<UserId, User>, id: UserId, v: User)
  {
    && (forall w :: w in users && w != id ==> users[w].email != v.email)
    && FitsColumns(v)
  }

  /** `new if new else old`: a profile field is replaced only by a truthy value. */
  function KeepIfEmpty(o: Option<string>, current: string): (s: string)
    ensures s == current || TruthyStr(o)
    ensures TruthyStr(o) ==> s == o.value
  {
    if TruthyStr(o) then o.value else current
  }

  function MergeStudent(p: StudentProfile, d: AccountUpdate): (q: StudentProfile)
    ensures q.studentId == KeepIfEmpty(d.studentId, p.studentId)
    ensures q.university == KeepIfEmpty(d.university, p.university)
    ensures q.faculty == KeepIfEmpty(d.faculty, p.faculty)
    ensures q.major == KeepIfEmpty(d.major, p.major)
    ensures q.academicYear == if TruthyInt(d.academicYear) then d.academicYear.value else p.academicYear
  {
    StudentProfile(
      KeepIfEmpty(d.studentId, p.studentId),
      KeepIfEmpty(d.university, p.university),
      KeepIfEmpty(d.faculty, p.faculty),
      KeepIfEmpty(d.major, p.major),
      if TruthyInt(d.academicYear) then d.academicYear.value else p.academicYear)
  }

  /** Merging is idempotent, and a request with no truthy profile value
      leaves the profile as it was. */
  lemma MergeStudentLaws(p: StudentProfile, d: AccountUpdate)
    ensures MergeStudent(MergeStudent(p, d), d) == MergeStudent(p, d)
    ensures (!TruthyStr(d.studentId) && !TruthyStr(d.university) && !TruthyStr(d.faculty)
             && !TruthyStr(d.major) && !TruthyInt(d.academicYear)) ==> MergeStudent(p, d) == p
  {
  }

  /** What `update_user_instance` does to the tables `t`, giving `t'` and the
      answer `r`: the profile of the account's role takes each truthy value
      and keeps its old value otherwise; a missing profile, or a student id
      too long for its column, fails the request and changes nothing. */
  ghost predicate ProfileUpdated(t: Tables, t': Tables, id: UserId, d: AccountUpdate, r: Result<User>)
    requires id in t.users
  {
    var u := t.users[id];
    match u.role
    case Administrator =>
      t' == t && r == (if id in t.administrators then Ok(u) else Err(MissingProfile))
    case Manager =>
      if id !in t.managers then t' == t && r == Err(MissingProfile)
      else t' == t.(managers := t.managers[id := KeepIfEmpty(d.certificate, t.managers[id])]) && r == Ok(u)
    case Specialist =>
      if id !in t.specialists then t' == t && r == Err(MissingProfile)
      else t' == t.(specialists := t.specialists[id := KeepIfEmpty(d.degree, t.specialists[id])]) && r == Ok(u)
    case Student =>
      if id !in t.students then t' == t && r == Err(MissingProfile)
      else if |MergeStudent(t.students[id], d).studentId| > StudentIdMaxLength then
        t' == t && r == Err(IntegrityViolation)
      else t' == t.(students := t.students[id := MergeStudent(t.students[id], d)]) && r == Ok(u)
  }

  /** Once trimmed, an update that passes the field validators never makes
      a stored student id too long for its column: a supplied id is exactly
      ten digits, and an empty or missing one keeps the stored id. */
  lemma TrimmedUpdateFits(t: Tables, id: UserId, raw: AccountUpdate)
    requires TablesOk(t) && id in t.students
    requires UpdateFieldErrors(TrimUpdate(raw)) == []
    ensures |MergeStudent(t.students[id], TrimUpdate(raw)).studentId| <= StudentIdMaxLength
  {
    if raw.studentId.Some? {
      StripIdempotent(raw.studentId.value);
    }
  }

  /** The fields trim their input, then `update` followed by
      `update_user_instance`. The account is saved first; the profile of the account's role is then merged, and a
      missing profile fails the request with the account already saved.
      Profiles of the other roles are never touched. */
  method UpdateAccount(db: Database, id: UserId, raw: AccountUpdate, hash: string -> string) returns (r: Result<User>)
    requires db.Valid() && id in db.tables.users
    modifies db`tables
    ensures db.Valid()
    ensures var d := TrimUpdate(raw);
            UpdateFieldErrors(d) != [] ==> r == Err(FieldErrors(UpdateFieldErrors(d))) && db.tables == old(db.tables)
    ensures var d := TrimUpdate(raw);
            UpdateFieldErrors(d) == [] ==>
              var t := old(db.tables);
              var v := UpdatedUser(t.users[id], d, hash);
              if Savable(t.users, id, v) then ProfileUpdated(t.(users := t.users[id := v]), db.tables, id, d, r)
              else r == Err(IntegrityViolation) && db.tables == t
  {
    var d := TrimUpdate(raw);
    var errors := UpdateFieldErrors(d);
    if errors != [] {
      return Err(FieldErrors(errors));
    }
    var u := db.tables.users[id];
    var withPassword := u.(password := UpdatedPassword(u, d, hash));
    var v := SetAttributes(withPassword, UpdateItems(d));
    if !Savable(db.tables.users, id, v) {
      return Err(IntegrityViolation);
    }
    PutUserOk(db.tables, id, v);
    db.tables := db.tables.(users := db.tables.users[id := v]);
    r := UpdateProfile(db, id, d);
    if r.Ok? {
      r := Ok(v);
    }
  }

  /** `update_user_instance`: the profile of the account's role takes each
      truthy new value and keeps its old value otherwise. */
  method UpdateProfile(db: Database, id: UserId, d: AccountUpdate) returns (r: Result<User>)
    requires db.Valid() && id in db.tables.users
    modifies db`tables
    ensures db.Valid()
    ensures ProfileUpdated(old(db.tables), db.tables, id, d, r)
  {
    var t := db.tables;
    match t.users[id].role
    case Administrator =>
      r := if id in t.administrators then Ok(t.users[id]) else Err(MissingProfile);
    case Manager =>
      if id !in t.managers {
        return Err(MissingProfile);
      }
      var certificate := KeepIfEmpty(d.certificate, t.managers[id]);
      PutManagerOk(t, id, certificate);
      db.tables := t.(managers := t.managers[id := certificate]);
      r := Ok(t.users[id]);
    case Specialist =>
      if id !in t.specialists {
        return Err(MissingProfile);
      }
      var degree := KeepIfEmpty(d.degree, t.specialists[id]);
      PutSpecialistOk(t, id, degree);
      db.tables := t.(specialists := t.specialists[id := degree]);
      r := Ok(t.users[id]);
    case Student =>
      if id !in t.students {
        return Err(MissingProfile);
      }
      var merged := MergeStudent(t.students[id], d);
      if |merged.studentId| > StudentIdMaxLength {
        return Err(IntegrityViolation);
      }
      PutStudentOk(t, id, merged);
      db.tables := t.(students := t.students[id := merged]);
      r := Ok(t.users[id]);
  }
}

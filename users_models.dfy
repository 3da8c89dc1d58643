/** The identity model: roles, genders, the user row and the four
    role-specific profile rows, with the lookups the User model defines. */
module UserModels {
  import opened Common
  import opened PyText

  type UserId = nat

  datatype Role = Administrator | Specialist | Manager | Student

  /** The value stored in `User.role` for each role. */
  function RoleValue(r: Role): string
  {
    match r
    case Administrator => "AD"
    case Specialist => "SPC"
    case Manager => "MAG"
    case Student => "STU"
  }

  /** The label Django shows for each role. */
  function RoleLabel(r: Role): string
  {
    match r
    case Administrator => "Administrator"
    case Specialist => "Chuyên viên cộng tác sinh viên"
    case Manager => "Quản lý"
    case Student => "Sinh viên"
  }

  /** `Role.values` and `Role.labels`, in declaration order. */
  const RoleValues: seq<string> := ["AD", "SPC", "MAG", "STU"]
  const RoleLabels: seq<string> := ["Administrator", "Chuyên viên cộng tác sinh viên", "Quản lý", "Sinh viên"]
  const Roles: seq<Role> := [Administrator, Specialist, Manager, Student]

  const DefaultRole: Role := Student

  /** `Gender.values` and `Gender.labels`; a user's gender is stored as its value string. */
  const GenderValues: seq<string> := ["M", "F", "U"]
  const GenderLabels: seq<string> := ["Nam", "Nữ", "Khác"]
  const GenderMale: string := "M"
  const GenderFemale: string := "F"
  const GenderUnknown: string := "U"
  const DefaultGender: string := GenderUnknown

  /** Column widths the database enforces (`EmailField` defaults to 254). */
  const EmailMaxLength: nat := 254
  const FullNameMaxLength: nat := 255
  const GenderMaxLength: nat := 1
  const AddressMaxLength: nat := 255
  const PhoneMaxLength: nat := 15
  const IdentificationMaxLength: nat := 12
  const StudentIdMaxLength: nat := 10

  /** `make_password`'s output: a stored password is never a plain string. */
  datatype Hashed = Hashed(digest: string)

  datatype User = User(
    email: string,
    password: Hashed,
    fullName: string,
    dob: string,
    gender: string,
    address: string,
    phone: string,
    identification: string,
    role: Role,
    isStaff: bool,
    isSuperuser: bool)

  /** Every text column of the account fits its `max_length`. */
  predicate FitsColumns(u: User)
  {
    && |u.email| <= EmailMaxLength && |u.fullName| <= FullNameMaxLength
    && |u.gender| <= GenderMaxLength && |u.address| <= AddressMaxLength
    && |u.phone| <= PhoneMaxLength && |u.identification| <= IdentificationMaxLength
  }

  datatype StudentProfile = StudentProfile(
    studentId: string, university: string, faculty: string, major: string, academicYear: int)

  lemma RoleTables()
    ensures |RoleValues| == |RoleLabels| == |Roles| == 4
    ensures forall i :: 0 <= i < 4 ==> RoleValues[i] == RoleValue(Roles[i]) && RoleLabels[i] == RoleLabel(Roles[i])
    ensures forall r: Role :: r in Roles
    ensures DefaultRole == Student && DefaultGender in GenderValues && |GenderValues| == |GenderLabels| == 3
  {
    forall r: Role ensures r in Roles {
      match r
      case Administrator => assert Roles[0] == r;
      case Specialist => assert Roles[1] == r;
      case Manager => assert Roles[2] == r;
      case Student => assert Roles[3] == r;
    }
  }

  /** `User.original_role`: the label at the position of the user's role value. */
  function OriginalRole(u: User): (r: string)
    ensures exists i :: 0 <= i < 4 && RoleValues[i] == RoleValue(u.role) && r == RoleLabels[i]
  {
    var i := IndexOf(RoleValues, RoleValue(u.role));
    assert RoleValue(u.role) in RoleValues by { RoleTables(); }
    RoleLabels[i.value]
  }

  /** `User.original_gender` as written: the gender is looked up in the ROLE
      value list, so `list.index` raises for every gender the column can hold. */
  function OriginalGenderAsWritten(u: User): (r: Result<string>)
    ensures r.Ok? ==> u.gender in RoleValues
  {
    match IndexOf(RoleValues, u.gender)
    case None => Err(ValueNotInList)
    case Some(i) => if i < |GenderLabels| then Ok(GenderLabels[i]) else Err(ValueNotInList)
  }

  /** No gender of at most one character (the column's width) is a role
      value, so `original_gender` fails on every stored user. */
  lemma OriginalGenderAlwaysFails(u: User)
    requires |u.gender| <= GenderMaxLength
    ensures OriginalGenderAsWritten(u) == Err(ValueNotInList)
  {
    assert u.gender !in RoleValues by {
      forall i | 0 <= i < |RoleValues| ensures RoleValues[i] != u.gender {
        assert |RoleValues[i]| >= 2;
      }
    }
  }

  /** `original_gender` as evidently intended: the label at the position of
      the gender in the gender value list. */
  function OriginalGender(u: User): (r: Result<string>)
    ensures r.Ok? <==> u.gender in GenderValues
    ensures forall i :: 0 <= i < |GenderValues| && GenderValues[i] == u.gender ==> r == Ok(GenderLabels[i])
  {
    match IndexOf(GenderValues, u.gender)
    case None => Err(ValueNotInList)
    case Some(i) => Ok(GenderLabels[i])
  }

  /** `get_role_from_string` as written: the lowered input is compared with
      the labels themselves, every one of which starts with a capital letter. */
  function GetRoleFromStringAsWritten(s: string): (r: Option<Role>)
    ensures r.Some? ==> Lower(s) in RoleLabels
  {
    match IndexOf(RoleLabels, Lower(s))
    case None => None
    case Some(i) => Some(Roles[i])
  }

  lemma {:induction false} GetRoleFromStringNeverMatches(s: string)
    ensures GetRoleFromStringAsWritten(s) == None
  {
    forall i | 0 <= i < |RoleLabels| ensures RoleLabels[i] != Lower(s) {
      assert IsAsciiUpper(RoleLabels[i][0]);
      if |s| > 0 {
        LowerHasNoUpper(s, 0);
      }
    }
  }

  /** `get_role_from_string` as evidently intended: the first role, in
      declaration order, whose label equals the input ignoring case
      (`label.lower() == s.lower()` with `PyText.LowerChar` as the case
      folding, see `PyText.LowerEquality`), or `None`. */
  function GetRoleFromString(s: string): (r: Option<Role>)
    ensures r.Some? ==> SameIgnoringCase(RoleLabel(r.value), s)
    ensures r.None? <==> forall role: Role :: !SameIgnoringCase(RoleLabel(role), s)
  {
    if SameIgnoringCase(RoleLabel(Administrator), s) then Some(Administrator)
    else if SameIgnoringCase(RoleLabel(Specialist), s) then Some(Specialist)
    else if SameIgnoringCase(RoleLabel(Manager), s) then Some(Manager)
    else if SameIgnoringCase(RoleLabel(Student), s) then Some(Student)
    else None
  }

  /** Two Vietnamese labels written in capitals, accented letters included,
      find their roles. */
  lemma GetRoleFromCapitals()
    ensures GetRoleFromString("SINH VIÊN") == Some(Student)
    ensures GetRoleFromString("QUẢN LÝ") == Some(Manager)
  {
    forall k | 0 <= k < 9 ensures LowerChar("SINH VIÊN"[k]) == LowerChar(RoleLabel(Student)[k]) {}
    forall k | 0 <= k < 7 ensures LowerChar("QUẢN LÝ"[k]) == LowerChar(RoleLabel(Manager)[k]) {}
  }

  /** Every label names its own role (the four labels differ in length). */
  lemma GetRoleFromLabel(r: Role)
    ensures GetRoleFromString(RoleLabel(r)) == Some(r)
  {
  }
}

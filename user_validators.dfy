/** The field validators of the account serializers (`validate_role`,
    `validate_email`, `validate_password`, `validate_identification`,
    `validate_student_id`) and the shapes their regular expressions accept. */
module UserValidators {
  import opened Common
  import opened PyText
  import opened UserModels

  predicate LocalChar(c: char)
  {
    IsAsciiLetter(c) || IsAsciiDigit(c) || c == '.' || c == '_' || c == '%' || c == '+' || c == '-'
  }

  predicate DomainChar(c: char)
  {
    IsAsciiLetter(c) || IsAsciiDigit(c) || c == '.' || c == '-'
  }

  predicate AllLocal(s: string) { forall k :: 0 <= k < |s| ==> LocalChar(s[k]) }
  predicate AllDomain(s: string) { forall k :: 0 <= k < |s| ==> DomainChar(s[k]) }
  predicate AllLetters(s: string) { forall k :: 0 <= k < |s| ==> IsAsciiLetter(s[k]) }

  /** `t` splits as local part `t[..i]`, `@` at `i`, domain `t[i+1..j]`, `.` at
      `j` and a top-level part `t[j+1..]` of two or more letters, each part
      drawn from its character class. */
  predicate EmailSplit(t: string, i: int, j: int)
  {
    && 0 < i && i + 1 < j && j + 3 <= |t|
    && t[i] == '@' && t[j] == '.'
    && AllLocal(t[..i]) && AllDomain(t[i + 1..j]) && AllLetters(t[j + 1..])
  }

  /** `re.fullmatch(r"^[a-zA-Z0-9._%+-]+@[a-zA-Z0-9.-]+\.[a-zA-Z]{2,}$", t)` succeeds. */
  predicate EmailShape(t: string)
  {
    exists i, j | 0 <= i < |t| && 0 <= j < |t| :: EmailSplit(t, i, j)
  }

  /** A matching address has one way to match: the `@` is its only `@` and the
      `.` before the top-level part is its last `.`. */
  lemma EmailSplitUnique(t: string, i: int, j: int, i': int, j': int)
    requires EmailSplit(t, i, j) && EmailSplit(t, i', j')
    ensures i == i' && j == j'
  {
    if i < i' {
      AtNotAfter(t, i, j, i');
    } else if i' < i {
      AtNotAfter(t, i', j', i);
    }
  }

  lemma AtNotAfter(t: string, i: int, j: int, k: int)
    requires EmailSplit(t, i, j) && i < k < |t|
    ensures t[k] != '@'
  {
    if k < j {
      assert t[i + 1..j][k - i - 1] == t[k];
    } else if k > j {
      assert t[j + 1..][k - j - 1] == t[k];
    }
  }

  /** A matching address has no white space at either end. */
  lemma EmailShapeTrimmed(t: string)
    requires EmailShape(t)
    ensures Trimmed(t)
  {
    var i, j :| 0 <= i < |t| && 0 <= j < |t| && EmailSplit(t, i, j);
    assert t[..i][0] == t[0];
    assert t[j + 1..][|t| - j - 2] == t[|t| - 1];
  }

  /** `validate_role`: only STUDENT passes; `None` and every other role are refused. */
  function ValidateRole(role: Option<Role>): (r: Result<Role>)
    ensures r.Ok? <==> role == Some(Student)
    ensures r.Ok? ==> r.value == Student
    ensures r.Err? ==> r.error == InvalidRole
  {
    if role.None? || role.value != Student then Err(InvalidRole) else Ok(role.value)
  }

  /** `validate_email`: the stripped input must have the address shape; the
      input itself, unstripped, is what passes on. */
  function ValidateEmail(email: Option<string>): (r: Result<string>)
    ensures r.Ok? <==> email.Some? && EmailShape(Strip(email.value))
    ensures r.Ok? ==> r.value == email.value
    ensures r.Err? ==> r.error == InvalidEmail
  {
    if email.None? || !EmailShape(Strip(email.value)) then Err(InvalidEmail) else Ok(email.value)
  }

  /** Surrounding white space never decides `validate_email`: a padded
      address passes exactly when the address does, and passes unchanged. */
  lemma ValidateEmailPadded(a: string, t: string, b: string)
    requires AllSpace(a) && AllSpace(b) && EmailShape(t)
    ensures ValidateEmail(Some(a + t + b)) == Ok(a + t + b)
  {
    EmailShapeTrimmed(t);
    StripOfPadded(a, t, b);
  }

  lemma EmailExamples()
    ensures EmailShape("sv.01@ou.edu.vn")
    ensures !EmailShape("student")
  {
    assert EmailSplit("sv.01@ou.edu.vn", 5, 12);
    forall i, j | 0 <= i < 7 && 0 <= j < 7 ensures !EmailSplit("student", i, j) {
      assert "student"[i] != '@';
    }
  }

  /** `re.fullmatch(r"^.{8,}$", t)`: eight or more characters, none a newline
      (Python's `.` does not match `\n`). */
  predicate PasswordShape(t: string)
  {
    |t| >= 8 && forall k :: 0 <= k < |t| ==> t[k] != '\n'
  }

  function ValidatePassword(password: Option<string>): (r: Result<string>)
    ensures r.Ok? <==> password.Some? && PasswordShape(Strip(password.value))
    ensures r.Ok? ==> r.value == password.value
    ensures r.Err? ==> r.error == InvalidPassword
  {
    if password.None? || !PasswordShape(Strip(password.value)) then Err(InvalidPassword) else Ok(password.value)
  }

  /** The length rule counts only what lies between the surrounding white space. */
  lemma ValidatePasswordPadded(a: string, t: string, b: string)
    requires AllSpace(a) && AllSpace(b) && Trimmed(t)
    ensures ValidatePassword(Some(a + t + b)).Ok? <==> PasswordShape(t)
  {
    StripOfPadded(a, t, b);
  }

  /** `re.fullmatch(r"^[0-9]{n}$", t)`: exactly `n` ASCII digits. */
  predicate DigitString(t: string, n: nat)
  {
    |t| == n && forall k :: 0 <= k < |t| ==> IsAsciiDigit(t[k])
  }

  const IdentificationDigits: nat := 12
  const StudentIdDigits: nat := 10

  function ValidateIdentification(identification: Option<string>): (r: Result<string>)
    ensures r.Ok? <==> identification.Some? && DigitString(Strip(identification.value), IdentificationDigits)
    ensures r.Ok? ==> r.value == identification.value
    ensures r.Err? ==> r.error == InvalidIdentification
  {
    if identification.None? || !DigitString(Strip(identification.value), IdentificationDigits) then
      Err(InvalidIdentification)
    else
      Ok(identification.value)
  }

  /** `validate_student_id`: a missing id passes, a present one must be ten digits once stripped. */
  function ValidateStudentId(studentId: Option<string>): (r: Result<Option<string>>)
    ensures r.Ok? <==> studentId.None? || DigitString(Strip(studentId.value), StudentIdDigits)
    ensures r.Ok? ==> r.value == studentId
    ensures r.Err? ==> r.error == InvalidStudentId
  {
    if studentId.Some? && !DigitString(Strip(studentId.value), StudentIdDigits) then Err(InvalidStudentId)
    else Ok(studentId)
  }

  /** A digit string is its own strip, so an unpadded value of the right
      number of digits passes, and then fits its column. */
  lemma DigitStringIsStripped(t: string, n: nat)
    requires DigitString(t, n)
    ensures Strip(t) == t
  {
    assert !IsSpace('0') && !IsSpace('9');
    assert Trimmed(t);
    assert t == [] + t + [];
    StripOfPadded([], t, []);
  }

  lemma IdentificationUnpadded(t: string)
    requires DigitString(t, IdentificationDigits)
    ensures ValidateIdentification(Some(t)) == Ok(t) && |t| <= IdentificationMaxLength
  {
    DigitStringIsStripped(t, IdentificationDigits);
  }

  lemma StudentIdUnpadded(t: string)
    requires DigitString(t, StudentIdDigits)
    ensures ValidateStudentId(Some(t)) == Ok(Some(t)) && |t| <= StudentIdMaxLength
  {
    DigitStringIsStripped(t, StudentIdDigits);
  }
}

/** Shared vocabulary: optional values, results with the backend's error kinds,
    the loosely typed values of request data, and identifier generation. */
module Common {

  datatype Option<T> = None | Some(value: T)

  /** The outcome of an endpoint or a validator: a value, or the error the
      backend reports (an HTTP 400/404 response or an exception it raises). */
  datatype Result<T> = Ok(value: T) | Err(error: Error)

  datatype Error =
    // permission layer
    | Forbidden                 // a permission class denied the request
    // lookups
    | NotFound                  // get_object / get_object_or_404
    | MissingProfile            // request.user.student / .specialist does not exist
    | MissingBed                // rental_contact.bed is None
    | InvalidReference          // a related-field primary key names no row
    | AnonymousCaller           // an ORM call made with the anonymous user
    // rental workflow
    | AlreadyRented | GenderNotSet | GenderMismatch
    | AlreadyProcessed | NotConfirmed | AlreadyPaid | RoomFull
    | DuplicateBill | DuplicatePostRoom
    // registration and account validators
    | InvalidRole | InvalidEmail | InvalidPassword | InvalidIdentification | InvalidStudentId
    | CertificateRequired | DegreeRequired | StudentInfoRequired
    | FieldErrors(errors: seq<Error>)      // every field validator that failed, in field order
    | FieldRequired                        // a required serializer field was not supplied
    | EmailRequired | PasswordRequired
    | InvalidUser | InvalidAccount
    // runtime errors
    | ValueNotInList            // list.index raised ValueError
    | KeyNotFound               // dict.pop raised KeyError
    | IntegrityViolation        // the database refused the row (NOT NULL, UNIQUE, length)

  /** A value of request data once parsed by a serializer field. */
  datatype Value = VNull | VStr(s: string) | VInt(i: int) | VReal(r: real) | VBool(b: bool)
                 | VObj(fields: map<string, Value>) | VList(items: seq<Value>)

  /** Python truthiness of an optional string or integer (None, "" and 0 are false). */
  predicate TruthyStr(o: Option<string>) { o.Some? && o.value != "" }
  predicate TruthyInt(o: Option<int>) { o.Some? && o.value != 0 }

  /** Python truthiness of a request value. */
  predicate Truthy(v: Value)
  {
    match v
    case VNull => false
    case VStr(s) => s != ""
    case VInt(i) => i != 0
    case VReal(r) => r != 0.0
    case VBool(b) => b
    case VObj(m) => m != map[]
    case VList(xs) => xs != []
  }

  /** `uuid.uuid4()` and the database's primary-key sequence: an identifier
      that no existing row uses. */
  method FreshId(used: set<nat>) returns (r: nat)
    ensures r !in used
  {
    var rest := used;
    r := 0;
    while rest != {}
      invariant rest <= used
      invariant forall k :: k in used && k !in rest ==> k < r
      decreases |rest|
    {
      var k :| k in rest;
      if r <= k {
        r := k + 1;
      }
      rest := rest - {k};
    }
  }
}

# Dormitory rental workflow, modelled in Dafny

This project models the rental core of a dormitory management backend (a
Django REST service). Students rent beds in rooms. Specialists confirm or
reject the rental contracts and issue one bill per confirmed contract.
Managers and administrators are the other two roles. Posts advertise rooms
and can be liked.

The store is one class, `Store.Database`. It holds all tables as one
`Integrity.Tables` value, with one map per table: users, the four profile
tables, rooms, beds, posts, likes, contracts, bills. Each write replaces
that value. `Integrity.TablesOk` collects the constraints the schema and
the workflow keep, and `Database.Valid()` is `TablesOk` of the current
tables:
- unique email and identification;
- column widths;
- every reference points at an existing row;
- unique rental and bill numbers;
- one post per room;
- one bill per contract;
- no student holds two contracts on the same bed.

Every endpoint is a method over the store and preserves `Valid()`. It
first runs the view's permission check, then the handler's guards in
source order. Each method's ensures states the outcome of every guard and
the whole new state: the old tables with the named tables replaced. Each
kind of write has a lemma in `Integrity` that states the conditions under
which it keeps `TablesOk`. Pure parts are functions with the lemmas that relate
them:
- the validators;
- permission dispatch;
- the like counters;
- the contract representation;
- field-name restriction;
- profile merging.

Modules follow the source files:

| module | source file |
|---|---|
| `UserModels` | users/models.py |
| `Managers` | users/managers.py |
| `UserValidators`, `UserSerializers` | users/serializers.py |
| `Validations` | utils/validations.py |
| `Factory` | utils/factory.py |
| `Perms` | base/perms.py |
| `BaseSerializers` | base/serializers.py |
| `RentalModels`, `Store` | rental/models.py, with the referential actions of its links |
| `Integrity` | the unique, foreign-key and width constraints of users/models.py, rental/models.py and interacts/models.py |
| `RentalSerializers` | rental/serializers.py |
| `RentalViews` | rental/views.py |

`PyText` holds the parts of Python's `str.strip`, `str.lower` and
`list.index` that the source relies on. `Common` holds the result and
error types and fresh-identifier generation.

Outside inputs become parameters:
- the constants of utils/constants.py are a `Config` value;
- `make_password` and `normalize_email` are function parameters;
- the request's user is a `Principal`;
- the current time of `create_superuser` is a string parameter.

A UUID or primary key is "a number no existing row uses" (`Common.FreshId`).

Each profile row is keyed by the id of the user it belongs to. The
student and specialist references of contracts and bills are those user
ids too. In the source every profile table has its own auto-increment
primary key beside the one-to-one `user` link (users/models.py:78-94).

The schema follows the last migration: a contract's `bed` is a nullable
foreign key (rental/migrations/0007_alter_rentalcontact_bed.py:17), not
the one-to-one field the model class declares. One bed can therefore carry
several contracts. The rule that a student never holds two contracts on
the same bed is kept by `rent_bed`'s own check and is part of `Valid()`.

Two points about the code's behaviour:
- It is `confirm` that answers a non-PROCESSING contract with status 400
  and the text "approved successfully"; `reject` goes through
  `update_status`. The model treats confirm's answer as the error
  `AlreadyProcessed`.
- Bill creation looks the contract up among all contracts, including
  deactivated ones (`get_object_or_404` on the model class).

## Model

| member | source | states |
|---|---|---|
| UserModels.RoleTables | users/models.py:10-29 | four roles AD, SPC, MAG, STU paired position by position with their labels; the default role is STUDENT; three genders with the default UNKNOWN |
| UserModels.OriginalRole | users/models.py:44-46 | the result is the label standing at the position of the user's role value |
| UserModels.OriginalGenderAsWritten | users/models.py:48-50 | the lookup can only succeed for a gender that is a role value |
| UserModels.OriginalGenderAlwaysFails | users/models.py:48-50 | for every gender that fits the one-character column, `original_gender` raises ValueError |
| UserModels.OriginalGender | users/models.py:48-50 | corrected: succeeds exactly for the three gender values, giving the label at the gender's position |
| UserModels.GetRoleFromStringAsWritten | users/models.py:52-59 | a role is returned only if the lowered input is one of the labels |
| UserModels.GetRoleFromStringNeverMatches | users/models.py:52-59 | as written, every input gives None: each label starts with a capital letter and a lowered string has none |
| UserModels.GetRoleFromString | users/models.py:52-59 | corrected: returns a role whose label equals the input ignoring case, and None exactly when no label does |
| UserModels.GetRoleFromLabel | users/models.py:52-59 | corrected lookup of each role's own label gives back that role |
| UserModels.GetRoleFromCapitals | users/models.py:52-59 | corrected lookup: "SINH VIÊN" and "QUẢN LÝ", accented capitals included, find STUDENT and MANAGER, as `str.lower` makes them match |
| PyText.StripCore | users/serializers.py:85 | `strip` keeps a slice of its input whose ends are not white space and whose surroundings are all white space |
| PyText.StripOfPadded | users/serializers.py:85 | whatever white space surrounds a trimmed core, stripping gives back exactly that core |
| PyText.StripIdempotent | users/serializers.py:97 | stripping a value the field has already trimmed changes nothing |
| PyText.LowerEquality | users/models.py:54 | comparing lowered strings is the same as comparing character by character ignoring case |
| PyText.IndexOf | users/models.py:46 | `list.index`: None exactly when the value is absent, otherwise the first position holding it |
| Validations.CheckUserRole | utils/validations.py:23-35 | refuses every non-user with InvalidAccount; for each role gives a profile type and that type's accessor name |
| Validations.CheckUserInstance | utils/validations.py:8-20 | refuses everything but a profile object with InvalidUser; keeps the profile's type |
| Validations.TablesAgree | utils/validations.py:13-35 | the profile type chosen for a role maps back to that role, and conversely |
| Perms.ExactlyOneRoleClass | base/perms.py:18-31 | for an authenticated user exactly one of IsAdmin, IsManager, IsSpecialist, IsStudent holds |
| Perms.AnonymousDenied | base/perms.py:6-15 | the anonymous user passes no role class and owns no comment |
| Managers.NewUserRow | users/managers.py:15 | stored email is the normalized stripped input, stored password is the hash, role and gender take their defaults when not given |
| Managers.CreateUser | users/managers.py:8-17 | empty or missing email fails first, then empty or missing password; otherwise one new user row exactly when the row is admissible (a date of birth, a unique email and identification, and email, full name, gender, address, phone and identification within their column widths), and IntegrityViolation with no change when it is not |
| Managers.SuperuserDefaults | users/managers.py:20-24 | staff, superuser, full name, date of birth and role get defaults, and a caller's value always wins |
| Managers.CreateSuperuser | users/managers.py:19-30 | create_user's failures in its order on the defaulted fields: EmailRequired, then PasswordRequired, then success exactly when the row with the superuser defaults is admissible (uniqueness and every column width included) and IntegrityViolation otherwise, with no change; on success the new user and exactly one new Administrator profile for it |
| UserValidators.ValidateRole | users/serializers.py:78-82 | accepts exactly STUDENT; None and every other role fail with InvalidRole |
| UserValidators.EmailSplitUnique | users/serializers.py:85 | an address matches the email pattern in only one way |
| UserValidators.EmailShapeTrimmed | users/serializers.py:85 | a matching address has no white space at either end |
| UserValidators.ValidateEmail | users/serializers.py:84-88 | accepts exactly the inputs whose stripped form has the address shape, and returns the input unchanged |
| UserValidators.ValidateEmailPadded | users/serializers.py:84-88 | an address padded with white space passes and is returned padded |
| UserValidators.EmailExamples | users/serializers.py:85 | "sv.01@ou.edu.vn" matches the pattern; "student" does not |
| UserValidators.ValidatePassword | users/serializers.py:90-94 | accepts exactly the inputs whose stripped form has eight or more characters and no newline |
| UserValidators.ValidatePasswordPadded | users/serializers.py:90-94 | surrounding white space does not count towards the eight characters |
| UserValidators.ValidateIdentification | users/serializers.py:96-100 | accepts exactly the inputs whose stripped form is twelve ASCII digits |
| UserValidators.ValidateStudentId | users/serializers.py:102-109 | None passes; a given id must be ten ASCII digits once stripped |
| UserValidators.DigitStringIsStripped | users/serializers.py:97 | a digit string is its own strip |
| UserValidators.IdentificationUnpadded | users/serializers.py:96-100 | every twelve-digit string passes and fits the identification column |
| UserValidators.StudentIdUnpadded | users/serializers.py:102-109 | every ten-digit string passes and fits the student id column |
| UserSerializers.RegistrationFieldErrors | users/serializers.py:78-109 | no field error exactly when the required fields are present and each supplied field passes its validator |
| UserSerializers.ValidateRegistration | users/serializers.py:111-134 | a MANAGER needs a truthy certificate, a SPECIALIST a truthy degree, a STUDENT all five student fields; otherwise the data passes unchanged |
| UserSerializers.StudentRow | users/serializers.py:136-151 | a Student row exists exactly when its NOT NULL fields are given, and carries the given values |
| UserSerializers.RegisteredRoleIsStudent | users/serializers.py:67-82 | data that passes the field checks always yields a STUDENT account, with a non-empty email and password |
| UserSerializers.Register | users/serializers.py:56-134 | on the trimmed fields: field errors first, then the role-specific check; an account is created only for data that passes both, from the stripped values, password included |
| UserSerializers.TrimmedRegistrationFits | users/serializers.py:96-109 | once trimmed, an identification and a student id that pass their validators fit their columns |
| UserSerializers.Create | users/serializers.py:56-70 | the profile fields are removed before create_user; a Student profile is created only for a STUDENT account |
| UserSerializers.Set | users/serializers.py:191 | `setattr` changes the named column and no other |
| UserSerializers.Assigned | users/serializers.py:190-191 | after a list of assignments every column holds the last value assigned to it, or its old value, and the rest of the account is kept |
| UserSerializers.SetAttributes | users/serializers.py:190-191 | the loop gives exactly the account of `Assigned`: every column holds the last value assigned to it, or its old value |
| UserSerializers.UpdateFieldErrors | users/serializers.py:198-220 | no error exactly when a supplied email, new password and student id pass their validators |
| UserSerializers.LastAssignedConcat | users/serializers.py:190-191 | the loop over two item lists is the loop over the first followed by the loop over the second |
| UserSerializers.UpdateItemsAssign | users/serializers.py:186-191 | each column ends with the value the request supplied for it, or keeps its old one |
| UserSerializers.UpdatedPassword | users/serializers.py:186-187 | the password changes only when both old and new password are supplied |
| UserSerializers.UpdatedUser | users/serializers.py:176-191 | the account handed to `save` has each supplied column replaced and the others kept, the new password only when both passwords are given, and the same identification and role |
| UserSerializers.KeepIfEmpty | users/serializers.py:229-245 | a profile field is replaced only by a truthy value, which then wins |
| UserSerializers.MergeStudent | users/serializers.py:234-245 | each Student field is the new value when truthy, otherwise the old one |
| UserSerializers.MergeStudentLaws | users/serializers.py:234-245 | merging twice equals merging once; a request with no truthy student value leaves the profile unchanged |
| UserSerializers.UpdateAccount | users/serializers.py:175-196 | on the trimmed fields: field errors change nothing; an account that cannot be saved changes nothing; otherwise the account becomes `UpdatedUser` and the result is the profile update of its role on the new tables |
| UserSerializers.TrimmedUpdateFits | users/serializers.py:235-241 | once trimmed, an update that passes the validators cannot make a stored student id too long |
| UserSerializers.UpdateProfile | users/serializers.py:222-247 | only the profile of the account's role changes, each field to a truthy new value or its old one; a missing profile fails with MissingProfile and a too long student id with IntegrityViolation, and neither changes anything |
| BaseSerializers.Keep | base/serializers.py:11-15 | the names kept are exactly the given names that are allowed |
| BaseSerializers.Drop | base/serializers.py:17-19 | the names left are exactly the given names not excluded |
| BaseSerializers.RemoveFromDrop | base/serializers.py:18-19 | popping one more remaining name is the same as excluding it as well |
| BaseSerializers.PopDisallowed | base/serializers.py:11-15 | the `fields` loop leaves exactly the declared names that are allowed, in declared order; names that do not exist are ignored |
| BaseSerializers.PopExcluded | base/serializers.py:17-19 | the `excludes` loop succeeds exactly when every listed name is still a field and none is listed twice, and then removes exactly those |
| BaseSerializers.RestrictFields | base/serializers.py:5-19 | `fields` is applied before `excludes`; with neither, the fields are unchanged; a bad exclude raises KeyError |
| BaseSerializers.RestrictedNames | base/serializers.py:11-19 | a name survives exactly when it is declared, allowed by `fields` if given, and not excluded |
| Store.Database.SaveRoom | rental/models.py:28-31 | a room without a capacity gets the NORMAL constant when NORMAL and the SERVICE constant otherwise; a set capacity is kept |
| Store.Database.SaveBed | rental/models.py:61-64 | a bed without a price gets the default of its room's type; a set price is kept |
| Store.Database.DeleteBed | rental/models.py:80 | deleting a bed removes it and sets the bed of its contracts to null |
| Store.Database.DeleteRoom | rental/models.py:39-82 | deleting a room removes its beds and its post with their likes, and nulls the bed and room of the affected contracts |
| Store.Database.DeleteContract | rental/models.py:95 | deleting a contract removes its bill |
| Store.Database.DeleteStudent | rental/models.py:81-93 | deleting a student removes their contracts and their bills |
| Store.Database.constructor | rental/models.py:10-95 | the store starts with every table empty, which keeps every constraint |
| Integrity.PutUserOk | users/models.py:21-29 | writing a user keeps the constraints when no other user has its email or identification and every text column fits its width |
| Integrity.SetUserOk | users/models.py:21-29 | changing a user while keeping its unique and width-limited columns keeps the constraints |
| Integrity.AddAdministratorOk | users/models.py:62-63 | an Administrator profile for an existing user keeps the constraints |
| Integrity.PutManagerOk | users/models.py:69-72 | a Manager profile for an existing user keeps the constraints |
| Integrity.PutSpecialistOk | users/models.py:78-81 | a Specialist profile for an existing user keeps the constraints |
| Integrity.PutStudentOk | users/models.py:87-94 | a Student profile for an existing user whose student id fits its column keeps the constraints |
| Integrity.PutRoomOk | rental/models.py:19-31 | a room whose capacity is set keeps the constraints |
| Integrity.PutBedOk | rental/models.py:56-64 | a bed whose price is set and whose room exists keeps the constraints |
| Integrity.PutPostOk | rental/models.py:39 | a post on an existing room that carries no other post keeps the constraints |
| Integrity.SetLikesOk | interacts/models.py:11-21 | a likes table whose every like joins an existing user and post keeps the constraints |
| Integrity.AddContractOk | rental/models.py:76-82 | a new contract with a fresh rental number, existing references and no repeated (student, bed) pair keeps the constraints |
| Integrity.SetContractOk | rental/models.py:76-82 | changing a contract while keeping its rental number and references keeps the constraints |
| Integrity.AddBillOk | rental/models.py:89-95 | a new bill with a fresh number, existing references and a contract not yet billed keeps the constraints |
| Integrity.SetBillOk | rental/models.py:89-95 | an edited bill keeps the constraints when it keeps its number and takes no contract another bill has |
| Integrity.ClearBedsOk | rental/models.py:80 | nulling the bed of the contracts on deleted beds keeps the contract constraints without those beds |
| Integrity.ClearRoomOk | rental/models.py:82 | nulling the room of the contracts on a deleted room keeps the contract constraints without that room |
| Integrity.ReplaceContractOk | rental/models.py:76-82 | rewriting a contract with the same rental number and references keeps the contract constraints |
| Integrity.RemoveBedOk | rental/models.py:56-80 | deleting a bed and nulling the bed of its contracts keeps the constraints |
| Integrity.RemoveRoomOk | rental/models.py:39-82 | deleting a room with its beds, its post and that post's likes, and nulling the bed and room of the affected contracts, keeps the constraints |
| Integrity.RemoveContractOk | rental/models.py:95 | deleting a contract with its bill keeps the constraints |
| Integrity.RemoveStudentOk | rental/models.py:81-93 | deleting a student with their contracts and bills keeps the constraints |
| Integrity.BedsOfAdded | rental/models.py:56 | a new bed joins the beds of its own room, whose count grows by one |
| Factory.UpdateStatus | utils/factory.py:21-28 | a non-PROCESSING contract is left alone with AlreadyProcessed; a PROCESSING one takes exactly the new status and nothing else changes |
| Factory.SetRoleForAccount | utils/factory.py:9-18 | a non-profile is refused; otherwise the account takes the role of the profile's type and no other field changes |
| RentalSerializers.ValidateBed | rental/serializers.py:117-126 | without a room nothing is checked; with one, refused exactly when the room's bed count, inactive beds included, reaches its capacity |
| RentalSerializers.UpdateRoom | rental/serializers.py:25-32 | supplied fields are copied in and the capacity always becomes the default of the resulting room type |
| RentalSerializers.UpdateBed | rental/serializers.py:108-115 | supplied fields are copied in and the price always becomes the default of the type of the bed's room |
| RentalSerializers.ValidatePostRoom | rental/models.py:39 | a new room for a post must exist and carry no other post |
| RentalSerializers.UpdatePost | rental/serializers.py:64-69 | each validated field is copied onto the post and the others are untouched |
| RentalSerializers.BillPatchErrors | rental/serializers.py:152-156 | no error exactly when supplied student, specialist and contract exist and the contract is not billed by another bill |
| RentalSerializers.ActiveLikers | rental/serializers.py:71-72 | the users counted are exactly those whose like of the post is active |
| RentalSerializers.Liked | rental/serializers.py:82-90 | false without a like, otherwise the like's flag |
| RentalSerializers.TotalLikesCountsActive | rental/serializers.py:71-72 | an inactive like, or a like of another post, does not change the count |
| RentalSerializers.ContractData | rental/serializers.py:135-149 | bed and room are nested only when non-null, the student always, and the nested room has no `beds` entry |
| RentalSerializers.ContractDataIgnoresRoomBeds | rental/serializers.py:144-147 | the room's bed list never reaches the representation |
| RentalViews.AnonymousAccess | rental/views.py:32-199 | the anonymous caller may list and retrieve rooms; use beds and posts except writes, renting and posting comments; nothing on contracts or bills |
| RentalViews.StudentAndSpecialistActionsDisjoint | rental/views.py:134-199 | nobody may both rent and manage beds, or both cancel and confirm, or both cancel and bill |
| RentalViews.BedAccess | rental/views.py:134-141 | renting requires STUDENT; create, partial update and destroy require SPECIALIST; list and retrieve are open |
| RentalViews.ContractAccess | rental/views.py:195-199 | cancel requires STUDENT and every other contract action SPECIALIST |
| RentalViews.RentBed | rental/views.py:143-162 | the first failing guard in order decides the error and nothing changes; on success exactly one new PROCESSING contract for the caller and this bed, with the given time, no room and a fresh rental number; a missing `time_rental`, or one wider than its 255-character column, is an IntegrityViolation; no other table changes |
| RentalViews.CancelRental | rental/views.py:201-204 | any student cancels any active PROCESSING contract; any other status gives AlreadyProcessed and no change |
| RentalViews.RejectRental | rental/views.py:221-224 | any specialist rejects an active PROCESSING contract; any other status gives AlreadyProcessed and no change |
| RentalViews.ConfirmRental | rental/views.py:206-219 | after the specialist lookup, a PROCESSING contract becomes SUCCESS; any other status is refused and nothing changes |
| RentalViews.ContractNumbered | rental/views.py:257 | the contract with the given rental number, or none, among all contracts |
| RentalViews.IssueBill | rental/views.py:254-271 | unknown number gives NotFound; non-SUCCESS gives NotConfirmed with no bill; otherwise one UNPAID bill with a fresh number, the contract's student, the caller and the bed's price, unless the contract already has a bill |
| RentalViews.InsertBill | rental/views.py:262-267 | the new bill copies the contract's student and bed price and starts UNPAID with a fresh number |
| RentalViews.PartialUpdateBill | rental/views.py:273-283 | a PAID bill is refused and unchanged; an UNPAID one takes the supplied fields once they pass the related-field checks |
| RentalViews.PatchedBillOk | rental/serializers.py:152-156 | a bill patch that passes its checks keeps the constraints |
| RentalViews.Toggle | rental/views.py:103-106 | the caller's like becomes the negation of what `liked` reported, and no other like changes |
| RentalViews.ToggleTwice | rental/views.py:103-106 | two toggles give back the original flag, and the very same table when the like existed |
| RentalViews.ToggleCount | rental/views.py:101-109 | a toggle moves the post's like count by exactly one, in the direction of the new flag, and no other post's count |
| RentalViews.LikeActivity | rental/views.py:101-109 | on an active post the caller's like is toggled and the answer is the new count and flag; the anonymous caller fails |
| RentalViews.CreateRoom | rental/models.py:28-31 | a new room carries the supplied capacity or, without one, the default of its type |
| RentalViews.PartialUpdateRoom | rental/views.py:38-43 | Forbidden, then NotFound for a missing or inactive room; otherwise the saved room takes the supplied name, type and gender, keeps the rest, and its capacity is the default of the resulting type; only that row changes |
| RentalViews.CreateBed | rental/serializers.py:117-126 | a created bed never takes its room beyond capacity: the room gains exactly this bed, and its count stays within the capacity |
| RentalViews.InsertBed | rental/models.py:61-64 | the new bed gets the default price of its room's type when none is given, and its room gains exactly this bed |
| RentalViews.PartialUpdateBed | rental/views.py:164-169 | Forbidden, then NotFound, then the room check; otherwise the saved bed takes the supplied name, description, status and room, keeps the rest, and its price is the default of its room's type; only that row changes |
| RentalViews.PartialUpdatePost | rental/views.py:111-116 | Forbidden, then NotFound, then the room check; otherwise the saved post takes the supplied name, description and room and keeps the rest; only that row changes |

## Left out

- Electricity and water bills, statistics, violation notices and comments: float arithmetic, date aggregation, or thin create and list wrappers outside the rental workflow.
- Query-parameter filtering, pagination, image and date rewriting in representations, and the `to_representation` of users, posts and bills: presentation only.
- The list, retrieve and destroy endpoints: list and retrieve change nothing. Destroy is modelled by its referential actions (`Store.Database.DeleteBed`, `DeleteRoom`, `DeleteContract`, `DeleteStudent`), without the permission wrapper.
- The response messages, status codes and the serializer output of each endpoint beyond the contract representation and the like counters: each outcome is an `Error` value or the changed rows.
- Password hashing, `check_password` and `normalize_email`: opaque library functions, given as function parameters where needed.
- The old-password check of the account-update view (users/views.py): users/views.py is not part of this model.
- DRF's own field checks (type parsing, `max_length`, `blank`, choice validation, and the Django `EmailValidator` that DRF's `EmailField` runs on the update serializer's `email` and on the field derived from the `email` column): only the "required" check of the required columns and the related-field existence checks are modelled. `trim_whitespace` is modelled (`UserSerializers.TrimRegistration`, `TrimUpdate`). A user-column value longer than a serializer's `max_length` is therefore refused later, with `IntegrityViolation` from the column width instead of a field error, and still before anything is written. `Register` and `UpdateAccount` therefore accept an address that passes the pattern of `validate_email` but not Django's validator, such as "a..b@ou.edu.vn" (two dots in a row), where the source reports a field error. A profile value longer than its `max_length` (certificate, degree, university, faculty, major) is accepted, because profile text columns carry no width in the model.
- The `UniqueValidator`s that `ModelSerializer` derives for the unique `email` and `identification` columns: a duplicate is refused by the database as `IntegrityViolation` rather than as a field error. Nothing is written either way.
- The 128-character `password` column: `make_password` is a parameter, and the width of its output is not modelled.
- A PostgreSQL length error on too long a value is folded into `IntegrityViolation`. The widths checked are those of the user columns (`UserModels.FitsColumns`), the student id and `time_rental`. The text columns of profiles, rooms, beds, posts and bills have no width in the model.
- Profile primary keys: a profile has no id of its own; it is keyed by its user's id. The nested `"student": {"id": …}` of `RentalSerializers.ContractData` therefore shows the student's user id, where the source shows the pk of the `Student` row. The source numbers the two independently.
- UserModels.GetRoleFromString: case folding (`PyText.LowerChar`) covers ASCII, Latin-1, Latin Extended-A, the two Vietnamese letters `Ơ` and `Ư`, and Latin Extended Additional, with U+1E9E (`ẞ`) lowered to `ß`. The one exception in those blocks is U+0130 (`İ`): Python lowers it to two characters ("i" and U+0307), and the model keeps it unchanged. Capitals of other scripts compare as written. None of them, and no part of the lowered U+0130, lowers to a letter of the four labels (none holds U+0307), so the lookup is unaffected.
- Avatars, images and rich-text fields: external storage services.
- `objects = None` on the contract model: Django replaces it with a default manager, so contracts are queried as usual.
- Concurrency and transactions: the source uses none, and the model runs every request sequentially.
- RentalSerializers.UpdateRoom, RentalSerializers.UpdateBed, RentalSerializers.UpdatePost: the `setattr` loop over `validated_data` is modelled by its net effect (each supplied field replaced), because that dictionary has distinct keys. The loop itself is modelled once, in `UserSerializers.SetAttributes`.
- RentalViews.CreateBed: missing required fields and a room that does not exist are reported separately rather than in one combined error list. A missing field is reported first.
- RentalViews.LikeActivity: the failure of `get_or_create` for the anonymous user is modelled as the error `AnonymousCaller`, without its exception type.
- Integrity.ContractsOk: the pairwise rule "no student holds two contracts on the same bed" is not a database constraint. It holds because contracts are only created by `rent_bed`; the admin site, which could bypass it, is not part of this model.
- Bill creation and contract confirmation leave `Bed.status` untouched, as the code does. No transition marks a bed as rented.

## Findings

| source | as written | input that shows it | evidently intended | confidence | as-written member | corrected member |
|---|---|---|---|---|---|---|
| users/models.py:48-50 | `original_gender` looks the gender up in the role value list | any user, e.g. gender "M": "M" is not among AD, SPC, MAG, STU, so `index` raises ValueError | look the gender up in the gender value list and return the label at that position | high (not executed) | UserModels.OriginalGenderAlwaysFails | UserModels.OriginalGender |
| users/models.py:52-59 | `get_role_from_string` compares the lowered input with the labels as they are | "Administrator" (or any other input): its lowered form "administrator" is not a label, and every label starts with a capital letter | compare ignoring case, so that a label selects its role | high (not executed) | UserModels.GetRoleFromStringNeverMatches | UserModels.GetRoleFromString |

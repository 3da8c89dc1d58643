/** The rental endpoints: the permission each view grants per action, and
    the endpoint bodies over the store — renting a bed, the contract
    transitions, issuing and editing bills, the like toggle and the
    inventory edits. Every endpoint first runs its permission check, as the
    framework does before the handler. */
module RentalViews {
  import opened Common
  import opened UserModels
  import opened RentalModels
  import opened Store
  import opened Integrity
  import opened Perms
  import opened Factory
  import opened RentalSerializers

  /** The action names the view sets dispatch on. */
  datatype Action =
    | List | Retrieve | Create | PartialUpdate | Destroy
    | Rent | CancelContract | ConfirmContract | RejectContract | Comments | Like

  datatype HttpMethod = GetMethod | PostMethod

  /** The permission classes a view returns: `AllowAny`, `IsAuthenticated`,
      or one of the role classes. */
  datatype Permission = Open | SignedIn | Only(role: Role)

  predicate Grants(perm: Permission, p: Principal)
  {
    match perm
    case Open => true
    case SignedIn => IsAuthenticated(p)
    case Only(role) => IsA(p, role)
  }

  /** `RoomViewSet.get_permissions`. */
  function RoomPermission(a: Action): Permission
  {
    if a in {List, Retrieve} then Open else Only(Specialist)
  }

  /** `PostViewSet.get_permissions`. */
  function PostPermission(a: Action, m: HttpMethod): Permission
  {
    if a in {Create, PartialUpdate, Destroy} then Only(Specialist)
    else if a == Comments && m == PostMethod then SignedIn
    else Open
  }

  /** `BedViewSet.get_permissions`. */
  function BedPermission(a: Action): Permission
  {
    if a in {Create, PartialUpdate, Destroy} then Only(Specialist)
    else if a == Rent then Only(Student)
    else Open
  }

  /** `RentalContactViewSet.get_permissions`. */
  function ContractPermission(a: Action): Permission
  {
    if a == CancelContract then Only(Student) else Only(Specialist)
  }

  /** `BillRentalContactViewSet.permission_classes`, for every action. */
  const BillPermission: Permission := Only(Specialist)

  /** What the anonymous user may do: read rooms, beds and posts (and like,
      comment-read), and nothing on contracts or bills. */
  lemma AnonymousAccess(a: Action, m: HttpMethod)
    ensures Grants(RoomPermission(a), Anonymous) <==> a == List || a == Retrieve
    ensures Grants(BedPermission(a), Anonymous) <==> a !in {Create, PartialUpdate, Destroy, Rent}
    ensures Grants(PostPermission(a, m), Anonymous) <==>
              a !in {Create, PartialUpdate, Destroy} && !(a == Comments && m == PostMethod)
    ensures !Grants(ContractPermission(a), Anonymous) && !Grants(BillPermission, Anonymous)
  {
  }

  /** The callers who rent and cancel are never the ones who manage beds,
      confirm, reject or bill: the two role classes are disjoint. */
  lemma StudentAndSpecialistActionsDisjoint(p: Principal, a: Action)
    requires a in {Create, PartialUpdate, Destroy}
    ensures !(Grants(BedPermission(Rent), p) && Grants(BedPermission(a), p))
    ensures !(Grants(ContractPermission(CancelContract), p) && Grants(ContractPermission(ConfirmContract), p))
    ensures Grants(ContractPermission(CancelContract), p) ==> !Grants(BillPermission, p)
  {
  }

  /** Bed dispatch: renting takes a student, managing beds a specialist,
      and the read actions are open to everyone. This unfolds the dispatch
      table per caller; it is a restatement, not a derived property. */
  lemma BedAccess(a: Action, p: Principal)
    ensures a == Rent ==> (Grants(BedPermission(a), p) <==> IsStudent(p))
    ensures a in {Create, PartialUpdate, Destroy} ==> (Grants(BedPermission(a), p) <==> IsSpecialist(p))
    ensures a in {List, Retrieve} ==> Grants(BedPermission(a), p)
  {
  }

  /** Contract dispatch: cancelling takes a student, every other action a
      specialist; the contract's owner plays no part. Like `BedAccess`, this
      unfolds the dispatch table per caller. */
  lemma ContractAccess(a: Action, p: Principal)
    ensures Grants(ContractPermission(a), p) <==> (if a == CancelContract then IsStudent(p) else IsSpecialist(p))
  {
  }

  /** The request's user is the stored account it names, with its stored role. */
  predicate Session(db: Database, p: Principal)
    reads db`tables
  {
    p.Authenticated? ==> p.id in db.tables.users && db.tables.users[p.id].role == p.role
  }

  /** Some contract, in any status, joins this student and this bed. */
  predicate Rented(cs: map<ContractId, RentalContract>, student: UserId, bed: BedId)
  {
    exists c | c in cs :: cs[c].student == student && cs[c].bed == Some(bed)
  }

  function RentalNumbers(cs: map<ContractId, RentalContract>): (s: set<Uuid>)
    ensures forall c :: c in cs ==> cs[c].rentalNumber in s
  {
    set c | c in cs :: cs[c].rentalNumber
  }

  function BillNumbers(bills: map<BillId, Bill>): (s: set<Uuid>)
    ensures forall b :: b in bills ==> bills[b].billNumber in s
  {
    set b | b in bills :: bills[b].billNumber
  }

  /** `rent_bed`: the caller's student profile, then the active bed, then
      the three guards in order — no earlier contract for this (student, bed)
      in any status, a known gender, the gender the room is for. A missing
      `time_rental` is refused by the NOT NULL column. A new contract is
      PROCESSING, on this bed, without a room; the bed itself is untouched.
      Nothing validates `time_rental` before the insert, so a value wider than
      its column is refused by the database. */
  method RentBed(db: Database, caller: Principal, bed: BedId, timeRental: Option<string>)
    returns (r: Result<ContractId>)
    requires db.Valid() && Session(db, caller)
    modifies db`tables
    ensures db.Valid()
    ensures db.tables == old(db.tables).(contracts := db.tables.contracts)
    ensures r.Err? ==> db.tables == old(db.tables)
    ensures !Grants(BedPermission(Rent), caller) ==> r == Err(Forbidden)
    ensures Grants(BedPermission(Rent), caller) ==>
              if caller.id !in db.tables.students then r == Err(MissingProfile)
              else if !(bed in db.tables.beds && db.tables.beds[bed].active) then r == Err(NotFound)
              else if Rented(old(db.tables.contracts), caller.id, bed) then r == Err(AlreadyRented)
              else if db.tables.users[caller.id].gender == GenderUnknown then r == Err(GenderNotSet)
              else if db.tables.users[caller.id].gender != RoomForValue(db.tables.rooms[db.tables.beds[bed].room].roomFor) then
                r == Err(GenderMismatch)
              else if timeRental.None? || |timeRental.value| > TimeRentalMaxLength then r == Err(IntegrityViolation)
              else
                && r.Ok? && r.value !in old(db.tables.contracts) && r.value in db.tables.contracts
                && db.tables.contracts == old(db.tables.contracts)[r.value := db.tables.contracts[r.value]]
                && db.tables.contracts[r.value] == RentalContract(db.tables.contracts[r.value].rentalNumber, timeRental.value,
                                                           InitialContractStatus, Some(bed), caller.id, None, true)
                && db.tables.contracts[r.value].rentalNumber !in RentalNumbers(old(db.tables.contracts))
    ensures r.Ok? ==> Rented(db.tables.contracts, caller.id, bed)
  {
    if !Grants(BedPermission(Rent), caller) {
      return Err(Forbidden);
    }
    if caller.id !in db.tables.students {
      return Err(MissingProfile);
    }
    if !(bed in db.tables.beds && db.tables.beds[bed].active) {
      return Err(NotFound);
    }
    if Rented(db.tables.contracts, caller.id, bed) {
      return Err(AlreadyRented);
    }
    var gender := db.tables.users[caller.id].gender;
    if gender == GenderUnknown {
      return Err(GenderNotSet);
    }
    if gender != RoomForValue(db.tables.rooms[db.tables.beds[bed].room].roomFor) {
      return Err(GenderMismatch);
    }
    if timeRental.None? || |timeRental.value| > TimeRentalMaxLength {
      return Err(IntegrityViolation);
    }
    var id := FreshId(db.tables.contracts.Keys);
    var number := FreshId(RentalNumbers(db.tables.contracts));
    var c := RentalContract(number, timeRental.value, InitialContractStatus, Some(bed), caller.id, None, true);
    AddContractOk(db.tables, id, c);
    db.tables := db.tables.(contracts := db.tables.contracts[id := c]);
    r := Ok(id);
    assert db.tables.contracts[id].student == caller.id && db.tables.contracts[id].bed == Some(bed);
  }

  /** `cancel`: any student may cancel any active contract still PROCESSING;
      nothing compares the contract's student with the caller. */
  method CancelRental(db: Database, caller: Principal, id: ContractId) returns (r: Result<RentalContract>)
    requires db.Valid()
    modifies db`tables
    ensures db.Valid()
    ensures db.tables == old(db.tables).(contracts := db.tables.contracts)
    ensures r.Err? ==> db.tables == old(db.tables)
    ensures !Grants(ContractPermission(CancelContract), caller) ==> r == Err(Forbidden)
    ensures Grants(ContractPermission(CancelContract), caller) ==>
              if !(id in old(db.tables.contracts) && old(db.tables.contracts)[id].active) then r == Err(NotFound)
              else if old(db.tables.contracts)[id].status != Processing then r == Err(AlreadyProcessed)
              else r == Ok(old(db.tables.contracts)[id].(status := Cancel)) && db.tables.contracts == old(db.tables.contracts)[id := r.value]
  {
    if !Grants(ContractPermission(CancelContract), caller) {
      return Err(Forbidden);
    }
    if !(id in db.tables.contracts && db.tables.contracts[id].active) {
      return Err(NotFound);
    }
    r := UpdateStatus(db, id, Cancel);
  }

  /** `reject`: any specialist may reject an active contract still PROCESSING. */
  method RejectRental(db: Database, caller: Principal, id: ContractId) returns (r: Result<RentalContract>)
    requires db.Valid()
    modifies db`tables
    ensures db.Valid()
    ensures db.tables == old(db.tables).(contracts := db.tables.contracts)
    ensures r.Err? ==> db.tables == old(db.tables)
    ensures !Grants(ContractPermission(RejectContract), caller) ==> r == Err(Forbidden)
    ensures Grants(ContractPermission(RejectContract), caller) ==>
              if !(id in old(db.tables.contracts) && old(db.tables.contracts)[id].active) then r == Err(NotFound)
              else if old(db.tables.contracts)[id].status != Processing then r == Err(AlreadyProcessed)
              else r == Ok(old(db.tables.contracts)[id].(status := Fail)) && db.tables.contracts == old(db.tables.contracts)[id := r.value]
  {
    if !Grants(ContractPermission(RejectContract), caller) {
      return Err(Forbidden);
    }
    if !(id in db.tables.contracts && db.tables.contracts[id].active) {
      return Err(NotFound);
    }
    r := UpdateStatus(db, id, Fail);
  }

  /** `confirm`: after the caller's specialist profile is looked up, the
      same PROCESSING guard as `update_status`, written out again in the
      view. A contract in any other status is refused (the source answers
      400, with a success message) and left as it is. */
  method ConfirmRental(db: Database, caller: Principal, id: ContractId) returns (r: Result<RentalContract>)
    requires db.Valid()
    modifies db`tables
    ensures db.Valid()
    ensures db.tables == old(db.tables).(contracts := db.tables.contracts)
    ensures r.Err? ==> db.tables == old(db.tables)
    ensures !Grants(ContractPermission(ConfirmContract), caller) ==> r == Err(Forbidden)
    ensures Grants(ContractPermission(ConfirmContract), caller) ==>
              if !(id in old(db.tables.contracts) && old(db.tables.contracts)[id].active) then r == Err(NotFound)
              else if caller.id !in db.tables.specialists then r == Err(MissingProfile)
              else if old(db.tables.contracts)[id].status != Processing then r == Err(AlreadyProcessed)
              else r == Ok(old(db.tables.contracts)[id].(status := Success)) && db.tables.contracts == old(db.tables.contracts)[id := r.value]
  {
    if !Grants(ContractPermission(ConfirmContract), caller) {
      return Err(Forbidden);
    }
    if !(id in db.tables.contracts && db.tables.contracts[id].active) {
      return Err(NotFound);
    }
    if caller.id !in db.tables.specialists {
      return Err(MissingProfile);
    }
    r := UpdateStatus(db, id, Success);
  }

  /** The contract, active or not, whose rental number is `n`; rental
      numbers are unique, so there is at most one. */
  ghost function ContractNumbered(cs: map<ContractId, RentalContract>, n: Option<Uuid>): (k: Option<ContractId>)
    ensures k.Some? ==> k.value in cs && n == Some(cs[k.value].rentalNumber)
    ensures k.None? ==> forall c :: c in cs ==> n != Some(cs[c].rentalNumber)
  {
    if n.Some? && exists c :: c in cs && cs[c].rentalNumber == n.value then
      var c :| c in cs && cs[c].rentalNumber == n.value; Some(c)
    else None
  }

  /** `BillRentalContactViewSet.create`: the contract is looked up by its
      rental number among all contracts, must be SUCCESS, and the bill takes
      its student, the calling specialist, the contract and the bed's price.
      Nothing in the view checks for an earlier bill: the one-to-one column
      refuses a second one. */
  method IssueBill(db: Database, caller: Principal, rentalNumber: Option<Uuid>) returns (r: Result<BillId>)
    requires db.Valid()
    modifies db`tables
    ensures db.Valid()
    ensures db.tables == old(db.tables).(bills := db.tables.bills)
    ensures r.Err? ==> db.tables == old(db.tables)
    ensures !Grants(BillPermission, caller) ==> r == Err(Forbidden)
    ensures Grants(BillPermission, caller) ==>
              var k := ContractNumbered(db.tables.contracts, rentalNumber);
              if k.None? then r == Err(NotFound)
              else if db.tables.contracts[k.value].status != Success then r == Err(NotConfirmed)
              else if caller.id !in db.tables.specialists then r == Err(MissingProfile)
              else if db.tables.contracts[k.value].bed.None? then r == Err(MissingBed)
              else if k.value in old(db.BilledContracts()) then r == Err(IntegrityViolation)
              else
                var c := db.tables.contracts[k.value];
                && r.Ok? && r.value !in old(db.tables.bills) && r.value in db.tables.bills
                && db.tables.bills == old(db.tables.bills)[r.value := db.tables.bills[r.value]]
                && db.tables.bills[r.value] == Bill(db.tables.bills[r.value].billNumber, db.tables.beds[c.bed.value].price.value,
                                             InitialBillStatus, c.student, caller.id, k.value, true)
                && db.tables.bills[r.value].billNumber !in BillNumbers(old(db.tables.bills))
  {
    if !Grants(BillPermission, caller) {
      return Err(Forbidden);
    }
    if rentalNumber.None? || !(exists c | c in db.tables.contracts :: db.tables.contracts[c].rentalNumber == rentalNumber.value) {
      return Err(NotFound);
    }
    var k :| k in db.tables.contracts && db.tables.contracts[k].rentalNumber == rentalNumber.value;
    assert ContractNumbered(db.tables.contracts, rentalNumber) == Some(k);
    var c := db.tables.contracts[k];
    if c.status != Success {
      return Err(NotConfirmed);
    }
    if caller.id !in db.tables.specialists {
      return Err(MissingProfile);
    }
    if c.bed.None? {
      return Err(MissingBed);
    }
    if k in db.BilledContracts() {
      return Err(IntegrityViolation);
    }
    var id := InsertBill(db, k, caller.id);
    r := Ok(id);
  }

  /** `BillRentalContact.objects.create` once every guard has passed: a new
      UNPAID bill with a fresh number, the contract's student, the given
      specialist, the contract and the price of the contract's bed. */
  method InsertBill(db: Database, k: ContractId, specialist: UserId) returns (id: BillId)
    requires db.Valid() && k in db.tables.contracts && specialist in db.tables.specialists
    requires db.tables.contracts[k].bed.Some? && k !in db.BilledContracts()
    modifies db`tables
    ensures db.Valid()
    ensures db.tables == old(db.tables).(bills := db.tables.bills)
    ensures id !in old(db.tables.bills) && id in db.tables.bills && db.tables.bills == old(db.tables.bills)[id := db.tables.bills[id]]
    ensures var c := db.tables.contracts[k];
            db.tables.bills[id] == Bill(db.tables.bills[id].billNumber, db.tables.beds[c.bed.value].price.value,
                                 InitialBillStatus, c.student, specialist, k, true)
    ensures db.tables.bills[id].billNumber !in BillNumbers(old(db.tables.bills))
  {
    var c := db.tables.contracts[k];
    id := FreshId(db.tables.bills.Keys);
    var number := FreshId(BillNumbers(db.tables.bills));
    var bill := Bill(number, db.tables.beds[c.bed.value].price.value, InitialBillStatus, c.student, specialist, k, true);
    AddBillOk(db.tables, id, bill);
    db.tables := db.tables.(bills := db.tables.bills[id := bill]);
  }

  /** `BillRentalContactViewSet.partial_update`: a PAID bill is refused and
      left as it is; an UNPAID one takes the supplied fields once they pass
      the serializer's related-field checks. */
  method PartialUpdateBill(db: Database, caller: Principal, id: BillId, patch: BillPatch) returns (r: Result<Bill>)
    requires db.Valid()
    modifies db`tables
    ensures db.Valid()
    ensures db.tables == old(db.tables).(bills := db.tables.bills)
    ensures r.Err? ==> db.tables == old(db.tables)
    ensures !Grants(BillPermission, caller) ==> r == Err(Forbidden)
    ensures Grants(BillPermission, caller) ==>
              var errs := BillPatchErrors(old(db.tables.bills), db.tables.contracts, db.tables.students, db.tables.specialists, id, patch);
              if !(id in old(db.tables.bills) && old(db.tables.bills)[id].active) then r == Err(NotFound)
              else if old(db.tables.bills)[id].status == Paid then r == Err(AlreadyPaid)
              else if errs != [] then r == Err(FieldErrors(errs))
              else r == Ok(PatchedBill(old(db.tables.bills)[id], patch)) && db.tables.bills == old(db.tables.bills)[id := r.value]
  {
    if !Grants(BillPermission, caller) {
      return Err(Forbidden);
    }
    if !(id in db.tables.bills && db.tables.bills[id].active) {
      return Err(NotFound);
    }
    if db.tables.bills[id].status == Paid {
      return Err(AlreadyPaid);
    }
    var errs := BillPatchErrors(db.tables.bills, db.tables.contracts, db.tables.students, db.tables.specialists, id, patch);
    if errs != [] {
      return Err(FieldErrors(errs));
    }
    var saved := PatchedBill(db.tables.bills[id], patch);
    PatchedBillOk(db.tables, id, patch);
    db.tables := db.tables.(bills := db.tables.bills[id := saved]);
    r := Ok(saved);
  }

  /** A patch that passes its checks keeps the constraints. */
  lemma PatchedBillOk(t: Tables, id: BillId, patch: BillPatch)
    requires TablesOk(t) && id in t.bills
    requires BillPatchErrors(t.bills, t.contracts, t.students, t.specialists, id, patch) == []
    ensures TablesOk(t.(bills := t.bills[id := PatchedBill(t.bills[id], patch)]))
  {
    var b := PatchedBill(t.bills[id], patch);
    assert b.contract in t.contracts && b.student in t.students && b.specialist in t.specialists;
    assert forall e :: e in t.bills && e != id ==> t.bills[e].contract != b.contract;
    SetBillOk(t, id, b);
  }

  /** The effect of `like_activity` on the likes table: a new like is
      active; an existing one flips. */
  function Toggle(likes: map<(UserId, PostId), bool>, user: UserId, post: PostId): (t: map<(UserId, PostId), bool>)
    ensures t.Keys == likes.Keys + {(user, post)}
    ensures t[(user, post)] == !Liked(likes, user, post)
    ensures forall k :: k in likes && k != (user, post) ==> t[k] == likes[k]
  {
    if (user, post) in likes then likes[(user, post) := !likes[(user, post)]] else likes[(user, post) := true]
  }

  /** Two toggles give back the original flag; when the like already
      existed they give back the very same table. */
  lemma ToggleTwice(likes: map<(UserId, PostId), bool>, user: UserId, post: PostId)
    ensures Liked(Toggle(Toggle(likes, user, post), user, post), user, post) == Liked(likes, user, post)
    ensures (user, post) in likes ==> Toggle(Toggle(likes, user, post), user, post) == likes
  {
  }

  /** A toggle moves the post's count by exactly one, in the direction of
      the new flag, and leaves the count of every other post alone. */
  lemma ToggleCount(likes: map<(UserId, PostId), bool>, user: UserId, post: PostId, q: PostId)
    ensures TotalLikes(Toggle(likes, user, post), q) ==
              if q != post then TotalLikes(likes, q)
              else if Liked(likes, user, post) then TotalLikes(likes, q) - 1
              else TotalLikes(likes, q) + 1
  {
    var t := Toggle(likes, user, post);
    if q != post {
      ToggleOtherPost(likes, user, post, q);
    } else if Liked(likes, user, post) {
      TogglePost(likes, user, post);
      assert ActiveLikers(t, q) == ActiveLikers(likes, q) - {user};
    } else {
      TogglePost(likes, user, post);
      assert ActiveLikers(t, q) == ActiveLikers(likes, q) + {user};
    }
  }

  lemma ToggleOtherPost(likes: map<(UserId, PostId), bool>, user: UserId, post: PostId, q: PostId)
    requires q != post
    ensures ActiveLikers(Toggle(likes, user, post), q) == ActiveLikers(likes, q)
  {
    var t := Toggle(likes, user, post);
    forall u ensures u in ActiveLikers(t, q) <==> u in ActiveLikers(likes, q) {
      assert (u, q) != (user, post);
    }
  }

  lemma TogglePost(likes: map<(UserId, PostId), bool>, user: UserId, post: PostId)
    ensures forall u :: u != user ==> (u in ActiveLikers(Toggle(likes, user, post), post) <==> u in ActiveLikers(likes, post))
    ensures user in ActiveLikers(Toggle(likes, user, post), post) <==> user !in ActiveLikers(likes, post)
  {
    var t := Toggle(likes, user, post);
    forall u | u != user ensures u in ActiveLikers(t, post) <==> u in ActiveLikers(likes, post) {
      assert (u, post) != (user, post);
    }
  }

  /** `like_activity`: on an active post, the caller's like is created or
      flipped, and the answer carries the post's count and the caller's flag.
      The anonymous user cannot own a like, so the lookup fails for it. */
  method LikeActivity(db: Database, caller: Principal, post: PostId) returns (r: Result<(nat, bool)>)
    requires db.Valid() && Session(db, caller)
    modifies db`tables
    ensures db.Valid()
    ensures db.tables == old(db.tables).(likes := db.tables.likes)
    ensures r.Err? ==> db.tables == old(db.tables)
    ensures !(post in db.tables.posts && db.tables.posts[post].active) ==> r == Err(NotFound)
    ensures post in db.tables.posts && db.tables.posts[post].active ==>
              if caller.Anonymous? then r == Err(AnonymousCaller)
              else && db.tables.likes == Toggle(old(db.tables.likes), caller.id, post)
                   && r == Ok((TotalLikes(db.tables.likes, post), Liked(db.tables.likes, caller.id, post)))
  {
    if !(post in db.tables.posts && db.tables.posts[post].active) {
      return Err(NotFound);
    }
    if caller.Anonymous? {
      return Err(AnonymousCaller);
    }
    SetLikesOk(db.tables, Toggle(db.tables.likes, caller.id, post));
    db.tables := db.tables.(likes := Toggle(db.tables.likes, caller.id, post));
    r := Ok((TotalLikes(db.tables.likes, post), Liked(db.tables.likes, caller.id, post)));
  }

  /** `RoomViewSet.create`: a name is required; `Room.save` fills in the capacity. */
  method CreateRoom(db: Database, caller: Principal, data: RoomPatch) returns (r: Result<RoomId>)
    requires db.Valid()
    modifies db`tables
    ensures db.Valid()
    ensures db.tables == old(db.tables).(rooms := db.tables.rooms)
    ensures r.Err? ==> db.tables == old(db.tables)
    ensures !Grants(RoomPermission(Create), caller) ==> r == Err(Forbidden)
    ensures Grants(RoomPermission(Create), caller) ==>
              if data.name.None? then r == Err(FieldErrors([FieldRequired]))
              else
                var t := Pick(data.roomType, DefaultRoomType);
                && r.Ok? && r.value !in old(db.tables.rooms) && r.value in db.tables.rooms
                && db.tables.rooms == old(db.tables.rooms)[r.value := db.tables.rooms[r.value]]
                && db.tables.rooms[r.value] == Room(data.name.value, Some(Pick(data.numberOfBed, DefaultNumberOfBed(db.config, t))),
                                             t, Pick(data.roomFor, DefaultRoomFor), true)
  {
    if !Grants(RoomPermission(Create), caller) {
      return Err(Forbidden);
    }
    if data.name.None? {
      return Err(FieldErrors([FieldRequired]));
    }
    var id := InsertRoom(db, Room(data.name.value, data.numberOfBed, Pick(data.roomType, DefaultRoomType),
                                  Pick(data.roomFor, DefaultRoomFor), true));
    r := Ok(id);
  }

  /** `Room.objects.create`: a fresh id and `Room.save`. */
  method InsertRoom(db: Database, room: Room) returns (id: RoomId)
    requires db.Valid()
    modifies db`tables
    ensures db.Valid()
    ensures db.tables == old(db.tables).(rooms := db.tables.rooms)
    ensures id !in old(db.tables.rooms) && id in db.tables.rooms && db.tables.rooms == old(db.tables.rooms)[id := db.tables.rooms[id]]
    ensures db.tables.rooms[id] == room.(numberOfBed := Some(Pick(room.numberOfBed, DefaultNumberOfBed(db.config, room.roomType))))
  {
    id := FreshId(db.tables.rooms.Keys);
    db.SaveRoom(id, room);
    assert db.tables.rooms == old(db.tables.rooms)[id := db.tables.rooms[id]];
  }

  /** `RoomViewSet.partial_update` on an active room. */
  method PartialUpdateRoom(db: Database, caller: Principal, id: RoomId, patch: RoomPatch) returns (r: Result<Room>)
    requires db.Valid()
    modifies db`tables
    ensures db.Valid()
    ensures db.tables == old(db.tables).(rooms := db.tables.rooms)
    ensures r.Err? ==> db.tables == old(db.tables)
    ensures !Grants(RoomPermission(PartialUpdate), caller) ==> r == Err(Forbidden)
    ensures Grants(RoomPermission(PartialUpdate), caller) ==>
              if !(id in old(db.tables.rooms) && old(db.tables.rooms)[id].active) then r == Err(NotFound)
              else var room, ty := old(db.tables.rooms)[id], Pick(patch.roomType, old(db.tables.rooms)[id].roomType);
                   && r.Ok? && db.tables.rooms == old(db.tables.rooms)[id := r.value]
                   && r.value == room.(name := Pick(patch.name, room.name), roomType := ty,
                                       roomFor := Pick(patch.roomFor, room.roomFor),
                                       numberOfBed := Some(DefaultNumberOfBed(db.config, ty)))
  {
    if !Grants(RoomPermission(PartialUpdate), caller) {
      return Err(Forbidden);
    }
    if !(id in db.tables.rooms && db.tables.rooms[id].active) {
      return Err(NotFound);
    }
    var saved := UpdateRoom(db, id, patch);
    r := Ok(saved);
  }

  /** The fields a new bed must supply (`name`, `description`, `room`). */
  function MissingBedFields(data: BedPatch): seq<Error>
  {
    (if data.name.None? then [FieldRequired] else [])
    + (if data.description.None? then [FieldRequired] else [])
    + (if data.room.None? then [FieldRequired] else [])
  }

  /** `BedViewSet.create`: the required fields, then the capacity check of
      the room; `Bed.save` fills in the price, and a new bed starts VACUITY
      unless told otherwise. A bed created this way never takes its room
      beyond its capacity. */
  method CreateBed(db: Database, caller: Principal, data: BedPatch) returns (r: Result<BedId>)
    requires db.Valid()
    modifies db`tables
    ensures db.Valid()
    ensures db.tables == old(db.tables).(beds := db.tables.beds)
    ensures r.Err? ==> db.tables == old(db.tables)
    ensures !Grants(BedPermission(Create), caller) ==> r == Err(Forbidden)
    ensures Grants(BedPermission(Create), caller) ==>
              if MissingBedFields(data) != [] then r == Err(FieldErrors(MissingBedFields(data)))
              else if ValidateBed(db.tables.rooms, old(db.tables.beds), data.room).Err? then
                r == Err(ValidateBed(db.tables.rooms, old(db.tables.beds), data.room).error)
              else
                var room := data.room.value;
                && r.Ok? && r.value !in old(db.tables.beds) && r.value in db.tables.beds
                && db.tables.beds == old(db.tables.beds)[r.value := db.tables.beds[r.value]]
                && db.tables.beds[r.value] == Bed(data.name.value, Some(Pick(data.price, DefaultBedPrice(db.config, db.tables.rooms[room].roomType))),
                                           data.description.value, Pick(data.status, DefaultBedStatus), room, true)
                && |BedsOf(db.tables.beds, room)| == |BedsOf(old(db.tables.beds), room)| + 1 <= db.tables.rooms[room].numberOfBed.value
  {
    if !Grants(BedPermission(Create), caller) {
      return Err(Forbidden);
    }
    var missing := MissingBedFields(data);
    if missing != [] {
      return Err(FieldErrors(missing));
    }
    var checked := ValidateBed(db.tables.rooms, db.tables.beds, data.room);
    if checked.Err? {
      return Err(checked.error);
    }
    var id := InsertBed(db, Bed(data.name.value, data.price, data.description.value,
                                Pick(data.status, DefaultBedStatus), data.room.value, true));
    r := Ok(id);
  }

  /** `Bed.objects.create`: a fresh id and `Bed.save`; the room gains exactly this bed. */
  method InsertBed(db: Database, bed: Bed) returns (id: BedId)
    requires db.Valid() && bed.room in db.tables.rooms
    modifies db`tables
    ensures db.Valid()
    ensures id !in old(db.tables.beds)
    ensures var saved := bed.(price := Some(Pick(bed.price, DefaultBedPrice(db.config, old(db.tables.rooms)[bed.room].roomType))));
            db.tables == old(db.tables).(beds := old(db.tables.beds)[id := saved])
    ensures BedsOf(db.tables.beds, bed.room) == BedsOf(old(db.tables.beds), bed.room) + {id}
    ensures |BedsOf(db.tables.beds, bed.room)| == |BedsOf(old(db.tables.beds), bed.room)| + 1
  {
    id := FreshId(db.tables.beds.Keys);
    var saved := bed.(price := Some(Pick(bed.price, DefaultBedPrice(db.config, db.tables.rooms[bed.room].roomType))));
    BedsOfAdded(db.tables.beds, id, saved);
    db.SaveBed(id, bed);
  }

  /** `BedViewSet.partial_update` on an active bed: a supplied room must
      exist and have room for one more bed (the bed itself counts if it is
      already there); the price always goes back to the room type's default. */
  method PartialUpdateBed(db: Database, caller: Principal, id: BedId, patch: BedPatch) returns (r: Result<Bed>)
    requires db.Valid()
    modifies db`tables
    ensures db.Valid()
    ensures db.tables == old(db.tables).(beds := db.tables.beds)
    ensures r.Err? ==> db.tables == old(db.tables)
    ensures !Grants(BedPermission(PartialUpdate), caller) ==> r == Err(Forbidden)
    ensures Grants(BedPermission(PartialUpdate), caller) ==>
              if !(id in old(db.tables.beds) && old(db.tables.beds)[id].active) then r == Err(NotFound)
              else if ValidateBed(db.tables.rooms, old(db.tables.beds), patch.room).Err? then
                r == Err(ValidateBed(db.tables.rooms, old(db.tables.beds), patch.room).error)
              else var bed := old(db.tables.beds)[id];
                   && r.Ok? && db.tables.beds == old(db.tables.beds)[id := r.value] && r.value.room in db.tables.rooms
                   && r.value == bed.(name := Pick(patch.name, bed.name), description := Pick(patch.description, bed.description),
                                      status := Pick(patch.status, bed.status), room := Pick(patch.room, bed.room),
                                      price := Some(DefaultBedPrice(db.config, db.tables.rooms[r.value.room].roomType)))
  {
    if !Grants(BedPermission(PartialUpdate), caller) {
      return Err(Forbidden);
    }
    if !(id in db.tables.beds && db.tables.beds[id].active) {
      return Err(NotFound);
    }
    var checked := ValidateBed(db.tables.rooms, db.tables.beds, patch.room);
    if checked.Err? {
      return Err(checked.error);
    }
    var saved := UpdateBed(db, id, patch);
    r := Ok(saved);
  }

  /** `PostViewSet.partial_update` on an active post. */
  method PartialUpdatePost(db: Database, caller: Principal, id: PostId, patch: PostPatch) returns (r: Result<Post>)
    requires db.Valid()
    modifies db`tables
    ensures db.Valid()
    ensures db.tables == old(db.tables).(posts := db.tables.posts)
    ensures r.Err? ==> db.tables == old(db.tables)
    ensures !Grants(PostPermission(PartialUpdate, PostMethod), caller) ==> r == Err(Forbidden)
    ensures Grants(PostPermission(PartialUpdate, PostMethod), caller) ==>
              if !(id in old(db.tables.posts) && old(db.tables.posts)[id].active) then r == Err(NotFound)
              else if ValidatePostRoom(old(db.tables.posts), db.tables.rooms, id, patch.room).Err? then
                r == Err(ValidatePostRoom(old(db.tables.posts), db.tables.rooms, id, patch.room).error)
              else var post := old(db.tables.posts)[id];
                   && r.Ok? && db.tables.posts == old(db.tables.posts)[id := r.value]
                   && r.value == post.(name := Pick(patch.name, post.name), description := Pick(patch.description, post.description),
                                       room := Pick(patch.room, post.room))
  {
    if !Grants(PostPermission(PartialUpdate, PostMethod), caller) {
      return Err(Forbidden);
    }
    if !(id in db.tables.posts && db.tables.posts[id].active) {
      return Err(NotFound);
    }
    r := UpdatePost(db, id, patch);
  }
}

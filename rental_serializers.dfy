/** The rental serializers: the capacity check on beds, the updates that
    reset a room's capacity and a bed's price to their type defaults, the
    post update, the like counters and the nested contract representation. */
module RentalSerializers {
  import opened Common
  import opened UserModels
  import opened RentalModels
  import opened Store
  import opened Integrity

  /** `BedSerializer.validate`: when the data names a room, the room must
      still have room for a bed (`beds.count() < number_of_bed`, where
      `room.beds` is `BedsOf`: every bed row of the room, active or not); without a
      room nothing is checked. A room id that names no room is refused as
      the related field would refuse it. */
  function ValidateBed(rooms: map<RoomId, Room>, beds: map<BedId, Bed>, room: Option<RoomId>): (r: Result<Option<RoomId>>)
    requires InventoryOk(rooms, beds)
    ensures r.Ok? <==> room.None? || (room.value in rooms && |BedsOf(beds, room.value)| < rooms[room.value].numberOfBed.value)
    ensures r.Ok? ==> r.value == room
    ensures r.Err? ==> r.error == (if room.value in rooms then RoomFull else InvalidReference)
  {
    if room.None? then Ok(room)
    else if room.value !in rooms then Err(InvalidReference)
    else if |BedsOf(beds, room.value)| >= rooms[room.value].numberOfBed.value then Err(RoomFull)
    else Ok(room)
  }

  /** The writable fields of `RoomSerializer`; `None` is a field not supplied. */
  datatype RoomPatch = RoomPatch(
    name: Option<string>, numberOfBed: Option<int>, roomType: Option<RoomType>, roomFor: Option<RoomFor>)

  /** The writable fields of `BedSerializer`. */
  datatype BedPatch = BedPatch(
    name: Option<string>, price: Option<real>, description: Option<string>, status: Option<BedStatus>,
    room: Option<RoomId>)

  /** The writable fields of `PostSerializer`. */
  datatype PostPatch = PostPatch(name: Option<string>, description: Option<string>, room: Option<RoomId>)

  function Pick<T>(o: Option<T>, current: T): T
  {
    if o.Some? then o.value else current
  }

  /** `RoomSerializer.update`: every supplied field is copied in, and
      `number_of_bed` is forced to `None` so that `Room.save` puts back the
      default of the (possibly new) room type, whatever capacity was supplied. */
  method UpdateRoom(db: Database, id: RoomId, patch: RoomPatch) returns (saved: Room)
    requires db.Valid() && id in db.tables.rooms
    modifies db`tables
    ensures db.Valid()
    ensures saved.name == Pick(patch.name, old(db.tables.rooms[id]).name)
    ensures saved.roomType == Pick(patch.roomType, old(db.tables.rooms[id]).roomType)
    ensures saved.roomFor == Pick(patch.roomFor, old(db.tables.rooms[id]).roomFor)
    ensures saved.active == old(db.tables.rooms[id]).active
    ensures saved.numberOfBed == Some(DefaultNumberOfBed(db.config, saved.roomType))
    ensures db.tables == old(db.tables).(rooms := old(db.tables.rooms)[id := saved])
  {
    var room := db.tables.rooms[id];
    var changed := room.(name := Pick(patch.name, room.name), numberOfBed := None,
                         roomType := Pick(patch.roomType, room.roomType), roomFor := Pick(patch.roomFor, room.roomFor));
    saved := changed.(numberOfBed := Some(DefaultNumberOfBed(db.config, changed.roomType)));
    db.SaveRoom(id, changed);
  }

  /** `BedSerializer.update`: every supplied field is copied in, and `price`
      is forced to `None` so that `Bed.save` puts back the default of the
      type of the bed's (possibly new) room, whatever price was supplied. */
  method UpdateBed(db: Database, id: BedId, patch: BedPatch) returns (saved: Bed)
    requires db.Valid() && id in db.tables.beds
    requires patch.room.Some? ==> patch.room.value in db.tables.rooms
    modifies db`tables
    ensures db.Valid()
    ensures saved.name == Pick(patch.name, old(db.tables.beds[id]).name)
    ensures saved.description == Pick(patch.description, old(db.tables.beds[id]).description)
    ensures saved.status == Pick(patch.status, old(db.tables.beds[id]).status)
    ensures saved.room == Pick(patch.room, old(db.tables.beds[id]).room)
    ensures saved.active == old(db.tables.beds[id]).active
    ensures saved.price == Some(DefaultBedPrice(db.config, old(db.tables.rooms)[saved.room].roomType))
    ensures db.tables == old(db.tables).(beds := old(db.tables.beds)[id := saved])
  {
    var bed := db.tables.beds[id];
    var changed := bed.(name := Pick(patch.name, bed.name), price := None,
                        description := Pick(patch.description, bed.description),
                        status := Pick(patch.status, bed.status), room := Pick(patch.room, bed.room));
    saved := changed.(price := Some(DefaultBedPrice(db.config, db.tables.rooms[changed.room].roomType)));
    db.SaveBed(id, changed);
  }

  /** The check the `room` field of `PostSerializer` makes: the room exists
      and no other post is already attached to it (the link is one-to-one). */
  function ValidatePostRoom(posts: map<PostId, Post>, rooms: map<RoomId, Room>, id: PostId, room: Option<RoomId>)
    : (r: Result<Option<RoomId>>)
    ensures r.Ok? <==> room.None? || (room.value in rooms && forall p :: p in posts && p != id ==> posts[p].room != room.value)
    ensures r.Ok? ==> r.value == room
    ensures r.Err? ==> r.error == (if room.value in rooms then DuplicatePostRoom else InvalidReference)
  {
    if room.None? then Ok(room)
    else if room.value !in rooms then Err(InvalidReference)
    else if exists p | p in posts :: p != id && posts[p].room == room.value then Err(DuplicatePostRoom)
    else Ok(room)
  }

  /** `PostSerializer.update`: each validated field is copied onto the post;
      the fields not supplied keep their values. */
  method UpdatePost(db: Database, id: PostId, patch: PostPatch) returns (r: Result<Post>)
    requires db.Valid() && id in db.tables.posts
    modifies db`tables
    ensures db.Valid()
    ensures ValidatePostRoom(old(db.tables.posts), db.tables.rooms, id, patch.room).Err? ==>
              r == Err(ValidatePostRoom(old(db.tables.posts), db.tables.rooms, id, patch.room).error) && db.tables == old(db.tables)
    ensures ValidatePostRoom(old(db.tables.posts), db.tables.rooms, id, patch.room).Ok? ==>
              && r == Ok(old(db.tables.posts[id]).(name := Pick(patch.name, old(db.tables.posts[id]).name),
                                            description := Pick(patch.description, old(db.tables.posts[id]).description),
                                            room := Pick(patch.room, old(db.tables.posts[id]).room)))
              && db.tables == old(db.tables).(posts := old(db.tables.posts)[id := r.value])
  {
    var checked := ValidatePostRoom(db.tables.posts, db.tables.rooms, id, patch.room);
    if checked.Err? {
      return Err(checked.error);
    }
    var post := db.tables.posts[id];
    var saved := post.(name := Pick(patch.name, post.name), description := Pick(patch.description, post.description),
                       room := Pick(patch.room, post.room));
    PutPostOk(db.tables, id, saved);
    db.tables := db.tables.(posts := db.tables.posts[id := saved]);
    r := Ok(saved);
  }

  /** The writable fields of `BillRentalContactSerializer` (`bill_number` is not editable). */
  datatype BillPatch = BillPatch(
    total: Option<real>, status: Option<BillStatus>, student: Option<UserId>, specialist: Option<UserId>,
    contract: Option<ContractId>)

  /** The related-field checks of a bill update, in field order: each
      supplied student, specialist and contract must exist, and the contract
      must not be billed by another bill (the link is one-to-one). */
  function BillPatchErrors(bills: map<BillId, Bill>, contracts: map<ContractId, RentalContract>,
                           students: map<UserId, StudentProfile>, specialists: map<UserId, string>,
                           id: BillId, patch: BillPatch): (errs: seq<Error>)
    ensures errs == [] <==>
              && (patch.student.Some? ==> patch.student.value in students)
              && (patch.specialist.Some? ==> patch.specialist.value in specialists)
              && (patch.contract.Some? ==>
                    patch.contract.value in contracts
                    && forall e :: e in bills && e != id ==> bills[e].contract != patch.contract.value)
    ensures forall k :: 0 <= k < |errs| ==> errs[k] in {InvalidReference, DuplicateBill}
  {
    (if patch.student.Some? && patch.student.value !in students then [InvalidReference] else [])
    + (if patch.specialist.Some? && patch.specialist.value !in specialists then [InvalidReference] else [])
    + (if patch.contract.None? then []
       else if patch.contract.value !in contracts then [InvalidReference]
       else if exists e | e in bills :: e != id && bills[e].contract == patch.contract.value then [DuplicateBill]
       else [])
  }

  /** `BillRentalContactSerializer.update`: the supplied fields replace the bill's. */
  function PatchedBill(b: Bill, patch: BillPatch): Bill
  {
    b.(total := Pick(patch.total, b.total), status := Pick(patch.status, b.status),
       student := Pick(patch.student, b.student), specialist := Pick(patch.specialist, b.specialist),
       contract := Pick(patch.contract, b.contract))
  }

  /** The users whose like of `post` is active. */
  function ActiveLikers(likes: map<(UserId, PostId), bool>, post: PostId): (s: set<UserId>)
    ensures forall u :: u in s <==> (u, post) in likes && likes[(u, post)]
  {
    set k | k in likes && k.1 == post && likes[k] :: k.0
  }

  /** `get_total_likes`: only active likes are counted. */
  function TotalLikes(likes: map<(UserId, PostId), bool>, post: PostId): nat
  {
    |ActiveLikers(likes, post)|
  }

  /** `get_liked`: false when the user never liked the post, otherwise the like's flag. */
  function Liked(likes: map<(UserId, PostId), bool>, user: UserId, post: PostId): (b: bool)
    ensures b <==> user in ActiveLikers(likes, post)
  {
    if (user, post) in likes then likes[(user, post)] else false
  }

  /** Likes of other posts, and inactive likes, do not change the count. */
  lemma TotalLikesCountsActive(likes: map<(UserId, PostId), bool>, post: PostId, k: (UserId, PostId), flag: bool)
    requires k.1 != post || !flag
    requires k !in likes || !likes[k] || k.1 != post
    ensures TotalLikes(likes[k := flag], post) == TotalLikes(likes, post)
  {
    assert ActiveLikers(likes[k := flag], post) == ActiveLikers(likes, post);
  }

  function BedStatusValue(s: BedStatus): string
  {
    match s
    case Vacuity => "VACUITY"
    case NonVacuity => "NONVACUITY"
  }

  function RoomTypeValue(t: RoomType): string
  {
    match t
    case Normal => "NORMAL"
    case Service => "SERVICE"
  }

  function ContractStatusValue(s: ContractStatus): string
  {
    match s
    case Cancel => "CANCEL"
    case Processing => "PROCESSING"
    case Success => "SUCCESS"
    case Fail => "FAIL"
  }

  /** `BedSerializer(bed).data` without the image and the dates (`room` is write-only). */
  function BedData(id: BedId, b: Bed): Value
  {
    VObj(map["id" := VInt(id), "name" := VStr(b.name),
             "price" := (if b.price.Some? then VReal(b.price.value) else VNull),
             "description" := VStr(b.description), "status" := VStr(BedStatusValue(b.status))])
  }

  /** `RoomSerializer(room).data` without the image and the dates; `beds`
      is the list of the room's serialized beds. */
  function RoomData(id: RoomId, r: Room, beds: seq<Value>): Value
  {
    VObj(map["id" := VInt(id), "name" := VStr(r.name),
             "number_of_bed" := (if r.numberOfBed.Some? then VInt(r.numberOfBed.value) else VNull),
             "type" := VStr(RoomTypeValue(r.roomType)), "room_for" := VStr(RoomForValue(r.roomFor)),
             "beds" := VList(beds)])
  }

  /** `StudentSerializer(student).data`. */
  function StudentData(id: UserId, p: StudentProfile): Value
  {
    VObj(map["id" := VInt(id), "student_id" := VStr(p.studentId), "university" := VStr(p.university),
             "faculty" := VStr(p.faculty), "major" := VStr(p.major), "academic_year" := VInt(p.academicYear)])
  }

  /** `RentalContactSerializer.to_representation` (dates left out): the bed
      and the room are nested only when the contract still has them, the
      student always, and the nested room loses its `beds` list. `roomBeds`
      is what the room's bed list would render; it cannot show. */
  function ContractData(id: ContractId, c: RentalContract, beds: map<BedId, Bed>, rooms: map<RoomId, Room>,
                        students: map<UserId, StudentProfile>, roomBeds: seq<Value>): (v: Value)
    requires c.bed.Some? ==> c.bed.value in beds
    requires c.room.Some? ==> c.room.value in rooms
    requires c.student in students
    ensures v.VObj? && "bed" in v.fields && "room" in v.fields && "student" in v.fields && "status" in v.fields
    ensures v.fields["bed"] == if c.bed.Some? then BedData(c.bed.value, beds[c.bed.value]) else VNull
    ensures c.bed.None? <==> v.fields["bed"] == VNull
    ensures c.room.None? <==> v.fields["room"] == VNull
    ensures c.room.Some? ==> v.fields["room"].VObj? && "beds" !in v.fields["room"].fields
                             && "id" in v.fields["room"].fields && v.fields["room"].fields["id"] == VInt(c.room.value)
    ensures v.fields["student"] == StudentData(c.student, students[c.student])
    ensures v.fields["status"] == VStr(ContractStatusValue(c.status))
  {
    var bed := if c.bed.Some? then BedData(c.bed.value, beds[c.bed.value]) else VNull;
    var room := if c.room.Some? then
                  var full := RoomData(c.room.value, rooms[c.room.value], roomBeds);
                  VObj(full.fields - {"beds"})
                else VNull;
    VObj(map["id" := VInt(id), "rental_number" := VInt(c.rentalNumber), "time_rental" := VStr(c.timeRental),
             "status" := VStr(ContractStatusValue(c.status)), "bed" := bed,
             "student" := StudentData(c.student, students[c.student]), "room" := room])
  }

  /** The list of the room's beds never reaches the contract's representation. */
  lemma ContractDataIgnoresRoomBeds(id: ContractId, c: RentalContract, beds: map<BedId, Bed>, rooms: map<RoomId, Room>,
                                    students: map<UserId, StudentProfile>, xs: seq<Value>, ys: seq<Value>)
    requires c.bed.Some? ==> c.bed.value in beds
    requires c.room.Some? ==> c.room.value in rooms
    requires c.student in students
    ensures ContractData(id, c, beds, rooms, students, xs) == ContractData(id, c, beds, rooms, students, ys)
  {
    if c.room.Some? {
      var r := rooms[c.room.value];
      assert RoomData(c.room.value, r, xs).fields - {"beds"} == RoomData(c.room.value, r, ys).fields - {"beds"};
    }
  }
}

/** The integrity constraints of the store, stated on the tables as values,
    and the table changes that keep them: the schema's unique and foreign-key
    constraints, the column widths, the fields the save hooks always fill in,
    and the referential actions a delete triggers. */
module Integrity {
  import opened Common
  import opened UserModels
  import opened RentalModels

  /** `on_delete=SET_NULL` of `RentalContact.bed`: contracts on a deleted bed keep no bed. */
  function ClearBeds(cs: map<ContractId, RentalContract>, gone: set<BedId>): (r: map<ContractId, RentalContract>)
    ensures r.Keys == cs.Keys
    ensures forall c :: c in cs ==>
              r[c] == if cs[c].bed.Some? && cs[c].bed.value in gone then cs[c].(bed := None) else cs[c]
  {
    map c | c in cs :: if cs[c].bed.Some? && cs[c].bed.value in gone then cs[c].(bed := None) else cs[c]
  }

  /** `on_delete=SET_NULL` of `RentalContact.room`. */
  function ClearRoom(cs: map<ContractId, RentalContract>, gone: RoomId): (r: map<ContractId, RentalContract>)
    ensures r.Keys == cs.Keys
    ensures forall c :: c in cs ==>
              r[c] == if cs[c].room == Some(gone) then cs[c].(room := None) else cs[c]
  {
    map c | c in cs :: if cs[c].room == Some(gone) then cs[c].(room := None) else cs[c]
  }

  /** `email` and `identification` are unique; the column widths hold. */
  ghost predicate UsersOk(users: map<UserId, User>)
  {
    && (forall u, v :: u in users && v in users && u != v ==>
          users[u].email != users[v].email && users[u].identification != users[v].identification)
    && (forall u :: u in users ==> FitsColumns(users[u]))
  }

  /** Every profile belongs to a user (one-to-one with `User`). */
  ghost predicate ProfilesOk(users: map<UserId, User>, administrators: set<UserId>, managers: map<UserId, string>,
                             specialists: map<UserId, string>, students: map<UserId, StudentProfile>)
  {
    && administrators <= users.Keys && managers.Keys <= users.Keys
    && specialists.Keys <= users.Keys && students.Keys <= users.Keys
    && (forall u :: u in students ==> |students[u].studentId| <= StudentIdMaxLength)
  }

  /** Every stored room and bed has passed through its save hook; a bed's room exists. */
  ghost predicate InventoryOk(rooms: map<RoomId, Room>, beds: map<BedId, Bed>)
  {
    && (forall r :: r in rooms ==> rooms[r].numberOfBed.Some?)
    && (forall b :: b in beds ==> beds[b].price.Some? && beds[b].room in rooms)
  }

  /** A post belongs to one room, a room has at most one post (one-to-one),
      and a like joins an existing user and post. */
  ghost predicate PostsOk(posts: map<PostId, Post>, rooms: map<RoomId, Room>,
                          likes: map<(UserId, PostId), bool>, users: map<UserId, User>)
  {
    && (forall p :: p in posts ==> posts[p].room in rooms)
    && (forall p, q :: p in posts && q in posts && p != q ==> posts[p].room != posts[q].room)
    && (forall k :: k in likes ==> k.0 in users && k.1 in posts)
  }

  /** Contracts refer to existing rows, rental numbers are unique, and no
      student holds two contracts on the same bed. */
  ghost predicate ContractsOk(contracts: map<ContractId, RentalContract>, students: map<UserId, StudentProfile>,
                              beds: map<BedId, Bed>, rooms: map<RoomId, Room>)
  {
    && (forall c :: c in contracts ==>
          && contracts[c].student in students
          && (contracts[c].bed.Some? ==> contracts[c].bed.value in beds)
          && (contracts[c].room.Some? ==> contracts[c].room.value in rooms))
    && (forall c, d :: c in contracts && d in contracts && c != d ==>
          && contracts[c].rentalNumber != contracts[d].rentalNumber
          && (contracts[c].bed.Some? && contracts[c].bed == contracts[d].bed ==>
                contracts[c].student != contracts[d].student))
  }

  /** Bills refer to existing rows, bill numbers are unique, and a contract
      has at most one bill (one-to-one). */
  ghost predicate BillsOk(bills: map<BillId, Bill>, contracts: map<ContractId, RentalContract>,
                          students: map<UserId, StudentProfile>, specialists: map<UserId, string>)
  {
    && (forall b :: b in bills ==>
          bills[b].contract in contracts && bills[b].student in students && bills[b].specialist in specialists)
    && (forall b, e :: b in bills && e in bills && b != e ==>
          bills[b].billNumber != bills[e].billNumber && bills[b].contract != bills[e].contract)
  }

  /** Bills keep their references while no contract disappears. */
  lemma BillsOkOnMoreContracts(bills: map<BillId, Bill>, cs: map<ContractId, RentalContract>,
                               cs': map<ContractId, RentalContract>, st: map<UserId, StudentProfile>, sp: map<UserId, string>)
    requires BillsOk(bills, cs, st, sp) && cs.Keys <= cs'.Keys
    ensures BillsOk(bills, cs', st, sp)
  {
  }

  lemma ContractsOkAfterAdd(cs: map<ContractId, RentalContract>, st: map<UserId, StudentProfile>,
                            beds: map<BedId, Bed>, rooms: map<RoomId, Room>, id: ContractId, c: RentalContract)
    requires ContractsOk(cs, st, beds, rooms) && id !in cs
    requires c.student in st && (c.bed.Some? ==> c.bed.value in beds) && (c.room.Some? ==> c.room.value in rooms)
    requires forall d :: d in cs ==> cs[d].rentalNumber != c.rentalNumber
    requires c.bed.Some? ==> forall d :: d in cs && cs[d].bed == c.bed ==> cs[d].student != c.student
    ensures ContractsOk(cs[id := c], st, beds, rooms)
  {
  }

  lemma BillsOkAfterAdd(bills: map<BillId, Bill>, cs: map<ContractId, RentalContract>,
                        st: map<UserId, StudentProfile>, sp: map<UserId, string>, id: BillId, b: Bill)
    requires BillsOk(bills, cs, st, sp) && id !in bills
    requires b.contract in cs && b.student in st && b.specialist in sp
    requires forall e :: e in bills ==> bills[e].billNumber != b.billNumber && bills[e].contract != b.contract
    ensures BillsOk(bills[id := b], cs, st, sp)
  {
  }

  lemma BillsOkAfterSet(bills: map<BillId, Bill>, cs: map<ContractId, RentalContract>,
                        st: map<UserId, StudentProfile>, sp: map<UserId, string>, id: BillId, b: Bill)
    requires BillsOk(bills, cs, st, sp) && id in bills && b.billNumber == bills[id].billNumber
    requires b.contract in cs && b.student in st && b.specialist in sp
    requires forall e :: e in bills && e != id ==> bills[e].contract != b.contract
    ensures BillsOk(bills[id := b], cs, st, sp)
  {
  }

  lemma ContractDeleteOk(cs: map<ContractId, RentalContract>, bills: map<BillId, Bill>,
                         st: map<UserId, StudentProfile>, sp: map<UserId, string>,
                         beds: map<BedId, Bed>, rooms: map<RoomId, Room>, id: ContractId)
    requires ContractsOk(cs, st, beds, rooms) && BillsOk(bills, cs, st, sp)
    ensures ContractsOk(cs - {id}, st, beds, rooms) && BillsOk(BillsNotOn(bills, id), cs - {id}, st, sp)
  {
  }

  lemma StudentDeleteOk(cs: map<ContractId, RentalContract>, bills: map<BillId, Bill>,
                        st: map<UserId, StudentProfile>, sp: map<UserId, string>,
                        beds: map<BedId, Bed>, rooms: map<RoomId, Room>, id: UserId)
    requires ContractsOk(cs, st, beds, rooms) && BillsOk(bills, cs, st, sp)
    ensures ContractsOk(ContractsNotOf(cs, id), st - {id}, beds, rooms)
    ensures BillsOk(BillsNotOf(bills, id, ContractsNotOf(cs, id)), ContractsNotOf(cs, id), st - {id}, sp)
  {
  }

  lemma ClearBedsOk(cs: map<ContractId, RentalContract>, st: map<UserId, StudentProfile>,
                    beds: map<BedId, Bed>, beds': map<BedId, Bed>, rooms: map<RoomId, Room>, gone: set<BedId>)
    requires ContractsOk(cs, st, beds, rooms)
    requires forall b :: b in beds && b !in gone ==> b in beds'
    ensures ContractsOk(ClearBeds(cs, gone), st, beds', rooms)
  {
    var r := ClearBeds(cs, gone);
    forall c, d | c in r && d in r && c != d
      ensures r[c].rentalNumber != r[d].rentalNumber
      ensures r[c].bed.Some? && r[c].bed == r[d].bed ==> r[c].student != r[d].student
    {
    }
  }

  lemma ClearRoomOk(cs: map<ContractId, RentalContract>, st: map<UserId, StudentProfile>,
                    beds: map<BedId, Bed>, rooms: map<RoomId, Room>, gone: RoomId)
    requires ContractsOk(cs, st, beds, rooms)
    ensures ContractsOk(ClearRoom(cs, gone), st, beds, rooms - {gone})
  {
    var r := ClearRoom(cs, gone);
    forall c, d | c in r && d in r && c != d
      ensures r[c].rentalNumber != r[d].rentalNumber
      ensures r[c].bed.Some? && r[c].bed == r[d].bed ==> r[c].student != r[d].student
    {
    }
  }

  /** A new bed joins the beds of its room and no other. */
  lemma BedsOfAdded(beds: map<BedId, Bed>, id: BedId, b: Bed)
    requires id !in beds
    ensures BedsOf(beds[id := b], b.room) == BedsOf(beds, b.room) + {id}
    ensures |BedsOf(beds[id := b], b.room)| == |BedsOf(beds, b.room)| + 1
  {
    assert BedsOf(beds[id := b], b.room) == BedsOf(beds, b.room) + {id};
  }

  /** The beds `CASCADE` deletes with room `id`. */
  function BedsOf(beds: map<BedId, Bed>, id: RoomId): (r: set<BedId>)
    ensures forall b :: b in r <==> b in beds && beds[b].room == id
  {
    set b | b in beds && beds[b].room == id
  }

  function BedsNotIn(beds: map<BedId, Bed>, id: RoomId): (r: map<BedId, Bed>)
    ensures forall b :: b in r <==> b in beds && beds[b].room != id
    ensures forall b :: b in r ==> r[b] == beds[b]
  {
    map b | b in beds && beds[b].room != id :: beds[b]
  }

  function PostsNotOn(posts: map<PostId, Post>, id: RoomId): (r: map<PostId, Post>)
    ensures forall p :: p in r <==> p in posts && posts[p].room != id
    ensures forall p :: p in r ==> r[p] == posts[p]
  {
    map p | p in posts && posts[p].room != id :: posts[p]
  }

  /** The likes whose post survives. */
  function LikesOn(likes: map<(UserId, PostId), bool>, posts: map<PostId, Post>): (r: map<(UserId, PostId), bool>)
    ensures forall k :: k in r <==> k in likes && k.1 in posts
    ensures forall k :: k in r ==> r[k] == likes[k]
  {
    map k | k in likes && k.1 in posts :: likes[k]
  }

  function BillsNotOn(bills: map<BillId, Bill>, id: ContractId): (r: map<BillId, Bill>)
    ensures forall b :: b in r <==> b in bills && bills[b].contract != id
    ensures forall b :: b in r ==> r[b] == bills[b]
  {
    map b | b in bills && bills[b].contract != id :: bills[b]
  }

  function ContractsNotOf(cs: map<ContractId, RentalContract>, id: UserId): (r: map<ContractId, RentalContract>)
    ensures forall c :: c in r <==> c in cs && cs[c].student != id
    ensures forall c :: c in r ==> r[c] == cs[c]
  {
    map c | c in cs && cs[c].student != id :: cs[c]
  }

  /** The bills left once student `id` and the contracts outside `cs` are gone. */
  function BillsNotOf(bills: map<BillId, Bill>, id: UserId, cs: map<ContractId, RentalContract>): (r: map<BillId, Bill>)
    ensures forall b :: b in r <==> b in bills && bills[b].student != id && bills[b].contract in cs
    ensures forall b :: b in r ==> r[b] == bills[b]
  {
    map b | b in bills && bills[b].student != id && bills[b].contract in cs :: bills[b]
  }

  /** Rewriting one contract keeps `ContractsOk` when its references and its
      rental number stay as they were. */
  lemma ReplaceContractOk(cs: map<ContractId, RentalContract>, id: ContractId, c: RentalContract,
                          st: map<UserId, StudentProfile>, beds: map<BedId, Bed>, rooms: map<RoomId, Room>)
    requires ContractsOk(cs, st, beds, rooms) && id in cs
    requires c.rentalNumber == cs[id].rentalNumber && c.bed == cs[id].bed
    requires c.student == cs[id].student && c.room == cs[id].room
    ensures ContractsOk(cs[id := c], st, beds, rooms)
  {
    var r := cs[id := c];
    forall x | x in r ensures r[x].student == (if x == id then cs[id] else cs[x]).student {
    }
    forall x, y | x in r && y in r && x != y
      ensures r[x].rentalNumber != r[y].rentalNumber
      ensures r[x].bed.Some? && r[x].bed == r[y].bed ==> r[x].student != r[y].student
    {
    }
  }

  /** All tables of the store at one moment. */
  datatype Tables = Tables(
    users: map<UserId, User>, administrators: set<UserId>, managers: map<UserId, string>,
    specialists: map<UserId, string>, students: map<UserId, StudentProfile>,
    rooms: map<RoomId, Room>, beds: map<BedId, Bed>, posts: map<PostId, Post>,
    likes: map<(UserId, PostId), bool>, contracts: map<ContractId, RentalContract>, bills: map<BillId, Bill>)

  /** Every constraint at once. */
  ghost predicate TablesOk(t: Tables)
  {
    && UsersOk(t.users)
    && ProfilesOk(t.users, t.administrators, t.managers, t.specialists, t.students)
    && InventoryOk(t.rooms, t.beds)
    && PostsOk(t.posts, t.rooms, t.likes, t.users)
    && ContractsOk(t.contracts, t.students, t.beds, t.rooms)
    && BillsOk(t.bills, t.contracts, t.students, t.specialists)
  }

  /** The empty store satisfies every constraint. */
  lemma EmptyOk()
    ensures TablesOk(Tables(map[], {}, map[], map[], map[], map[], map[], map[], map[], map[], map[]))
  {
  }

  /** Writing a user row (new or existing) keeps the constraints when no other
      user has its email or identification and it fits the column widths. */
  lemma PutUserOk(t: Tables, id: UserId, u: User)
    requires TablesOk(t)
    requires forall v :: v in t.users && v != id ==>
               t.users[v].email != u.email && t.users[v].identification != u.identification
    requires FitsColumns(u)
    ensures TablesOk(t.(users := t.users[id := u]))
  {
  }

  /** Rewriting a user row keeps the constraints when its unique and
      width-limited columns stay as they were. */
  lemma SetUserOk(t: Tables, id: UserId, u: User)
    requires TablesOk(t) && id in t.users
    requires u.email == t.users[id].email && u.identification == t.users[id].identification
    requires u.gender == t.users[id].gender && u.fullName == t.users[id].fullName
    requires u.address == t.users[id].address && u.phone == t.users[id].phone
    ensures TablesOk(t.(users := t.users[id := u]))
  {
    PutUserOk(t, id, u);
  }

  /** An Administrator profile for an existing user keeps the constraints. */
  lemma AddAdministratorOk(t: Tables, id: UserId)
    requires TablesOk(t) && id in t.users
    ensures TablesOk(t.(administrators := t.administrators + {id}))
  {
  }

  /** Writing the Manager profile of an existing user keeps the constraints. */
  lemma PutManagerOk(t: Tables, id: UserId, certificate: string)
    requires TablesOk(t) && id in t.users
    ensures TablesOk(t.(managers := t.managers[id := certificate]))
  {
  }

  /** Writing the Specialist profile of an existing user keeps the constraints:
      a bill's specialist stays a specialist. */
  lemma PutSpecialistOk(t: Tables, id: UserId, degree: string)
    requires TablesOk(t) && id in t.users
    ensures TablesOk(t.(specialists := t.specialists[id := degree]))
  {
  }

  /** Writing the Student profile of an existing user keeps the constraints
      when the student id fits its column. */
  lemma PutStudentOk(t: Tables, id: UserId, p: StudentProfile)
    requires TablesOk(t) && id in t.users && |p.studentId| <= StudentIdMaxLength
    ensures TablesOk(t.(students := t.students[id := p]))
  {
  }

  /** Writing a room keeps the constraints once its capacity is filled in. */
  lemma PutRoomOk(t: Tables, id: RoomId, room: Room)
    requires TablesOk(t) && room.numberOfBed.Some?
    ensures TablesOk(t.(rooms := t.rooms[id := room]))
  {
  }

  /** Writing a bed keeps the constraints once its price is filled in and its
      room exists. */
  lemma PutBedOk(t: Tables, id: BedId, bed: Bed)
    requires TablesOk(t) && bed.price.Some? && bed.room in t.rooms
    ensures TablesOk(t.(beds := t.beds[id := bed]))
  {
  }

  /** Writing a post keeps the constraints when its room exists and carries
      no other post. */
  lemma PutPostOk(t: Tables, id: PostId, p: Post)
    requires TablesOk(t) && p.room in t.rooms
    requires forall q :: q in t.posts && q != id ==> t.posts[q].room != p.room
    ensures TablesOk(t.(posts := t.posts[id := p]))
  {
  }

  /** A likes table whose every like joins an existing user and post keeps the constraints. */
  lemma SetLikesOk(t: Tables, likes: map<(UserId, PostId), bool>)
    requires TablesOk(t)
    requires forall k :: k in likes ==> k.0 in t.users && k.1 in t.posts
    ensures TablesOk(t.(likes := likes))
  {
  }

  /** A new contract keeps the constraints when it refers to existing rows,
      carries a rental number no other contract has, and does not repeat an
      existing (student, bed) pair. */
  lemma AddContractOk(t: Tables, id: ContractId, c: RentalContract)
    requires TablesOk(t) && id !in t.contracts
    requires c.student in t.students && (c.bed.Some? ==> c.bed.value in t.beds)
    requires c.room.Some? ==> c.room.value in t.rooms
    requires forall d :: d in t.contracts ==> t.contracts[d].rentalNumber != c.rentalNumber
    requires c.bed.Some? ==> forall d :: d in t.contracts && t.contracts[d].bed == c.bed ==>
                                         t.contracts[d].student != c.student
    ensures TablesOk(t.(contracts := t.contracts[id := c]))
  {
    ContractsOkAfterAdd(t.contracts, t.students, t.beds, t.rooms, id, c);
    BillsOkOnMoreContracts(t.bills, t.contracts, t.contracts[id := c], t.students, t.specialists);
  }

  /** Rewriting a contract keeps the constraints when its rental number and
      its references stay as they were (a status change). */
  lemma SetContractOk(t: Tables, id: ContractId, c: RentalContract)
    requires TablesOk(t) && id in t.contracts
    requires c.rentalNumber == t.contracts[id].rentalNumber && c.bed == t.contracts[id].bed
    requires c.student == t.contracts[id].student && c.room == t.contracts[id].room
    ensures TablesOk(t.(contracts := t.contracts[id := c]))
  {
    ReplaceContractOk(t.contracts, id, c, t.students, t.beds, t.rooms);
    BillsOkOnMoreContracts(t.bills, t.contracts, t.contracts[id := c], t.students, t.specialists);
  }

  /** A new bill keeps the constraints when it refers to existing rows and
      repeats neither a bill number nor a billed contract. */
  lemma AddBillOk(t: Tables, id: BillId, b: Bill)
    requires TablesOk(t) && id !in t.bills
    requires b.contract in t.contracts && b.student in t.students && b.specialist in t.specialists
    requires forall e :: e in t.bills ==> t.bills[e].billNumber != b.billNumber && t.bills[e].contract != b.contract
    ensures TablesOk(t.(bills := t.bills[id := b]))
  {
    BillsOkAfterAdd(t.bills, t.contracts, t.students, t.specialists, id, b);
  }

  /** An edited bill keeps the constraints when it keeps its number, refers
      to existing rows and takes no contract another bill has. */
  lemma SetBillOk(t: Tables, id: BillId, b: Bill)
    requires TablesOk(t) && id in t.bills && b.billNumber == t.bills[id].billNumber
    requires b.contract in t.contracts && b.student in t.students && b.specialist in t.specialists
    requires forall e :: e in t.bills && e != id ==> t.bills[e].contract != b.contract
    ensures TablesOk(t.(bills := t.bills[id := b]))
  {
    BillsOkAfterSet(t.bills, t.contracts, t.students, t.specialists, id, b);
  }

  /** Deleting a bed and clearing the contracts on it keeps the constraints. */
  lemma RemoveBedOk(t: Tables, id: BedId)
    requires TablesOk(t)
    ensures TablesOk(t.(beds := t.beds - {id}, contracts := ClearBeds(t.contracts, {id})))
  {
    ClearBedsOk(t.contracts, t.students, t.beds, t.beds - {id}, t.rooms, {id});
    BillsOkOnMoreContracts(t.bills, t.contracts, ClearBeds(t.contracts, {id}), t.students, t.specialists);
  }

  /** Deleting a room with its beds, its post and that post's likes, and
      clearing the contracts on them, keeps the constraints. */
  lemma RemoveRoomOk(t: Tables, id: RoomId)
    requires TablesOk(t)
    ensures TablesOk(t.(rooms := t.rooms - {id}, beds := BedsNotIn(t.beds, id),
                        contracts := ClearRoom(ClearBeds(t.contracts, BedsOf(t.beds, id)), id),
                        posts := PostsNotOn(t.posts, id), likes := LikesOn(t.likes, PostsNotOn(t.posts, id))))
  {
    var beds' := BedsNotIn(t.beds, id);
    ClearBedsOk(t.contracts, t.students, t.beds, beds', t.rooms, BedsOf(t.beds, id));
    var cleared := ClearBeds(t.contracts, BedsOf(t.beds, id));
    ClearRoomOk(cleared, t.students, beds', t.rooms, id);
    BillsOkOnMoreContracts(t.bills, t.contracts, ClearRoom(cleared, id), t.students, t.specialists);
  }

  /** Deleting a contract with its bill keeps the constraints. */
  lemma RemoveContractOk(t: Tables, id: ContractId)
    requires TablesOk(t)
    ensures TablesOk(t.(contracts := t.contracts - {id}, bills := BillsNotOn(t.bills, id)))
  {
    ContractDeleteOk(t.contracts, t.bills, t.students, t.specialists, t.beds, t.rooms, id);
  }

  /** Deleting a student profile with the student's contracts and bills keeps the constraints. */
  lemma RemoveStudentOk(t: Tables, id: UserId)
    requires TablesOk(t)
    ensures var cs := ContractsNotOf(t.contracts, id);
            TablesOk(t.(students := t.students - {id}, contracts := cs, bills := BillsNotOf(t.bills, id, cs)))
  {
    StudentDeleteOk(t.contracts, t.bills, t.students, t.specialists, t.beds, t.rooms, id);
  }
}

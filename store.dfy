/** The relational store: one map per table, kept within the constraints of
    `Integrity`, with the model-level save hooks (`Room.save`, `Bed.save`)
    and the referential actions a delete triggers. */
module Store {
  import opened Common
  import opened UserModels
  import opened RentalModels
  import opened Integrity

  /** The database: every table at once, as one value that each write replaces. */
  class Database {
    const config: Config
    var tables: Tables

    ghost predicate Valid()
      reads this`tables
    {
      TablesOk(tables)
    }

    constructor (cfg: Config)
      ensures Valid() && config == cfg
      ensures tables == Tables(map[], {}, map[], map[], map[], map[], map[], map[], map[], map[], map[])
    {
      config := cfg;
      tables := Tables(map[], {}, map[], map[], map[], map[], map[], map[], map[], map[], map[]);
      EmptyOk();
    }

    /** The contract ids some bill refers to. */
    function BilledContracts(): set<ContractId>
      reads this`tables
    {
      set b | b in tables.bills :: tables.bills[b].contract
    }

    /** `Room.save`: a room without a capacity gets the default of its type;
        a capacity already set is kept. Then the row is written. */
    method SaveRoom(id: RoomId, room: Room)
      requires Valid()
      modifies this`tables
      ensures Valid()
      ensures room.numberOfBed.Some? ==> tables == old(tables).(rooms := old(tables.rooms)[id := room])
      ensures room.numberOfBed.None? ==>
                var saved := room.(numberOfBed := Some(DefaultNumberOfBed(config, room.roomType)));
                tables == old(tables).(rooms := old(tables.rooms)[id := saved])
    {
      var saved := room;
      if saved.numberOfBed.None? {
        saved := saved.(numberOfBed := Some(DefaultNumberOfBed(config, saved.roomType)));
      }
      PutRoomOk(tables, id, saved);
      tables := tables.(rooms := tables.rooms[id := saved]);
    }

    /** `Bed.save`: a bed without a price gets the default of its room's type;
        a price already set is kept. Then the row is written. */
    method SaveBed(id: BedId, bed: Bed)
      requires Valid() && bed.room in tables.rooms
      modifies this`tables
      ensures Valid()
      ensures bed.price.Some? ==> tables == old(tables).(beds := old(tables.beds)[id := bed])
      ensures bed.price.None? ==>
                var saved := bed.(price := Some(DefaultBedPrice(config, old(tables.rooms)[bed.room].roomType)));
                tables == old(tables).(beds := old(tables.beds)[id := saved])
    {
      var saved := bed;
      if saved.price.None? {
        saved := saved.(price := Some(DefaultBedPrice(config, tables.rooms[saved.room].roomType)));
      }
      PutBedOk(tables, id, saved);
      tables := tables.(beds := tables.beds[id := saved]);
    }

    /** Deleting a bed: the row goes, and contracts on it keep no bed (`SET_NULL`). */
    method DeleteBed(id: BedId)
      requires Valid()
      modifies this`tables
      ensures Valid()
      ensures tables == old(tables).(beds := old(tables.beds) - {id}, contracts := ClearBeds(old(tables.contracts), {id}))
    {
      RemoveBedOk(tables, id);
      tables := tables.(beds := tables.beds - {id}, contracts := ClearBeds(tables.contracts, {id}));
    }

    /** Deleting a room: its beds are deleted (`CASCADE`, which in turn clears
        the contracts on them), its post and that post's likes are deleted,
        and contracts that named the room keep no room (`SET_NULL`). */
    method DeleteRoom(id: RoomId)
      requires Valid()
      modifies this`tables
      ensures Valid()
      ensures var t := old(tables);
              tables == t.(rooms := t.rooms - {id}, beds := BedsNotIn(t.beds, id),
                           contracts := ClearRoom(ClearBeds(t.contracts, BedsOf(t.beds, id)), id),
                           posts := PostsNotOn(t.posts, id), likes := LikesOn(t.likes, PostsNotOn(t.posts, id)))
    {
      RemoveRoomOk(tables, id);
      var t := tables;
      tables := t.(rooms := t.rooms - {id}, beds := BedsNotIn(t.beds, id),
                   contracts := ClearRoom(ClearBeds(t.contracts, BedsOf(t.beds, id)), id),
                   posts := PostsNotOn(t.posts, id), likes := LikesOn(t.likes, PostsNotOn(t.posts, id)));
    }

    /** Deleting a contract deletes its bill (`CASCADE`). */
    method DeleteContract(id: ContractId)
      requires Valid()
      modifies this`tables
      ensures Valid()
      ensures tables == old(tables).(contracts := old(tables.contracts) - {id}, bills := BillsNotOn(old(tables.bills), id))
    {
      RemoveContractOk(tables, id);
      tables := tables.(contracts := tables.contracts - {id}, bills := BillsNotOn(tables.bills, id));
    }

    /** Deleting a student profile deletes the student's contracts and bills,
        and the bills of those contracts (`CASCADE` on every link). */
    method DeleteStudent(id: UserId)
      requires Valid()
      modifies this`tables
      ensures Valid()
      ensures var t, cs := old(tables), ContractsNotOf(old(tables.contracts), id);
              tables == t.(students := t.students - {id}, contracts := cs, bills := BillsNotOf(t.bills, id, cs))
    {
      RemoveStudentOk(tables, id);
      var cs := ContractsNotOf(tables.contracts, id);
      tables := tables.(students := tables.students - {id}, contracts := cs, bills := BillsNotOf(tables.bills, id, cs));
    }
  }
}

/** The inventory and rental rows: rooms, beds, posts, rental contracts and
    their bills, with the status enumerations and the type-dependent defaults. */
module RentalModels {
  import opened Common
  import opened UserModels

  type RoomId = nat
  type BedId = nat
  type PostId = nat
  type ContractId = nat
  type BillId = nat
  /** A UUID column (`rental_number`, `bill_number`). */
  type Uuid = nat

  datatype RoomType = Normal | Service
  datatype RoomFor = Male | Female
  datatype BedStatus = Vacuity | NonVacuity
  datatype ContractStatus = Cancel | Processing | Success | Fail
  datatype BillStatus = Paid | Unpaid

  /** The value stored for `Room.room_for`; it is compared with `User.gender`. */
  function RoomForValue(r: RoomFor): string
  {
    match r
    case Male => "M"
    case Female => "F"
  }

  /** The four constants of the constants module, which is not part of this model. */
  datatype Config = Config(
    bedsNormalRoom: int, bedsServiceRoom: int, priceNormalRoom: real, priceServiceRoom: real)

  /** `BaseModel.is_active` is the `active` flag of every row below. */
  datatype Room = Room(
    name: string, numberOfBed: Option<int>, roomType: RoomType, roomFor: RoomFor, active: bool)

  /** Bed prices are float columns; the model copies them and never computes with them. */
  datatype Bed = Bed(
    name: string, price: Option<real>, description: string, status: BedStatus, room: RoomId, active: bool)

  datatype Post = Post(name: string, description: string, room: RoomId, active: bool)

  datatype RentalContract = RentalContract(
    rentalNumber: Uuid, timeRental: string, status: ContractStatus,
    bed: Option<BedId>, student: UserId, room: Option<RoomId>, active: bool)

  datatype Bill = Bill(
    billNumber: Uuid, total: real, status: BillStatus,
    student: UserId, specialist: UserId, contract: ContractId, active: bool)

  /** The capacity `Room.save` fills in: the NORMAL constant for a normal room,
      the SERVICE constant for any other. */
  function DefaultNumberOfBed(cfg: Config, t: RoomType): int
  {
    if t == Normal then cfg.bedsNormalRoom else cfg.bedsServiceRoom
  }

  /** The price `Bed.save` fills in, chosen by the type of the bed's room. */
  function DefaultBedPrice(cfg: Config, t: RoomType): real
  {
    if t == Normal then cfg.priceNormalRoom else cfg.priceServiceRoom
  }

  /** Field defaults of new rows. */
  const DefaultRoomType: RoomType := Normal
  const DefaultRoomFor: RoomFor := Male
  const DefaultBedStatus: BedStatus := Vacuity
  const InitialContractStatus: ContractStatus := Processing
  const InitialBillStatus: BillStatus := Unpaid

  /** The width of the `time_rental` column (`max_length=255`). */
  const TimeRentalMaxLength: nat := 255
}

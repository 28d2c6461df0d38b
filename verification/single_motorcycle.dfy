/** The hard-coded single-motorcycle configuration of
    src/lib/single-motorcycle.ts. */
module SingleMotorcycle {
  import opened Wrappers
  import opened Schema

  /** The shape of the `SINGLE_MOTORCYCLE` constant: the identity fields of a
      motorcycle, without owner or timestamps. */
  datatype Record = Record(
    id: string,
    name: string,
    brand: string,
    model: string,
    year: int,
    currentKilometers: int,
    engineSize: int,
    color: string,
    licensePlate: string)

  /** `SINGLE_MOTORCYCLE`. */
  const Default: Record := Record(
    "550e8400-e29b-41d4-a716-446655440000",
    "Nyiu", "Kawasaki", "Z900", 2025, 0, 948, "Black", "")

  /** `getSingleMotorcycleId()`: the fixed identifier every handler scopes
      its queries to. */
  function GetSingleMotorcycleId(): (id: string)
    ensures id == "550e8400-e29b-41d4-a716-446655440000"
  {
    Default.id
  }

  /** The values every copy of the bootstrap inserts, with the owner that
      copy supplies (none, in three of the five copies). */
  function DefaultInsert(owner: Option<string>): (n: NewMotorcycle)
    ensures n.id == GetSingleMotorcycleId() && n.userId == owner
    ensures n.name == "Nyiu" && n.brand == "Kawasaki" && n.model == "Z900" && n.year == 2025
    ensures n.currentKilometers == 0 && n.engineSize == Some(948)
    ensures n.color == Some("Black") && n.licensePlate == Some("")
  {
    NewMotorcycle(Default.id, owner, Default.name, Default.brand, Default.model, Default.year,
                  Default.currentKilometers, Some(Default.engineSize), Some(Default.color),
                  Some(Default.licensePlate))
  }

  /** The row the bootstrap stores for `owner` at time `now`; it satisfies
      every column constraint of `motorcycles`. */
  function DefaultRow(owner: string, now: int): (m: Motorcycle)
    ensures MotorcycleFits(m)
    ensures m.id == GetSingleMotorcycleId() && m.userId == owner
    ensures m.currentKilometers == 0 && m.licensePlate == Some("")
    ensures m.createdAt == now && m.updatedAt == now
  {
    var n := DefaultInsert(Some(owner));
    Motorcycle(n.id, owner, n.name, n.brand, n.model, n.year, n.currentKilometers,
               n.engineSize, n.color, n.licensePlate, now, now)
  }

  /** The higher of two readings: a create moves the odometer to the larger
      of the current reading and the one it records. */
  function Max(a: int, b: int): int { if a < b then b else a }

  /** The single motorcycle's odometer reading as stored, 0 when it has no
      row (the default record's reading). */
  function Odometer(db: Db): int
  {
    if GetSingleMotorcycleId() in db.motorcycles
    then db.motorcycles[GetSingleMotorcycleId()].currentKilometers
    else Default.currentKilometers
  }

  /** `motorcycle || SINGLE_MOTORCYCLE`: the stored row, or the constant
      when the lookup found none. */
  datatype MotorcycleView = Stored(row: Motorcycle) | Fallback(record: Record)

  /** The view of the single motorcycle a handler replies with after
      looking it up. */
  function ViewOf(db: Db): (v: MotorcycleView)
    ensures v.Stored? <==> GetSingleMotorcycleId() in db.motorcycles
    ensures v.Stored? ==> v.row == db.motorcycles[GetSingleMotorcycleId()]
    ensures v.Fallback? ==>
      && v.record.id == GetSingleMotorcycleId() && v.record.name == "Nyiu"
      && v.record.brand == "Kawasaki" && v.record.model == "Z900" && v.record.year == 2025
      && v.record.currentKilometers == 0 && v.record.engineSize == 948
      && v.record.color == "Black" && v.record.licensePlate == ""
  {
    if GetSingleMotorcycleId() in db.motorcycles then Stored(db.motorcycles[GetSingleMotorcycleId()])
    else Fallback(Default)
  }
}

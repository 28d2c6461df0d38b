/** src/app/api/motorcycle/route.ts: reading the single motorcycle and
    updating its two editable fields. */
module MotorcycleRoute {
  import opened Wrappers
  import opened Schema
  import opened SingleMotorcycle
  import opened Http
  import opened Bootstrap

  /** The JSON body of `PUT /api/motorcycle`. `None` is a key the body does
      not have (`undefined`); for the plate, `Some(None)` is an explicit
      `null`. Every field but the first two is ignored. */
  datatype MotorcycleBody = MotorcycleBody(
    licensePlate: Option<Option<string>>,
    currentKilometers: Option<int>,
    id: Option<string>,
    userId: Option<string>,
    name: Option<string>,
    brand: Option<string>,
    model: Option<string>,
    year: Option<int>,
    engineSize: Option<int>,
    color: Option<string>)

  /** The two rows agree on every column `PUT` may not change. */
  predicate SameIdentity(a: Motorcycle, b: Motorcycle)
  {
    && a.id == b.id && a.userId == b.userId && a.name == b.name && a.brand == b.brand
    && a.model == b.model && a.year == b.year && a.engineSize == b.engineSize
    && a.color == b.color && a.createdAt == b.createdAt
  }

  /** `GET /api/motorcycle`: the bootstrapped row. */
  function Get(db: Db, sessionUserId: Option<string>, now: int): (r: Handled<MotorcycleView>)
    ensures r.reply.Json? <==> EnsureOwned(db, sessionUserId, now).Ok?
    ensures r.reply.Failure? ==> r.reply == Failure(500, "Failed to fetch motorcycle") && r.db == db
    ensures r.reply.Json? ==>
      && r.reply.status == 200
      && r.db == EnsureOwned(db, sessionUserId, now).value
      && r.reply.value == Stored(Bootstrapped(db, sessionUserId, now))
  {
    match EnsureOwned(db, sessionUserId, now)
    case Err(_) => Handled(db, Failure(500, "Failed to fetch motorcycle"))
    case Ok(db1) => Handled(db1, Json(200, ViewOf(db1)))
  }

  /** The `updateData` object: `updatedAt` always, the plate and the reading
      only when the body has them. */
  function UpdateData(body: MotorcycleBody, now: int): MotorcycleChange
  {
    MotorcycleChange(now, body.licensePlate, body.currentKilometers)
  }

  /** `PUT /api/motorcycle`: replies with the updated row. */
  function Put(db: Db, sessionUserId: Option<string>, body: MotorcycleBody, now: int)
    : (r: Handled<Option<Motorcycle>>)
    ensures r.reply.Json? <==> EnsureOwned(db, sessionUserId, now).Ok? && ChangeFits(UpdateData(body, now))
    ensures r.reply.Failure? ==> r.reply == Failure(500, "Failed to update motorcycle")
    ensures r.reply.Failure? ==>
      r.db == (if EnsureOwned(db, sessionUserId, now).Ok? then EnsureOwned(db, sessionUserId, now).value else db)
    ensures r.db.services == db.services && r.db.events == db.events
    ensures r.db.modifications == db.modifications
    ensures r.reply.Json? ==>
      var before := Bootstrapped(db, sessionUserId, now);
      && GetSingleMotorcycleId() in r.db.motorcycles
      && var after := r.db.motorcycles[GetSingleMotorcycleId()];
      && r.reply.status == 200
      && r.reply.value == Some(after)
      && SameIdentity(after, before)
      && after.updatedAt == now
      && after.licensePlate ==
           (if body.licensePlate.Some? then OptionalTruncate(body.licensePlate.value, 20) else before.licensePlate)
      && after.currentKilometers ==
           (if body.currentKilometers.Some? then body.currentKilometers.value else before.currentKilometers)
      && (forall k :: k in db.motorcycles && k != GetSingleMotorcycleId() ==>
            k in r.db.motorcycles && r.db.motorcycles[k] == db.motorcycles[k])
      && r.db.motorcycles.Keys == db.motorcycles.Keys + {GetSingleMotorcycleId()}
      && r.db.users == db.users
    ensures Valid(db) ==> Valid(r.db)
  {
    match EnsureOwned(db, sessionUserId, now)
    case Err(_) => Handled(db, Failure(500, "Failed to update motorcycle"))
    case Ok(db1) =>
      var id := GetSingleMotorcycleId();
      match UpdateMotorcycle(db1, id, UpdateData(body, now))
      case Err(_) => Handled(db1, Failure(500, "Failed to update motorcycle"))
      case Ok(db2) =>
        var updated := if id in db2.motorcycles then Some(db2.motorcycles[id]) else None;
        Handled(db2, Json(200, updated))
  }

  /** Only the plate and the reading of the body are read: two bodies that
      agree on them, whatever identity, name, brand, model, year, engine size
      or colour they carry, make the same update with the same reply. */
  lemma PutIgnoresOtherFields(db: Db, sessionUserId: Option<string>, a: MotorcycleBody, b: MotorcycleBody, now: int)
    requires a.licensePlate == b.licensePlate && a.currentKilometers == b.currentKilometers
    ensures Put(db, sessionUserId, a, now) == Put(db, sessionUserId, b, now)
  {
    assert UpdateData(a, now) == UpdateData(b, now);
  }

  /** A read after an accepted update, at any later time and under any
      session, shows the row the update replied with and changes nothing. */
  lemma GetAfterPut(db: Db, sessionUserId: Option<string>, body: MotorcycleBody, now: int,
                    reader: Option<string>, later: int)
    requires Put(db, sessionUserId, body, now).reply.Json?
    ensures var put := Put(db, sessionUserId, body, now);
      var get := Get(put.db, reader, later);
      && get.reply.Json? && get.db == put.db
      && get.reply.value == Stored(put.reply.value.value)
  {
    var put := Put(db, sessionUserId, body, now);
    assert EnsureOwned(put.db, reader, later) == Ok(put.db);
  }

  /** Sending the same update twice leaves the store as sending it once. */
  lemma PutIdempotent(db: Db, sessionUserId: Option<string>, body: MotorcycleBody, now: int)
    requires Put(db, sessionUserId, body, now).reply.Json?
    ensures var once := Put(db, sessionUserId, body, now);
      Put(once.db, sessionUserId, body, now) == once
  {
    var once := Put(db, sessionUserId, body, now);
    var db1 := EnsureOwned(db, sessionUserId, now).value;
    assert EnsureOwned(once.db, sessionUserId, now) == Ok(once.db);
    var id := GetSingleMotorcycleId();
    var c := UpdateData(body, now);
    assert Apply(Apply(db1.motorcycles[id], c), c) == Apply(db1.motorcycles[id], c);
    assert once.db.motorcycles[id := Apply(once.db.motorcycles[id], c)] == once.db.motorcycles;
  }

  /** Unlike a service or event create, `PUT` can lower the odometer: a
      motorcycle at 8000 km updated to 100 km reads 100 km afterwards. */
  lemma PutCanLowerOdometer()
    ensures var db := Db({"owner"}, map[GetSingleMotorcycleId() := DefaultRow("owner", 0).(currentKilometers := 8000)],
                         [], [], []);
            var body := MotorcycleBody(None, Some(100), None, None, None, None, None, None, None, None);
            var r := Put(db, None, body, 1);
      Odometer(db) == 8000 && r.reply.Json? && Odometer(r.db) == 100
  {
  }
}

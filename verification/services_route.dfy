/** src/app/api/services/route.ts: listing and creating the services of the
    single motorcycle, with the odometer raised by a create that records more
    kilometres than the motorcycle shows. */
module ServicesRoute {
  import opened Wrappers
  import opened Schema
  import opened Seqs
  import opened SingleMotorcycle
  import opened Http
  import opened Bootstrap

  /** The JSON body of `POST /api/services`. A `motorcycleId` in it is
      accepted and ignored. */
  datatype ServiceBody = ServiceBody(
    motorcycleId: Option<string>,
    date: Option<Stamp>,
    kilometers: Option<int>,
    serviceType: Option<string>,
    description: Option<string>,
    cost: Option<int>,
    location: Option<string>,
    nextServiceKm: Option<int>)

  /** One element of the `GET /api/services` array: the service and the
      left-joined motorcycle's display fields. */
  datatype ServiceListing = ServiceListing(
    service: Service,
    motorcycleName: Option<string>,
    motorcycleBrand: Option<string>,
    motorcycleModel: Option<string>)

  function ListingDate(l: ServiceListing): int { l.service.date }

  /** `LEFT JOIN motorcycles ON services.motorcycle_id = motorcycles.id`. */
  function Join(db: Db, s: Service): (l: ServiceListing)
    ensures l.service == s
  {
    if s.motorcycleId in db.motorcycles then
      var m := db.motorcycles[s.motorcycleId];
      ServiceListing(s, Some(m.name), Some(m.brand), Some(m.model))
    else ServiceListing(s, None, None, None)
  }

  /** The services a listing shows, in order. */
  function Listed(ls: seq<ServiceListing>): (r: seq<Service>)
    ensures |r| == |ls|
    ensures forall i :: 0 <= i < |ls| ==> r[i] == ls[i].service
  {
    seq(|ls|, i requires 0 <= i < |ls| => ls[i].service)
  }

  /** Joins every service of `s`, keeping their order. */
  function JoinAll(db: Db, s: seq<Service>): (r: seq<ServiceListing>)
    ensures Listed(r) == s
    ensures SortedDesc(s, ServiceDate) ==> SortedDesc(r, ListingDate)
    ensures forall i :: 0 <= i < |s| && s[i].motorcycleId in db.motorcycles ==>
      && r[i].motorcycleName == Some(db.motorcycles[s[i].motorcycleId].name)
      && r[i].motorcycleBrand == Some(db.motorcycles[s[i].motorcycleId].brand)
      && r[i].motorcycleModel == Some(db.motorcycles[s[i].motorcycleId].model)
  {
    var r := seq(|s|, i requires 0 <= i < |s| => Join(db, s[i]));
    assert Listed(r) == s;
    r
  }

  /** `GET /api/services`: after the bootstrap, exactly the single
      motorcycle's services, each with its motorcycle's display fields, most
      recent first. `sessionUserId` is the signed-in user the bootstrap
      reads (see the findings about the bootstrap copies). */
  function Get(db: Db, sessionUserId: Option<string>, now: int): (r: Handled<seq<ServiceListing>>)
    ensures r.reply.Json? <==> EnsureOwned(db, sessionUserId, now).Ok?
    ensures r.reply.Failure? ==> r.db == db && r.reply == Failure(500, "Failed to fetch services")
    ensures r.reply.Json? ==>
      && r.db == EnsureOwned(db, sessionUserId, now).value
      && r.reply.status == 200
      && multiset(Listed(r.reply.value)) == multiset(Filter(db.services, ServiceOf(GetSingleMotorcycleId())))
      && SortedDesc(r.reply.value, ListingDate)
      && (forall i :: 0 <= i < |r.reply.value| ==>
            && r.reply.value[i].motorcycleName == Some(Bootstrapped(db, sessionUserId, now).name)
            && r.reply.value[i].motorcycleBrand == Some(Bootstrapped(db, sessionUserId, now).brand)
            && r.reply.value[i].motorcycleModel == Some(Bootstrapped(db, sessionUserId, now).model))
  {
    match EnsureOwned(db, sessionUserId, now)
    case Err(_) => Handled(db, Failure(500, "Failed to fetch services"))
    case Ok(db1) =>
      var id := GetSingleMotorcycleId();
      var mine := Filter(db1.services, ServiceOf(id));
      var sorted := SortDesc(mine, ServiceDate);
      assert forall i :: 0 <= i < |sorted| ==> sorted[i].motorcycleId == id by {
        forall i | 0 <= i < |sorted|
          ensures sorted[i].motorcycleId == id
        {
          assert sorted[i] in multiset(mine);
          assert ServiceOf(id)(sorted[i]);
        }
      }
      var listing := JoinAll(db1, sorted);
      Handled(db1, Json(200, listing))
  }

  /** `!date || !kilometers || !type` is false. */
  predicate HasRequiredFields(b: ServiceBody)
  {
    TruthyStamp(b.date) && TruthyInt(b.kilometers) && TruthyText(b.serviceType)
  }

  /** The `newService` object: the motorcycle is always the single one, and a
      falsy cost or next-service reading is left out. */
  function ToNewService(b: ServiceBody): (n: NewService)
    requires HasRequiredFields(b)
    ensures n.motorcycleId == GetSingleMotorcycleId()
    ensures n.cost.Some? <==> TruthyInt(b.cost)
    ensures n.nextServiceKm.Some? <==> TruthyInt(b.nextServiceKm)
  {
    NewService(GetSingleMotorcycleId(), b.date.value.instant, b.kilometers.value,
               b.serviceType.value, b.description, KeepTruthy(b.cost), b.location,
               KeepTruthy(b.nextServiceKm))
  }

  /** The store accepts the insert a complete body leads to. */
  predicate InsertAccepted(db: Db, b: ServiceBody, newId: string)
    requires HasRequiredFields(b)
  {
    && b.serviceType.value in ServiceTypeLiterals
    && IsInt4(b.kilometers.value)
    && OptionalMoney(KeepTruthy(b.cost))
    && OptionalVarcharAccepts(b.location, 100)
    && OptionalInt4(KeepTruthy(b.nextServiceKm))
    && !ServiceIdTaken(db, newId)
  }

  /** `POST /api/services`. `newId` is the identifier the store generates for
      the row and `now` the request's clock. */
  function Post(db: Db, sessionUserId: Option<string>, body: ServiceBody, newId: string, now: int)
    : (r: Handled<Service>)
    ensures r.reply.status == 201 || r.reply.status == 400 || r.reply.status == 500
    ensures r.reply.Json? <==> r.reply.status == 201
    ensures r.reply.status == 201 <==>
      EnsureOwned(db, sessionUserId, now).Ok? && HasRequiredFields(body)
      && InsertAccepted(db, body, newId)
    ensures r.reply.status != 201 ==>
      r.db == (if EnsureOwned(db, sessionUserId, now).Ok? then EnsureOwned(db, sessionUserId, now).value else db)
    ensures r.reply.status == 400 <==> EnsureOwned(db, sessionUserId, now).Ok? && !HasRequiredFields(body)
    ensures r.reply.status == 400 ==>
      r.reply.error == "Missing required fields: date, kilometers, type"
    ensures r.reply.Json? ==>
      var row := r.reply.value;
      var before := Bootstrapped(db, sessionUserId, now);
      && HasRequiredFields(body)
      && row.id == newId && row.createdAt == now
      && row.motorcycleId == GetSingleMotorcycleId()
      && row.date == body.date.value.instant && row.kilometers == body.kilometers.value
      && ServiceTypeLiteral(row.serviceType) == body.serviceType.value
      && row.description == body.description && row.location == OptionalTruncate(body.location, 100)
      && row.cost == KeepTruthy(body.cost) && row.nextServiceKm == KeepTruthy(body.nextServiceKm)
      && r.db.services == db.services + [row]
      && r.db.events == db.events && r.db.modifications == db.modifications
      && r.db.users == db.users
      && r.db.motorcycles.Keys == db.motorcycles.Keys + {GetSingleMotorcycleId()}
      && (forall k :: k in db.motorcycles && k != GetSingleMotorcycleId() ==>
            r.db.motorcycles[k] == db.motorcycles[k])
      && Odometer(r.db) == Max(Odometer(db), row.kilometers)
      && r.db.motorcycles[GetSingleMotorcycleId()] ==
           (if row.kilometers > Odometer(db)
            then before.(currentKilometers := row.kilometers, updatedAt := now)
            else before)
    ensures Valid(db) ==> Valid(r.db)
  {
    match EnsureOwned(db, sessionUserId, now)
    case Err(_) => Handled(db, Failure(500, "Failed to create service"))
    case Ok(db1) =>
      if !HasRequiredFields(body) then
        Handled(db1, Failure(400, "Missing required fields: date, kilometers, type"))
      else
        var id := GetSingleMotorcycleId();
        var motorcycle := if id in db1.motorcycles then Some(db1.motorcycles[id]) else None;
        match InsertService(db1, ToNewService(body), newId, now)
        case Err(_) => Handled(db1, Failure(500, "Failed to create service"))
        case Ok(ins) =>
          var km := body.kilometers.value;
          if motorcycle.Some? && km > motorcycle.value.currentKilometers then
            match UpdateMotorcycle(ins.db, id, MotorcycleChange(now, None, Some(km)))
            case Ok(db2) => Handled(db2, Json(201, ins.row))
            case Err(_) => assert false; Handled(db1, Failure(500, "Failed to create service"))
          else Handled(ins.db, Json(201, ins.row))
  }

  /** `GET` as written: the owner-less bootstrap, so a store without the
      single motorcycle's row answers 500 and is left as it was; with the
      row present the reply does not depend on the session. */
  function GetAsWritten(db: Db, now: int): (r: Handled<seq<ServiceListing>>)
    ensures r.reply.Json? <==> GetSingleMotorcycleId() in db.motorcycles
    ensures r.reply.Failure? ==> r.db == db && r.reply == Failure(500, "Failed to fetch services")
    ensures r.reply.Json? ==>
      && r.db == db
      && multiset(Listed(r.reply.value)) == multiset(Filter(db.services, ServiceOf(GetSingleMotorcycleId())))
      && forall session :: r == Get(db, session, now)
  {
    match EnsureAnonymous(db, now)
    case Err(_) => Handled(db, Failure(500, "Failed to fetch services"))
    case Ok(_) => Get(db, None, now)
  }

  /** `POST` as written: the owner-less bootstrap fails on a store without
      the row, before the body is read, so even an incomplete body gets 500;
      with the row present it is the corrected handler under any session. */
  function PostAsWritten(db: Db, body: ServiceBody, newId: string, now: int): (r: Handled<Service>)
    ensures GetSingleMotorcycleId() !in db.motorcycles ==>
      r == Handled(db, Failure(500, "Failed to create service"))
    ensures r.reply.status == 201 <==>
      GetSingleMotorcycleId() in db.motorcycles && HasRequiredFields(body) && InsertAccepted(db, body, newId)
    ensures GetSingleMotorcycleId() in db.motorcycles ==>
      forall session :: r == Post(db, session, body, newId, now)
  {
    match EnsureAnonymous(db, now)
    case Err(_) => Handled(db, Failure(500, "Failed to create service"))
    case Ok(_) => Post(db, None, body, newId, now)
  }

  /** A store holding only the default motorcycle, owned by "owner". */
  function FreshStore(): (db: Db)
    ensures Valid(db) && Odometer(db) == 0
  {
    Db({"owner"}, map[GetSingleMotorcycleId() := DefaultRow("owner", 0)], [], [], [])
  }

  function OilChangeAt(km: int): ServiceBody
  {
    ServiceBody(None, Some(Stamp("2025-01-01", 1735689600000)), Some(km), Some("oil_change"),
                None, None, None, None)
  }

  /** An oil change at 5000 km on a motorcycle at 0 km is created (201) and
      leaves the motorcycle at 5000 km. */
  lemma OilChangeRaisesOdometer()
    ensures var r := Post(FreshStore(), None, OilChangeAt(5000), "s1", 1);
      r.reply.status == 201 && Odometer(r.db) == 5000
  {
    var db := FreshStore();
    assert !ServiceIdTaken(db, "s1");
    assert InsertAccepted(db, OilChangeAt(5000), "s1");
  }

  /** Services at 8000 km and then at 3000 km leave the motorcycle at 8000
      km: the later, lower reading does not lower it. */
  lemma LowerServiceKeepsOdometer()
    ensures var r1 := Post(FreshStore(), None, OilChangeAt(8000), "s1", 1);
            var r2 := Post(r1.db, None, OilChangeAt(3000), "s2", 2);
      r1.reply.status == 201 && r2.reply.status == 201 && Odometer(r2.db) == 8000
  {
    var db := FreshStore();
    assert !ServiceIdTaken(db, "s1");
    assert InsertAccepted(db, OilChangeAt(8000), "s1");
    var r1 := Post(db, None, OilChangeAt(8000), "s1", 1);
    SecondCreate(r1.db, r1.reply.value);
  }

  /** The second step of the scenario above, on any store that holds only the
      first service. */
  lemma SecondCreate(db: Db, first: Service)
    requires GetSingleMotorcycleId() in db.motorcycles && Odometer(db) == 8000
    requires db.services == [first] && first.id == "s1"
    ensures var r := Post(db, None, OilChangeAt(3000), "s2", 2);
      r.reply.status == 201 && Odometer(r.db) == 8000
  {
    assert !ServiceIdTaken(db, "s2");
    assert InsertAccepted(db, OilChangeAt(3000), "s2");
  }

  /** A reading of 0 km is falsy and therefore missing: the body is refused
      with 400 and the store is left as it was. */
  lemma ZeroKilometersIsMissing()
    ensures var r := Post(FreshStore(), None, OilChangeAt(0), "s1", 1);
      r.reply == Failure(400, "Missing required fields: date, kilometers, type") && r.db == FreshStore()
  {
    assert !TruthyInt(OilChangeAt(0).kilometers);
  }
}

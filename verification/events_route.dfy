/** src/app/api/events/route.ts: listing and creating the events of the single
    motorcycle; a create raises the odometer exactly as a service create
    does. */
module EventsRoute {
  import opened Wrappers
  import opened Schema
  import opened Seqs
  import opened SingleMotorcycle
  import opened Http
  import opened Bootstrap

  /** The JSON body of `POST /api/events`. A `motorcycleId` in it is accepted
      and ignored. */
  datatype EventBody = EventBody(
    motorcycleId: Option<string>,
    date: Option<Stamp>,
    kilometers: Option<int>,
    eventType: Option<string>,
    title: Option<string>,
    description: Option<string>,
    cost: Option<int>,
    location: Option<string>)

  /** One element of the `GET /api/events` array. */
  datatype EventListing = EventListing(
    event: Event,
    motorcycleName: Option<string>,
    motorcycleBrand: Option<string>,
    motorcycleModel: Option<string>)

  function ListingDate(l: EventListing): int { l.event.date }

  /** `LEFT JOIN motorcycles ON events.motorcycle_id = motorcycles.id`. */
  function Join(db: Db, e: Event): (l: EventListing)
    ensures l.event == e
  {
    if e.motorcycleId in db.motorcycles then
      var m := db.motorcycles[e.motorcycleId];
      EventListing(e, Some(m.name), Some(m.brand), Some(m.model))
    else EventListing(e, None, None, None)
  }

  /** The events a listing shows, in order. */
  function Listed(ls: seq<EventListing>): (r: seq<Event>)
    ensures |r| == |ls|
    ensures forall i :: 0 <= i < |ls| ==> r[i] == ls[i].event
  {
    seq(|ls|, i requires 0 <= i < |ls| => ls[i].event)
  }

  /** Joins every event of `s`, keeping their order. */
  function JoinAll(db: Db, s: seq<Event>): (r: seq<EventListing>)
    ensures Listed(r) == s
    ensures SortedDesc(s, EventDate) ==> SortedDesc(r, ListingDate)
    ensures forall i :: 0 <= i < |s| && s[i].motorcycleId in db.motorcycles ==>
      && r[i].motorcycleName == Some(db.motorcycles[s[i].motorcycleId].name)
      && r[i].motorcycleBrand == Some(db.motorcycles[s[i].motorcycleId].brand)
      && r[i].motorcycleModel == Some(db.motorcycles[s[i].motorcycleId].model)
  {
    var r := seq(|s|, i requires 0 <= i < |s| => Join(db, s[i]));
    assert Listed(r) == s;
    r
  }

  /** `GET /api/events`: after the bootstrap, exactly the single motorcycle's
      events, each with its motorcycle's display fields, most recent first. */
  function Get(db: Db, sessionUserId: Option<string>, now: int): (r: Handled<seq<EventListing>>)
    ensures r.reply.Json? <==> EnsureOwned(db, sessionUserId, now).Ok?
    ensures r.reply.Failure? ==> r.db == db && r.reply == Failure(500, "Failed to fetch events")
    ensures r.reply.Json? ==>
      && r.db == EnsureOwned(db, sessionUserId, now).value
      && r.reply.status == 200
      && multiset(Listed(r.reply.value)) == multiset(Filter(db.events, EventOf(GetSingleMotorcycleId())))
      && SortedDesc(r.reply.value, ListingDate)
      && (forall i :: 0 <= i < |r.reply.value| ==>
            && r.reply.value[i].motorcycleName == Some(Bootstrapped(db, sessionUserId, now).name)
            && r.reply.value[i].motorcycleBrand == Some(Bootstrapped(db, sessionUserId, now).brand)
            && r.reply.value[i].motorcycleModel == Some(Bootstrapped(db, sessionUserId, now).model))
  {
    match EnsureOwned(db, sessionUserId, now)
    case Err(_) => Handled(db, Failure(500, "Failed to fetch events"))
    case Ok(db1) =>
      var id := GetSingleMotorcycleId();
      var mine := Filter(db1.events, EventOf(id));
      var sorted := SortDesc(mine, EventDate);
      assert forall i :: 0 <= i < |sorted| ==> sorted[i].motorcycleId == id by {
        forall i | 0 <= i < |sorted|
          ensures sorted[i].motorcycleId == id
        {
          assert sorted[i] in multiset(mine);
          assert EventOf(id)(sorted[i]);
        }
      }
      Handled(db1, Json(200, JoinAll(db1, sorted)))
  }

  /** `!date || !kilometers || !type || !title` is false. */
  predicate HasRequiredFields(b: EventBody)
  {
    TruthyStamp(b.date) && TruthyInt(b.kilometers) && TruthyText(b.eventType) && TruthyText(b.title)
  }

  /** The `newEvent` object: the motorcycle is always the single one, and a
      falsy cost is left out. */
  function ToNewEvent(b: EventBody): (n: NewEvent)
    requires HasRequiredFields(b)
    ensures n.motorcycleId == GetSingleMotorcycleId()
    ensures n.cost.Some? <==> TruthyInt(b.cost)
  {
    NewEvent(GetSingleMotorcycleId(), b.date.value.instant, b.kilometers.value,
             b.eventType.value, b.title.value, b.description, KeepTruthy(b.cost), b.location)
  }

  /** The store accepts the insert a complete body leads to. */
  predicate InsertAccepted(db: Db, b: EventBody, newId: string)
    requires HasRequiredFields(b)
  {
    && b.eventType.value in EventTypeLiterals
    && IsInt4(b.kilometers.value)
    && VarcharAccepts(b.title.value, 100)
    && OptionalMoney(KeepTruthy(b.cost))
    && OptionalVarcharAccepts(b.location, 100)
    && !EventIdTaken(db, newId)
  }

  /** `POST /api/events`. `newId` is the identifier the store generates for
      the row and `now` the request's clock. */
  function Post(db: Db, sessionUserId: Option<string>, body: EventBody, newId: string, now: int)
    : (r: Handled<Event>)
    ensures r.reply.status == 201 || r.reply.status == 400 || r.reply.status == 500
    ensures r.reply.Json? <==> r.reply.status == 201
    ensures r.reply.status == 201 <==>
      EnsureOwned(db, sessionUserId, now).Ok? && HasRequiredFields(body)
      && InsertAccepted(db, body, newId)
    ensures r.reply.status != 201 ==>
      r.db == (if EnsureOwned(db, sessionUserId, now).Ok? then EnsureOwned(db, sessionUserId, now).value else db)
    ensures r.reply.status == 400 <==> EnsureOwned(db, sessionUserId, now).Ok? && !HasRequiredFields(body)
    ensures r.reply.status == 400 ==>
      r.reply.error == "Missing required fields: date, kilometers, type, title"
    ensures r.reply.Json? ==>
      var row := r.reply.value;
      var before := Bootstrapped(db, sessionUserId, now);
      && HasRequiredFields(body)
      && row.id == newId && row.createdAt == now
      && row.motorcycleId == GetSingleMotorcycleId()
      && row.date == body.date.value.instant && row.kilometers == body.kilometers.value
      && EventTypeLiteral(row.eventType) == body.eventType.value
      && row.title == Truncate(body.title.value, 100)
      && row.description == body.description && row.location == OptionalTruncate(body.location, 100)
      && row.cost == KeepTruthy(body.cost)
      && r.db.events == db.events + [row]
      && r.db.services == db.services && r.db.modifications == db.modifications
      && r.db.users == db.users
      && r.db.motorcycles.Keys == db.motorcycles.Keys + {GetSingleMotorcycleId()}
      && (forall k :: k in db.motorcycles && k != GetSingleMotorcycleId() ==>
            r.db.motorcycles[k] == db.motorcycles[k])
      && Odometer(r.db) == Max(Odometer(db), row.kilometers)
      && r.db.motorcycles[GetSingleMotorcycleId()] ==
           (if row.kilometers > Odometer(db)
            then before.(currentKilometers := row.kilometers, updatedAt := now)
            else before)
    ensures Valid(db) ==> Valid(r.db)
  {
    match EnsureOwned(db, sessionUserId, now)
    case Err(_) => Handled(db, Failure(500, "Failed to create event"))
    case Ok(db1) =>
      if !HasRequiredFields(body) then
        Handled(db1, Failure(400, "Missing required fields: date, kilometers, type, title"))
      else
        var id := GetSingleMotorcycleId();
        var motorcycle := if id in db1.motorcycles then Some(db1.motorcycles[id]) else None;
        match InsertEvent(db1, ToNewEvent(body), newId, now)
        case Err(_) => Handled(db1, Failure(500, "Failed to create event"))
        case Ok(ins) =>
          var km := body.kilometers.value;
          if motorcycle.Some? && km > motorcycle.value.currentKilometers then
            match UpdateMotorcycle(ins.db, id, MotorcycleChange(now, None, Some(km)))
            case Ok(db2) => Handled(db2, Json(201, ins.row))
            case Err(_) => assert false; Handled(db1, Failure(500, "Failed to create event"))
          else Handled(ins.db, Json(201, ins.row))
  }

  /** `GET` as written: the owner-less bootstrap, so a store without the
      single motorcycle's row answers 500 and is left as it was; with the
      row present the reply does not depend on the session. */
  function GetAsWritten(db: Db, now: int): (r: Handled<seq<EventListing>>)
    ensures r.reply.Json? <==> GetSingleMotorcycleId() in db.motorcycles
    ensures r.reply.Failure? ==> r.db == db && r.reply == Failure(500, "Failed to fetch events")
    ensures r.reply.Json? ==>
      && r.db == db
      && multiset(Listed(r.reply.value)) == multiset(Filter(db.events, EventOf(GetSingleMotorcycleId())))
      && forall session :: r == Get(db, session, now)
  {
    match EnsureAnonymous(db, now)
    case Err(_) => Handled(db, Failure(500, "Failed to fetch events"))
    case Ok(_) => Get(db, None, now)
  }

  /** `POST` as written: the owner-less bootstrap fails on a store without
      the row, before the body is read, so even an incomplete body gets 500;
      with the row present it is the corrected handler under any session. */
  function PostAsWritten(db: Db, body: EventBody, newId: string, now: int): (r: Handled<Event>)
    ensures GetSingleMotorcycleId() !in db.motorcycles ==>
      r == Handled(db, Failure(500, "Failed to create event"))
    ensures r.reply.status == 201 <==>
      GetSingleMotorcycleId() in db.motorcycles && HasRequiredFields(body) && InsertAccepted(db, body, newId)
    ensures GetSingleMotorcycleId() in db.motorcycles ==>
      forall session :: r == Post(db, session, body, newId, now)
  {
    match EnsureAnonymous(db, now)
    case Err(_) => Handled(db, Failure(500, "Failed to create event"))
    case Ok(_) => Post(db, None, body, newId, now)
  }

  /** A title the `varchar(100)` column accepts is handled exactly as its
      cut form: trailing spaces past the hundredth character change neither
      the reply nor the store. */
  lemma PaddedTitleIsCut(db: Db, sessionUserId: Option<string>, body: EventBody, newId: string, now: int)
    requires body.title.Some? && VarcharAccepts(body.title.value, 100)
    ensures Post(db, sessionUserId, body, newId, now) ==
      Post(db, sessionUserId, body.(title := Some(Truncate(body.title.value, 100))), newId, now)
  {
    var cut := body.(title := Some(Truncate(body.title.value, 100)));
    assert Truncate(cut.title.value, 100) == cut.title.value;
    assert HasRequiredFields(body) <==> HasRequiredFields(cut);
    if HasRequiredFields(body) {
      assert InsertAccepted(db, body, newId) <==> InsertAccepted(db, cut, newId);
    }
  }
}

/** src/app/api/modifications/route.ts: listing and creating the
    modifications of the single motorcycle. This route's bootstrap copy
    records an owner, and a create has no effect on the odometer. */
module ModificationsRoute {
  import opened Wrappers
  import opened Schema
  import opened Seqs
  import opened SingleMotorcycle
  import opened Http
  import opened Bootstrap

  /** The JSON body of `POST /api/modifications`. */
  datatype ModificationBody = ModificationBody(
    motorcycleId: Option<string>,
    name: Option<string>,
    modificationType: Option<string>,
    description: Option<string>,
    installDate: Option<Stamp>,
    cost: Option<int>)

  /** `ORDER BY install_date` (ascending), as a key the descending sort
      puts first when smallest. */
  function InstallOrder(m: Modification): int { -m.installDate }

  /** `GET /api/modifications`: after the bootstrap, exactly the single
      motorcycle's modifications, earliest installation first. */
  function Get(db: Db, sessionUserId: Option<string>, now: int): (r: Handled<seq<Modification>>)
    ensures r.reply.Json? <==> EnsureOwned(db, sessionUserId, now).Ok?
    ensures r.reply.Failure? ==> r.reply == Failure(500, "Failed to fetch modifications") && r.db == db
    ensures r.reply.Json? ==>
      && r.db == EnsureOwned(db, sessionUserId, now).value
      && r.reply.status == 200
      && multiset(r.reply.value) == multiset(Filter(db.modifications, ModificationOf(GetSingleMotorcycleId())))
      && (forall i, j :: 0 <= i < j < |r.reply.value| ==>
            r.reply.value[i].installDate <= r.reply.value[j].installDate)
  {
    match EnsureOwned(db, sessionUserId, now)
    case Err(_) => Handled(db, Failure(500, "Failed to fetch modifications"))
    case Ok(db1) =>
      var mine := Filter(db1.modifications, ModificationOf(GetSingleMotorcycleId()));
      var sorted := SortDesc(mine, InstallOrder);
      assert forall i, j :: 0 <= i < j < |sorted| ==> InstallOrder(sorted[i]) >= InstallOrder(sorted[j]);
      Handled(db1, Json(200, sorted))
  }

  /** `!name || !type || !installDate` is false. */
  predicate HasRequiredFields(b: ModificationBody)
  {
    TruthyText(b.name) && TruthyText(b.modificationType) && TruthyStamp(b.installDate)
  }

  /** The `newModification` object: the motorcycle is always the single
      one, and a falsy cost is left out. */
  function ToNewModification(b: ModificationBody): (n: NewModification)
    requires HasRequiredFields(b)
    ensures n.motorcycleId == GetSingleMotorcycleId()
    ensures n.cost.Some? <==> TruthyInt(b.cost)
  {
    NewModification(GetSingleMotorcycleId(), b.name.value, b.modificationType.value,
                    b.description, b.installDate.value.instant, KeepTruthy(b.cost))
  }

  /** The store accepts the insert a complete body leads to. */
  predicate InsertAccepted(db: Db, b: ModificationBody, newId: string)
    requires HasRequiredFields(b)
  {
    && b.modificationType.value in ModificationTypeLiterals
    && VarcharAccepts(b.name.value, 100)
    && OptionalMoney(KeepTruthy(b.cost))
    && !ModificationIdTaken(db, newId)
  }

  /** `POST /api/modifications`. */
  function Post(db: Db, sessionUserId: Option<string>, body: ModificationBody, newId: string, now: int)
    : (r: Handled<Modification>)
    ensures r.reply.status == 201 || r.reply.status == 400 || r.reply.status == 500
    ensures r.reply.Json? <==> r.reply.status == 201
    ensures r.reply.status == 201 <==>
      EnsureOwned(db, sessionUserId, now).Ok? && HasRequiredFields(body)
      && InsertAccepted(db, body, newId)
    ensures r.reply.status == 400 <==> EnsureOwned(db, sessionUserId, now).Ok? && !HasRequiredFields(body)
    ensures r.reply.status == 400 ==>
      r.reply.error == "Missing required fields: name, type, installDate"
    ensures r.reply.status != 201 ==>
      r.db == (if EnsureOwned(db, sessionUserId, now).Ok? then EnsureOwned(db, sessionUserId, now).value else db)
    ensures r.db.services == db.services && r.db.events == db.events
    ensures Odometer(r.db) == Odometer(db)
    ensures r.reply.Json? ==>
      var row := r.reply.value;
      && row.id == newId && row.createdAt == now
      && row.motorcycleId == GetSingleMotorcycleId()
      && row.name == Truncate(body.name.value, 100)
      && ModificationTypeLiteral(row.modificationType) == body.modificationType.value
      && row.description == body.description && row.installDate == body.installDate.value.instant
      && row.cost == KeepTruthy(body.cost)
      && r.db.modifications == db.modifications + [row]
      && r.db.users == db.users
      && r.db.motorcycles == EnsureOwned(db, sessionUserId, now).value.motorcycles
    ensures Valid(db) ==> Valid(r.db)
  {
    match EnsureOwned(db, sessionUserId, now)
    case Err(_) => Handled(db, Failure(500, "Failed to create modification"))
    case Ok(db1) =>
      if !HasRequiredFields(body) then
        Handled(db1, Failure(400, "Missing required fields: name, type, installDate"))
      else
        match InsertModification(db1, ToNewModification(body), newId, now)
        case Err(_) => Handled(db1, Failure(500, "Failed to create modification"))
        case Ok(ins) => Handled(ins.db, Json(201, ins.row))
  }
}

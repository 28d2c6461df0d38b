/** The relational schema of src/lib/db/schema.ts as immutable data: the three
    enumerations, one row type per table, and an in-memory store whose inserts
    and updates enforce the column constraints the schema declares (NOT NULL,
    varchar lengths, integer and decimal ranges, enum literals, primary and
    foreign keys). A statement the store rejects yields `Err` and changes
    nothing. Timestamps are integers (milliseconds); money is integer cents. */
module Schema {
  import opened Wrappers
  import Seqs

  // ---------------------------------------------------------------------------
  // Enumerations (pgEnum)

  datatype ServiceType =
    | OilChange | TireChange | BrakeService | ChainMaintenance
    | GeneralMaintenance | Repair | Inspection | Other

  datatype EventType =
    | Trip | Accident | Modification | Purchase | Insurance | Registration | Other

  datatype ModificationType =
    | Protection | Performance | Aesthetic | Comfort | Storage | Electronics | Other

  /** The `service_type` literals, in declaration order. */
  const ServiceTypeLiterals: seq<string> := [
    "oil_change", "tire_change", "brake_service", "chain_maintenance",
    "general_maintenance", "repair", "inspection", "other"
  ]

  /** The `event_type` literals, in declaration order. */
  const EventTypeLiterals: seq<string> := [
    "trip", "accident", "modification", "purchase", "insurance", "registration", "other"
  ]

  /** The `modification_type` literals, in declaration order. */
  const ModificationTypeLiterals: seq<string> := [
    "protection", "performance", "aesthetic", "comfort", "storage", "electronics", "other"
  ]

  function ServiceTypeLiteral(t: ServiceType): string
  {
    match t
    case OilChange => "oil_change"
    case TireChange => "tire_change"
    case BrakeService => "brake_service"
    case ChainMaintenance => "chain_maintenance"
    case GeneralMaintenance => "general_maintenance"
    case Repair => "repair"
    case Inspection => "inspection"
    case Other => "other"
  }

  function EventTypeLiteral(t: EventType): string
  {
    match t
    case Trip => "trip"
    case Accident => "accident"
    case Modification => "modification"
    case Purchase => "purchase"
    case Insurance => "insurance"
    case Registration => "registration"
    case Other => "other"
  }

  function ModificationTypeLiteral(t: ModificationType): string
  {
    match t
    case Protection => "protection"
    case Performance => "performance"
    case Aesthetic => "aesthetic"
    case Comfort => "comfort"
    case Storage => "storage"
    case Electronics => "electronics"
    case Other => "other"
  }

  /** How PostgreSQL reads a string into the `service_type` column: exactly
      the eight literals are accepted. */
  function ParseServiceType(s: string): (r: Option<ServiceType>)
    ensures r.Some? <==> s in ServiceTypeLiterals
    ensures r.Some? ==> ServiceTypeLiteral(r.value) == s
  {
    if s == "oil_change" then Some(ServiceType.OilChange)
    else if s == "tire_change" then Some(ServiceType.TireChange)
    else if s == "brake_service" then Some(ServiceType.BrakeService)
    else if s == "chain_maintenance" then Some(ServiceType.ChainMaintenance)
    else if s == "general_maintenance" then Some(ServiceType.GeneralMaintenance)
    else if s == "repair" then Some(ServiceType.Repair)
    else if s == "inspection" then Some(ServiceType.Inspection)
    else if s == "other" then Some(ServiceType.Other)
    else None
  }

  /** How PostgreSQL reads a string into the `event_type` column. */
  function ParseEventType(s: string): (r: Option<EventType>)
    ensures r.Some? <==> s in EventTypeLiterals
    ensures r.Some? ==> EventTypeLiteral(r.value) == s
  {
    if s == "trip" then Some(EventType.Trip)
    else if s == "accident" then Some(EventType.Accident)
    else if s == "modification" then Some(EventType.Modification)
    else if s == "purchase" then Some(EventType.Purchase)
    else if s == "insurance" then Some(EventType.Insurance)
    else if s == "registration" then Some(EventType.Registration)
    else if s == "other" then Some(EventType.Other)
    else None
  }

  /** How PostgreSQL reads a string into the `modification_type` column. */
  function ParseModificationType(s: string): (r: Option<ModificationType>)
    ensures r.Some? <==> s in ModificationTypeLiterals
    ensures r.Some? ==> ModificationTypeLiteral(r.value) == s
  {
    if s == "protection" then Some(ModificationType.Protection)
    else if s == "performance" then Some(ModificationType.Performance)
    else if s == "aesthetic" then Some(ModificationType.Aesthetic)
    else if s == "comfort" then Some(ModificationType.Comfort)
    else if s == "storage" then Some(ModificationType.Storage)
    else if s == "electronics" then Some(ModificationType.Electronics)
    else if s == "other" then Some(ModificationType.Other)
    else None
  }

  /** A sequence of pairwise distinct strings. */
  predicate Distinct(s: seq<string>)
  {
    forall i, j :: 0 <= i < j < |s| ==> s[i] != s[j]
  }

  /** `service_type` has exactly eight distinct literals, each naming exactly
      one enumerator, and every enumerator survives the round trip. */
  lemma ServiceTypeIsEnumeration()
    ensures |ServiceTypeLiterals| == 8 && Distinct(ServiceTypeLiterals)
    ensures forall t :: ServiceTypeLiteral(t) in ServiceTypeLiterals
    ensures forall t :: ParseServiceType(ServiceTypeLiteral(t)) == Some(t)
  {
    forall t: ServiceType
      ensures ParseServiceType(ServiceTypeLiteral(t)) == Some(t)
    {
      match t
      case OilChange =>
      case TireChange =>
      case BrakeService =>
      case ChainMaintenance =>
      case GeneralMaintenance =>
      case Repair =>
      case Inspection =>
      case Other =>
    }
  }

  /** `event_type` has exactly seven distinct literals, in bijection with the
      enumerators. */
  lemma EventTypeIsEnumeration()
    ensures |EventTypeLiterals| == 7 && Distinct(EventTypeLiterals)
    ensures forall t :: EventTypeLiteral(t) in EventTypeLiterals
    ensures forall t :: ParseEventType(EventTypeLiteral(t)) == Some(t)
  {
    forall t: EventType
      ensures ParseEventType(EventTypeLiteral(t)) == Some(t)
    {
      match t
      case Trip =>
      case Accident =>
      case Modification =>
      case Purchase =>
      case Insurance =>
      case Registration =>
      case Other =>
    }
  }

  /** `modification_type` has exactly seven distinct literals, in bijection
      with the enumerators. */
  lemma ModificationTypeIsEnumeration()
    ensures |ModificationTypeLiterals| == 7 && Distinct(ModificationTypeLiterals)
    ensures forall t :: ModificationTypeLiteral(t) in ModificationTypeLiterals
    ensures forall t :: ParseModificationType(ModificationTypeLiteral(t)) == Some(t)
  {
    forall t: ModificationType
      ensures ParseModificationType(ModificationTypeLiteral(t)) == Some(t)
    {
      match t
      case Protection =>
      case Performance =>
      case Aesthetic =>
      case Comfort =>
      case Storage =>
      case Electronics =>
      case Other =>
    }
  }

  // ---------------------------------------------------------------------------
  // Column domains

  const Int4Min: int := -0x8000_0000
  const Int4Max: int := 0x7FFF_FFFF

  /** A value of a PostgreSQL `integer` column. */
  predicate IsInt4(n: int)
  {
    Int4Min <= n <= Int4Max
  }

  predicate OptionalInt4(o: Option<int>)
  {
    o.Some? ==> IsInt4(o.value)
  }

  /** The largest `decimal(10, 2)` value, 99999999.99, in cents. */
  const MaxCents: int := 99_999_999_99

  /** A value of a `decimal(10, 2)` column, in cents. */
  predicate OptionalMoney(o: Option<int>)
  {
    o.Some? ==> -MaxCents <= o.value <= MaxCents
  }

  /** A value of a `varchar(n)` column. */
  predicate OptionalVarchar(o: Option<string>, n: nat)
  {
    o.Some? ==> |o.value| <= n
  }

  /** Assigning a text to a `varchar(n)` column: a longer value is an error
      unless every character past the n-th is a space. */
  predicate VarcharAccepts(v: string, n: nat)
  {
    |v| <= n || forall i :: n <= i < |v| ==> v[i] == ' '
  }

  predicate OptionalVarcharAccepts(o: Option<string>, n: nat)
  {
    o.Some? ==> VarcharAccepts(o.value, n)
  }

  /** What a `varchar(n)` column stores of an accepted value: the value cut
      to n characters, which drops only trailing spaces. */
  function Truncate(v: string, n: nat): (r: string)
    ensures |r| <= n && |r| <= |v|
    ensures VarcharAccepts(v, n) ==> r + Spaces(|v| - |r|) == v
    ensures |v| <= n ==> r == v
    ensures |v| > n ==> |r| == n
  {
    if |v| <= n then v
    else
      var r := v[..n];
      assert VarcharAccepts(v, n) ==> r + Spaces(|v| - |r|) == v by {
        if VarcharAccepts(v, n) {
          assert forall i :: 0 <= i < |v| ==> (r + Spaces(|v| - |r|))[i] == v[i];
        }
      }
      r
  }

  function OptionalTruncate(o: Option<string>, n: nat): (r: Option<string>)
    ensures OptionalVarchar(r, n)
    ensures r.Some? <==> o.Some?
  {
    match o
    case None => None
    case Some(v) => Some(Truncate(v, n))
  }

  /** A run of `k` spaces. */
  function Spaces(k: nat): (r: string)
    ensures |r| == k
    ensures forall i :: 0 <= i < k ==> r[i] == ' '
  {
    seq(k, _ => ' ')
  }

  // ---------------------------------------------------------------------------
  // Rows

  /** A `motorcycles` row. */
  datatype Motorcycle = Motorcycle(
    id: string,
    userId: string,
    name: string,
    brand: string,
    model: string,
    year: int,
    currentKilometers: int,
    engineSize: Option<int>,
    color: Option<string>,
    licensePlate: Option<string>,
    createdAt: int,
    updatedAt: int)

  /** The values an insert into `motorcycles` supplies; `userId` may be left
      out by the caller, although the column is NOT NULL. */
  datatype NewMotorcycle = NewMotorcycle(
    id: string,
    userId: Option<string>,
    name: string,
    brand: string,
    model: string,
    year: int,
    currentKilometers: int,
    engineSize: Option<int>,
    color: Option<string>,
    licensePlate: Option<string>)

  /** A `services` row. */
  datatype Service = Service(
    id: string,
    motorcycleId: string,
    date: int,
    kilometers: int,
    serviceType: ServiceType,
    description: Option<string>,
    cost: Option<int>,
    location: Option<string>,
    nextServiceKm: Option<int>,
    createdAt: int)

  /** The values an insert into `services` supplies; the type is still the
      text the request carried. */
  datatype NewService = NewService(
    motorcycleId: string,
    date: int,
    kilometers: int,
    serviceType: string,
    description: Option<string>,
    cost: Option<int>,
    location: Option<string>,
    nextServiceKm: Option<int>)

  /** An `events` row. */
  datatype Event = Event(
    id: string,
    motorcycleId: string,
    date: int,
    kilometers: int,
    eventType: EventType,
    title: string,
    description: Option<string>,
    cost: Option<int>,
    location: Option<string>,
    createdAt: int)

  datatype NewEvent = NewEvent(
    motorcycleId: string,
    date: int,
    kilometers: int,
    eventType: string,
    title: string,
    description: Option<string>,
    cost: Option<int>,
    location: Option<string>)

  /** A `modifications` row. */
  datatype Modification = Modification(
    id: string,
    motorcycleId: string,
    name: string,
    modificationType: ModificationType,
    description: Option<string>,
    installDate: int,
    cost: Option<int>,
    createdAt: int)

  datatype NewModification = NewModification(
    motorcycleId: string,
    name: string,
    modificationType: string,
    description: Option<string>,
    installDate: int,
    cost: Option<int>)

  /** Column constraints of a `motorcycles` row. */
  predicate MotorcycleFits(m: Motorcycle)
  {
    && |m.name| <= 100 && |m.brand| <= 50 && |m.model| <= 50
    && IsInt4(m.year) && IsInt4(m.currentKilometers) && OptionalInt4(m.engineSize)
    && OptionalVarchar(m.color, 30) && OptionalVarchar(m.licensePlate, 20)
  }

  predicate ServiceFits(s: Service)
  {
    && IsInt4(s.kilometers) && OptionalMoney(s.cost)
    && OptionalVarchar(s.location, 100) && OptionalInt4(s.nextServiceKm)
  }

  predicate EventFits(e: Event)
  {
    && IsInt4(e.kilometers) && |e.title| <= 100
    && OptionalMoney(e.cost) && OptionalVarchar(e.location, 100)
  }

  predicate ModificationFits(m: Modification)
  {
    |m.name| <= 100 && OptionalMoney(m.cost)
  }

  // ---------------------------------------------------------------------------
  // The store

  /** The database: the keys of the externally managed `user` table, the
      motorcycles by primary key, and the three child tables in insertion
      order. */
  datatype Db = Db(
    users: set<string>,
    motorcycles: map<string, Motorcycle>,
    services: seq<Service>,
    events: seq<Event>,
    modifications: seq<Modification>)

  /** Why the store rejected a statement. */
  datatype DbError =
    | NotNullViolation(column: string)
    | UniqueViolation
    | ForeignKeyViolation
    | InvalidEnumValue(literal: string)
    | ValueOutOfRange

  /** A successful insert: the new state and the row `RETURNING` yields. */
  datatype Inserted<T> = Inserted(db: Db, row: T)

  function ServiceKey(s: Service): string { s.id }
  function EventKey(e: Event): string { e.id }
  function ModificationKey(m: Modification): string { m.id }

  /** The `date` column, the sort key of `ORDER BY date DESC`. */
  function ServiceDate(s: Service): int { s.date }
  function EventDate(e: Event): int { e.date }

  /** The rows of one motorcycle, as a `WHERE motorcycle_id = key` filter. */
  function ServiceOf(key: string): Service -> bool { (s: Service) => s.motorcycleId == key }
  function EventOf(key: string): Event -> bool { (e: Event) => e.motorcycleId == key }
  function ModificationOf(key: string): Modification -> bool { (m: Modification) => m.motorcycleId == key }

  /** The rows of every other motorcycle. */
  function ServiceNotOf(key: string): Service -> bool { (s: Service) => s.motorcycleId != key }
  function EventNotOf(key: string): Event -> bool { (e: Event) => e.motorcycleId != key }
  function ModificationNotOf(key: string): Modification -> bool { (m: Modification) => m.motorcycleId != key }

  /** Every constraint the schema declares holds of the stored rows. */
  predicate Valid(db: Db)
  {
    && (forall k :: k in db.motorcycles ==>
          db.motorcycles[k].id == k && MotorcycleFits(db.motorcycles[k])
          && db.motorcycles[k].userId in db.users)
    && (forall i :: 0 <= i < |db.services| ==>
          ServiceFits(db.services[i]) && db.services[i].motorcycleId in db.motorcycles)
    && (forall i :: 0 <= i < |db.events| ==>
          EventFits(db.events[i]) && db.events[i].motorcycleId in db.motorcycles)
    && (forall i :: 0 <= i < |db.modifications| ==>
          ModificationFits(db.modifications[i]) && db.modifications[i].motorcycleId in db.motorcycles)
    && Seqs.DistinctBy(db.services, ServiceKey)
    && Seqs.DistinctBy(db.events, EventKey)
    && Seqs.DistinctBy(db.modifications, ModificationKey)
  }

  predicate ServiceIdTaken(db: Db, id: string)
  {
    exists i :: 0 <= i < |db.services| && db.services[i].id == id
  }

  predicate EventIdTaken(db: Db, id: string)
  {
    exists i :: 0 <= i < |db.events| && db.events[i].id == id
  }

  predicate ModificationIdTaken(db: Db, id: string)
  {
    exists i :: 0 <= i < |db.modifications| && db.modifications[i].id == id
  }

  /** `INSERT INTO motorcycles`: `created_at` and `updated_at` default to
      `now`. Rejected when `user_id` is missing, the id is taken, the owner is
      not a user, or a column does not fit. */
  function InsertMotorcycle(db: Db, m: NewMotorcycle, now: int): (r: Result<Db, DbError>)
    ensures r.Ok? <==>
      && m.userId.Some? && m.id !in db.motorcycles && m.userId.value in db.users
      && MotorcycleFits(Motorcycle(m.id, m.userId.value, m.name, m.brand, m.model, m.year,
           m.currentKilometers, m.engineSize, m.color, m.licensePlate, now, now))
    ensures r.Ok? ==>
      && r.value.motorcycles.Keys == db.motorcycles.Keys + {m.id}
      && r.value.motorcycles[m.id] == Motorcycle(m.id, m.userId.value, m.name, m.brand, m.model,
           m.year, m.currentKilometers, m.engineSize, m.color, m.licensePlate, now, now)
      && (forall k :: k in db.motorcycles ==> r.value.motorcycles[k] == db.motorcycles[k])
      && r.value.users == db.users
      && r.value.services == db.services && r.value.events == db.events
      && r.value.modifications == db.modifications
    ensures Valid(db) && r.Ok? ==> Valid(r.value)
  {
    if m.userId.None? then Err(NotNullViolation("user_id"))
    else
      var row := Motorcycle(m.id, m.userId.value, m.name, m.brand, m.model, m.year,
                            m.currentKilometers, m.engineSize, m.color, m.licensePlate, now, now);
      if !MotorcycleFits(row) then Err(ValueOutOfRange)
      else if m.id in db.motorcycles then Err(UniqueViolation)
      else if m.userId.value !in db.users then Err(ForeignKeyViolation)
      else Ok(db.(motorcycles := db.motorcycles[m.id := row]))
  }

  /** `INSERT INTO services ... RETURNING`: `id` is the identifier the store
      generates and `created_at` defaults to `now`. */
  function InsertService(db: Db, n: NewService, id: string, now: int): (r: Result<Inserted<Service>, DbError>)
    ensures r.Ok? <==>
      && n.serviceType in ServiceTypeLiterals && IsInt4(n.kilometers) && OptionalMoney(n.cost)
      && OptionalVarcharAccepts(n.location, 100) && OptionalInt4(n.nextServiceKm)
      && !ServiceIdTaken(db, id) && n.motorcycleId in db.motorcycles
    ensures r.Ok? ==>
      && r.value.db == db.(services := db.services + [r.value.row])
      && r.value.row.id == id && r.value.row.motorcycleId == n.motorcycleId
      && r.value.row.date == n.date && r.value.row.kilometers == n.kilometers
      && ServiceTypeLiteral(r.value.row.serviceType) == n.serviceType
      && r.value.row.description == n.description && r.value.row.cost == n.cost
      && r.value.row.location == OptionalTruncate(n.location, 100)
      && r.value.row.nextServiceKm == n.nextServiceKm
      && r.value.row.createdAt == now
    ensures Valid(db) && r.Ok? ==> Valid(r.value.db)
  {
    match ParseServiceType(n.serviceType)
    case None => Err(InvalidEnumValue(n.serviceType))
    case Some(t) =>
      var row := Service(id, n.motorcycleId, n.date, n.kilometers, t, n.description,
                         n.cost, OptionalTruncate(n.location, 100), n.nextServiceKm, now);
      if !ServiceFits(row) || !OptionalVarcharAccepts(n.location, 100) then Err(ValueOutOfRange)
      else if ServiceIdTaken(db, id) then Err(UniqueViolation)
      else if n.motorcycleId !in db.motorcycles then Err(ForeignKeyViolation)
      else Ok(Inserted(db.(services := db.services + [row]), row))
  }

  /** `INSERT INTO events ... RETURNING`. */
  function InsertEvent(db: Db, n: NewEvent, id: string, now: int): (r: Result<Inserted<Event>, DbError>)
    ensures r.Ok? <==>
      && n.eventType in EventTypeLiterals && IsInt4(n.kilometers) && VarcharAccepts(n.title, 100)
      && OptionalMoney(n.cost) && OptionalVarcharAccepts(n.location, 100)
      && !EventIdTaken(db, id) && n.motorcycleId in db.motorcycles
    ensures r.Ok? ==>
      && r.value.db == db.(events := db.events + [r.value.row])
      && r.value.row.id == id && r.value.row.motorcycleId == n.motorcycleId
      && r.value.row.date == n.date && r.value.row.kilometers == n.kilometers
      && EventTypeLiteral(r.value.row.eventType) == n.eventType
      && r.value.row.title == Truncate(n.title, 100) && r.value.row.description == n.description
      && r.value.row.cost == n.cost && r.value.row.location == OptionalTruncate(n.location, 100)
      && r.value.row.createdAt == now
    ensures Valid(db) && r.Ok? ==> Valid(r.value.db)
  {
    match ParseEventType(n.eventType)
    case None => Err(InvalidEnumValue(n.eventType))
    case Some(t) =>
      var row := Event(id, n.motorcycleId, n.date, n.kilometers, t, Truncate(n.title, 100),
                       n.description, n.cost, OptionalTruncate(n.location, 100), now);
      if !EventFits(row) || !VarcharAccepts(n.title, 100) || !OptionalVarcharAccepts(n.location, 100)
      then Err(ValueOutOfRange)
      else if EventIdTaken(db, id) then Err(UniqueViolation)
      else if n.motorcycleId !in db.motorcycles then Err(ForeignKeyViolation)
      else Ok(Inserted(db.(events := db.events + [row]), row))
  }

  /** `INSERT INTO modifications ... RETURNING`. */
  function InsertModification(db: Db, n: NewModification, id: string, now: int)
    : (r: Result<Inserted<Modification>, DbError>)
    ensures r.Ok? <==>
      && n.modificationType in ModificationTypeLiterals && VarcharAccepts(n.name, 100)
      && OptionalMoney(n.cost) && !ModificationIdTaken(db, id) && n.motorcycleId in db.motorcycles
    ensures r.Ok? ==>
      && r.value.db == db.(modifications := db.modifications + [r.value.row])
      && r.value.row.id == id && r.value.row.motorcycleId == n.motorcycleId
      && r.value.row.name == Truncate(n.name, 100)
      && ModificationTypeLiteral(r.value.row.modificationType) == n.modificationType
      && r.value.row.description == n.description && r.value.row.installDate == n.installDate
      && r.value.row.cost == n.cost && r.value.row.createdAt == now
    ensures Valid(db) && r.Ok? ==> Valid(r.value.db)
  {
    match ParseModificationType(n.modificationType)
    case None => Err(InvalidEnumValue(n.modificationType))
    case Some(t) =>
      var row := Modification.Modification(id, n.motorcycleId, Truncate(n.name, 100), t, n.description,
                                           n.installDate, n.cost, now);
      if !ModificationFits(row) || !VarcharAccepts(n.name, 100) then Err(ValueOutOfRange)
      else if ModificationIdTaken(db, id) then Err(UniqueViolation)
      else if n.motorcycleId !in db.motorcycles then Err(ForeignKeyViolation)
      else Ok(Inserted(db.(modifications := db.modifications + [row]), row))
  }

  /** The `SET` list of an `UPDATE motorcycles`: `updated_at` is always
      written, the two other columns only when present (`Some`). */
  datatype MotorcycleChange = MotorcycleChange(
    updatedAt: int,
    licensePlate: Option<Option<string>>,
    currentKilometers: Option<int>)

  /** A row after the `SET` list has been applied to it; a plate is stored
      as the `varchar(20)` column keeps it. */
  function Apply(m: Motorcycle, c: MotorcycleChange): Motorcycle
  {
    m.(updatedAt := c.updatedAt,
       licensePlate := if c.licensePlate.Some? then OptionalTruncate(c.licensePlate.value, 20) else m.licensePlate,
       currentKilometers := c.currentKilometers.GetOr(m.currentKilometers))
  }

  /** The values a `SET` list writes fit their columns. */
  predicate ChangeFits(c: MotorcycleChange)
  {
    && (c.licensePlate.Some? ==> OptionalVarcharAccepts(c.licensePlate.value, 20))
    && (c.currentKilometers.Some? ==> IsInt4(c.currentKilometers.value))
  }

  /** `UPDATE motorcycles SET ... WHERE id = key`: touches at most the row
      with that key (none when it is absent) and is rejected when a value it
      writes does not fit its column. */
  function UpdateMotorcycle(db: Db, key: string, c: MotorcycleChange): (r: Result<Db, DbError>)
    ensures key !in db.motorcycles ==> r == Ok(db)
    ensures key in db.motorcycles ==> (r.Ok? <==> ChangeFits(c))
    ensures r.Ok? ==>
      && r.value.motorcycles.Keys == db.motorcycles.Keys
      && (forall k :: k in db.motorcycles && k != key ==> r.value.motorcycles[k] == db.motorcycles[k])
      && (key in db.motorcycles ==> r.value.motorcycles[key] == Apply(db.motorcycles[key], c))
      && r.value.users == db.users
      && r.value.services == db.services && r.value.events == db.events
      && r.value.modifications == db.modifications
    ensures Valid(db) && r.Ok? ==> Valid(r.value)
  {
    if key !in db.motorcycles then Ok(db)
    else
      if !ChangeFits(c) then Err(ValueOutOfRange)
      else Ok(db.(motorcycles := db.motorcycles[key := Apply(db.motorcycles[key], c)]))
  }

  /** `DELETE FROM motorcycles WHERE id = key`: the `ON DELETE CASCADE`
      foreign keys remove every service, event and modification of that
      motorcycle with it. */
  function DeleteMotorcycle(db: Db, key: string): (r: Db)
    ensures r.motorcycles.Keys == db.motorcycles.Keys - {key}
    ensures forall k :: k in r.motorcycles ==> r.motorcycles[k] == db.motorcycles[k]
    ensures r.users == db.users
    ensures r.services == Seqs.Filter(db.services, ServiceNotOf(key))
    ensures r.events == Seqs.Filter(db.events, EventNotOf(key))
    ensures r.modifications == Seqs.Filter(db.modifications, ModificationNotOf(key))
    ensures forall s :: s in r.services <==> s in db.services && s.motorcycleId != key
    ensures forall e :: e in r.events <==> e in db.events && e.motorcycleId != key
    ensures forall m :: m in r.modifications <==> m in db.modifications && m.motorcycleId != key
    ensures Valid(db) ==> Valid(r)
  {
    var services := Seqs.Filter(db.services, ServiceNotOf(key));
    var events := Seqs.Filter(db.events, EventNotOf(key));
    var modifications := Seqs.Filter(db.modifications, ModificationNotOf(key));
    if Valid(db) then
      DeleteKeepsValid(db, key);
      Db(db.users, db.motorcycles - {key}, services, events, modifications)
    else
      Db(db.users, db.motorcycles - {key}, services, events, modifications)
  }

  lemma DeleteKeepsValid(db: Db, key: string)
    requires Valid(db)
    ensures Valid(Db(db.users, db.motorcycles - {key},
                     Seqs.Filter(db.services, ServiceNotOf(key)),
                     Seqs.Filter(db.events, EventNotOf(key)),
                     Seqs.Filter(db.modifications, ModificationNotOf(key))))
  {
    Seqs.FilterKeepsDistinct(db.services, ServiceNotOf(key), ServiceKey);
    Seqs.FilterKeepsDistinct(db.events, EventNotOf(key), EventKey);
    Seqs.FilterKeepsDistinct(db.modifications, ModificationNotOf(key), ModificationKey);
    DeleteKeepsServiceRows(db, key);
    DeleteKeepsEventRows(db, key);
    DeleteKeepsModificationRows(db, key);
  }

  lemma DeleteKeepsServiceRows(db: Db, key: string)
    requires Valid(db)
    ensures var f := Seqs.Filter(db.services, ServiceNotOf(key));
      forall i :: 0 <= i < |f| ==> ServiceFits(f[i]) && f[i].motorcycleId in db.motorcycles - {key}
  {
    var f := Seqs.Filter(db.services, ServiceNotOf(key));
    forall i | 0 <= i < |f|
      ensures ServiceFits(f[i]) && f[i].motorcycleId in db.motorcycles - {key}
    {
      assert ServiceNotOf(key)(f[i]);
      assert f[i] in db.services;
      var j :| 0 <= j < |db.services| && db.services[j] == f[i];
    }
  }

  lemma DeleteKeepsEventRows(db: Db, key: string)
    requires Valid(db)
    ensures var f := Seqs.Filter(db.events, EventNotOf(key));
      forall i :: 0 <= i < |f| ==> EventFits(f[i]) && f[i].motorcycleId in db.motorcycles - {key}
  {
    var f := Seqs.Filter(db.events, EventNotOf(key));
    forall i | 0 <= i < |f|
      ensures EventFits(f[i]) && f[i].motorcycleId in db.motorcycles - {key}
    {
      assert EventNotOf(key)(f[i]);
      assert f[i] in db.events;
      var j :| 0 <= j < |db.events| && db.events[j] == f[i];
    }
  }

  lemma DeleteKeepsModificationRows(db: Db, key: string)
    requires Valid(db)
    ensures var f := Seqs.Filter(db.modifications, ModificationNotOf(key));
      forall i :: 0 <= i < |f| ==> ModificationFits(f[i]) && f[i].motorcycleId in db.motorcycles - {key}
  {
    var f := Seqs.Filter(db.modifications, ModificationNotOf(key));
    forall i | 0 <= i < |f|
      ensures ModificationFits(f[i]) && f[i].motorcycleId in db.motorcycles - {key}
    {
      assert ModificationNotOf(key)(f[i]);
      assert f[i] in db.modifications;
      var j :| 0 <= j < |db.modifications| && db.modifications[j] == f[i];
    }
  }

  /** A hundred letters and a space fit a `varchar(100)` column, stored as
      the hundred letters; a hundred and one letters do not. */
  lemma PaddedValueIsCut()
    ensures var letters := seq(100, _ => 'a');
      && VarcharAccepts(letters + " ", 100)
      && Truncate(letters + " ", 100) == letters
      && !VarcharAccepts(letters + "a", 100)
  {
    var letters := seq(100, _ => 'a');
    assert (letters + " ")[..100] == letters;
    assert (letters + "a")[100] == 'a';
  }
}

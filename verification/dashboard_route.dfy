/** src/app/api/dashboard/route.ts: the statistics and recent activity of the
    single motorcycle. The nine queries the source runs in parallel read one
    and the same store here. */
module DashboardRoute {
  import opened Wrappers
  import opened Schema
  import opened Seqs
  import opened SingleMotorcycle
  import opened Http
  import opened Bootstrap

  /** The `stats` object. Money is in cents. */
  datatype Stats = Stats(
    servicesThisMonth: int,
    totalServices: int,
    totalEvents: int,
    upcomingServices: int,
    totalExpenses: int,
    currentKilometers: int)

  /** An element of `recentActivity.services` or `recentActivity.events`:
      the selected columns of the row, tagged by its kind. */
  datatype Activity =
    | ServiceActivity(id: string, date: int, serviceType: ServiceType,
                      motorcycleName: Option<string>, kilometers: int, cost: Option<int>)
    | EventActivity(id: string, date: int, eventType: EventType, title: string,
                    motorcycleName: Option<string>, kilometers: int)

  /** The `activityType` discriminator. */
  function ActivityType(a: Activity): string
  {
    if a.ServiceActivity? then "service" else "event"
  }

  function ActivityDate(a: Activity): int { a.date }

  /** The reply of `GET /api/dashboard`. */
  datatype Dashboard = Dashboard(
    motorcycle: MotorcycleView,
    stats: Stats,
    recentServices: seq<Activity>,
    recentEvents: seq<Activity>)

  /** How many of the most recent rows each activity list shows. */
  const RecentLimit: nat := 5

  /** A service's cost, with no cost counting as 0 (`COALESCE`). */
  function ServiceCost(s: Service): int { s.cost.GetOr(0) }
  function EventCost(e: Event): int { e.cost.GetOr(0) }
  function ModificationCost(m: Modification): int { m.cost.GetOr(0) }

  /** `motorcycle_id = key AND date >= startOfMonth`. */
  function ServiceSince(key: string, startOfMonth: int): Service -> bool
  {
    (s: Service) => s.motorcycleId == key && s.date >= startOfMonth
  }

  /** `motorcycle_id = key AND next_service_km IS NOT NULL`. */
  function ServiceUpcoming(key: string): Service -> bool
  {
    (s: Service) => s.motorcycleId == key && s.nextServiceKm.Some?
  }

  /** `date >= startOfMonth`, with no upper bound. */
  function DatedFrom(startOfMonth: int): Service -> bool
  {
    (s: Service) => s.date >= startOfMonth
  }

  /** `next_service_km IS NOT NULL`. */
  predicate HasNextServiceKm(s: Service)
  {
    s.nextServiceKm.Some?
  }

  /** The single motorcycle's services, events and modifications. */
  function MyServices(db: Db): seq<Service> { Filter(db.services, ServiceOf(GetSingleMotorcycleId())) }
  function MyEvents(db: Db): seq<Event> { Filter(db.events, EventOf(GetSingleMotorcycleId())) }
  function MyModifications(db: Db): seq<Modification>
  {
    Filter(db.modifications, ModificationOf(GetSingleMotorcycleId()))
  }

  /** The recent-services query: five most recent services by date. */
  function RecentServices(db: Db): (r: seq<Service>)
    ensures |r| == if |MyServices(db)| < RecentLimit then |MyServices(db)| else RecentLimit
    ensures multiset(r) <= multiset(MyServices(db))
    ensures SortedDesc(r, ServiceDate)
    ensures forall s :: s in r ==> s in db.services && s.motorcycleId == GetSingleMotorcycleId()
  {
    TopDesc(MyServices(db), ServiceDate, RecentLimit)
  }

  function RecentEvents(db: Db): (r: seq<Event>)
    ensures |r| == if |MyEvents(db)| < RecentLimit then |MyEvents(db)| else RecentLimit
    ensures multiset(r) <= multiset(MyEvents(db))
    ensures SortedDesc(r, EventDate)
    ensures forall e :: e in r ==> e in db.events && e.motorcycleId == GetSingleMotorcycleId()
  {
    TopDesc(MyEvents(db), EventDate, RecentLimit)
  }

  /** The joined motorcycle name of a row. */
  function NameOf(db: Db, key: string): Option<string>
  {
    if key in db.motorcycles then Some(db.motorcycles[key].name) else None
  }

  /** `{ ...service, activityType: "service" }`. */
  function ServiceEntry(db: Db, s: Service): (a: Activity)
    ensures a.ServiceActivity? && a.id == s.id && a.date == s.date && a.kilometers == s.kilometers
    ensures a.serviceType == s.serviceType && a.cost == s.cost
  {
    ServiceActivity(s.id, s.date, s.serviceType, NameOf(db, s.motorcycleId), s.kilometers, s.cost)
  }

  /** `{ ...event, activityType: "event" }`. */
  function EventEntry(db: Db, e: Event): (a: Activity)
    ensures a.EventActivity? && a.id == e.id && a.date == e.date && a.kilometers == e.kilometers
    ensures a.eventType == e.eventType && a.title == e.title
  {
    EventActivity(e.id, e.date, e.eventType, e.title, NameOf(db, e.motorcycleId), e.kilometers)
  }

  /** Tagging a list of services keeps its order: a list sorted newest
      first stays so, each entry tagged "service". */
  function ServiceEntries(db: Db, s: seq<Service>): (r: seq<Activity>)
    ensures |r| == |s|
    ensures forall i :: 0 <= i < |s| ==> r[i] == ServiceEntry(db, s[i])
    ensures forall a :: a in r ==> a.ServiceActivity? && ActivityType(a) == "service"
    ensures SortedDesc(s, ServiceDate) ==> SortedDesc(r, ActivityDate)
  {
    var r := seq(|s|, i requires 0 <= i < |s| => ServiceEntry(db, s[i]));
    forall i, j | 0 <= i < j < |r| && SortedDesc(s, ServiceDate)
      ensures ActivityDate(r[i]) >= ActivityDate(r[j])
    {
      assert ActivityDate(r[i]) == ServiceDate(s[i]);
      assert ActivityDate(r[j]) == ServiceDate(s[j]);
    }
    r
  }

  /** Tagging a list of events keeps its order: a list sorted newest first
      stays so, each entry tagged "event". */
  function EventEntries(db: Db, s: seq<Event>): (r: seq<Activity>)
    ensures |r| == |s|
    ensures forall i :: 0 <= i < |s| ==> r[i] == EventEntry(db, s[i])
    ensures forall a :: a in r ==> a.EventActivity? && ActivityType(a) == "event"
    ensures SortedDesc(s, EventDate) ==> SortedDesc(r, ActivityDate)
  {
    var r := seq(|s|, i requires 0 <= i < |s| => EventEntry(db, s[i]));
    forall i, j | 0 <= i < j < |r| && SortedDesc(s, EventDate)
      ensures ActivityDate(r[i]) >= ActivityDate(r[j])
    {
      assert ActivityDate(r[i]) == EventDate(s[i]);
      assert ActivityDate(r[j]) == EventDate(s[j]);
    }
    r
  }

  /** The sum of the single motorcycle's costs over the three tables. */
  function TotalExpenses(db: Db): int
  {
    Sum(MyServices(db), ServiceCost) + Sum(MyEvents(db), EventCost)
      + Sum(MyModifications(db), ModificationCost)
  }

  /** The `stats` object for one state of the store. `startOfMonth` is the
      first instant of the current month. */
  function StatsOf(db: Db, startOfMonth: int): (st: Stats)
    ensures st.totalServices == |MyServices(db)| <= |db.services|
    ensures st.totalEvents == |MyEvents(db)| <= |db.events|
    ensures st.servicesThisMonth == Count(MyServices(db), DatedFrom(startOfMonth)) <= st.totalServices
    ensures st.upcomingServices == Count(MyServices(db), HasNextServiceKm) <= st.totalServices
    ensures st.totalExpenses == TotalExpenses(db)
    ensures st.currentKilometers == Odometer(db)
  {
    var id := GetSingleMotorcycleId();
    CountMonotone(db.services, ServiceSince(id, startOfMonth), ServiceOf(id));
    CountMonotone(db.services, ServiceUpcoming(id), ServiceOf(id));
    CountWithin(db.services, ServiceSince(id, startOfMonth), ServiceOf(id), DatedFrom(startOfMonth));
    CountWithin(db.services, ServiceUpcoming(id), ServiceOf(id), HasNextServiceKm);
    var km :=
      if id in db.motorcycles && db.motorcycles[id].currentKilometers != 0
      then db.motorcycles[id].currentKilometers
      else Default.currentKilometers;
    Stats(
      Count(db.services, ServiceSince(id, startOfMonth)),
      Count(db.services, ServiceOf(id)),
      Count(db.events, EventOf(id)),
      Count(db.services, ServiceUpcoming(id)),
      TotalExpenses(db),
      km)
  }

  /** `recentActivity.services`: the five most recent services, tagged. */
  function RecentServiceActivity(db: Db): (r: seq<Activity>)
    ensures |r| == if |MyServices(db)| < RecentLimit then |MyServices(db)| else RecentLimit
    ensures SortedDesc(r, ActivityDate)
    ensures forall a :: a in r ==> a.ServiceActivity? && ActivityType(a) == "service"
    ensures forall i :: 0 <= i < |r| ==> r[i] == ServiceEntry(db, RecentServices(db)[i])
  {
    ServiceEntries(db, RecentServices(db))
  }

  /** `recentActivity.events`: the five most recent events, tagged. */
  function RecentEventActivity(db: Db): (r: seq<Activity>)
    ensures |r| == if |MyEvents(db)| < RecentLimit then |MyEvents(db)| else RecentLimit
    ensures SortedDesc(r, ActivityDate)
    ensures forall a :: a in r ==> a.EventActivity? && ActivityType(a) == "event"
    ensures forall i :: 0 <= i < |r| ==> r[i] == EventEntry(db, RecentEvents(db)[i])
  {
    EventEntries(db, RecentEvents(db))
  }

  /** The dashboard computed from one state of the store: the motorcycle
      or its default record, the statistics, and at most five tagged
      entries of each kind, newest first. */
  function Aggregate(db: Db, startOfMonth: int): (d: Dashboard)
    ensures d.motorcycle.Stored? <==> GetSingleMotorcycleId() in db.motorcycles
    ensures d.motorcycle.Fallback? ==>
      && d.motorcycle.record.name == "Nyiu" && d.motorcycle.record.brand == "Kawasaki"
      && d.motorcycle.record.model == "Z900" && d.motorcycle.record.year == 2025
    ensures d.stats == StatsOf(db, startOfMonth)
    ensures d.stats.totalServices == |MyServices(db)| && d.stats.totalEvents == |MyEvents(db)|
    ensures d.stats.currentKilometers == Odometer(db)
    ensures d.stats.totalExpenses == TotalExpenses(db)
    ensures |d.recentServices| == if d.stats.totalServices < RecentLimit then d.stats.totalServices else RecentLimit
    ensures |d.recentEvents| == if d.stats.totalEvents < RecentLimit then d.stats.totalEvents else RecentLimit
    ensures forall i :: 0 <= i < |d.recentServices| ==>
      d.recentServices[i] == ServiceEntry(db, RecentServices(db)[i])
    ensures forall i :: 0 <= i < |d.recentEvents| ==>
      d.recentEvents[i] == EventEntry(db, RecentEvents(db)[i])
    ensures forall a :: a in d.recentServices ==> ActivityType(a) == "service"
    ensures forall a :: a in d.recentEvents ==> ActivityType(a) == "event"
    ensures SortedDesc(d.recentServices, ActivityDate) && SortedDesc(d.recentEvents, ActivityDate)
  {
    Dashboard(ViewOf(db), StatsOf(db, startOfMonth), RecentServiceActivity(db), RecentEventActivity(db))
  }

  /** `GET /api/dashboard`. */
  function Get(db: Db, sessionUserId: Option<string>, startOfMonth: int, now: int): (r: Handled<Dashboard>)
    ensures r.reply.Json? <==> EnsureOwned(db, sessionUserId, now).Ok?
    ensures r.reply.Failure? ==> r.db == db && r.reply == Failure(500, "Failed to fetch dashboard data")
    ensures r.reply.Json? ==>
      && r.db == EnsureOwned(db, sessionUserId, now).value
      && r.reply.status == 200 && r.reply.value == Aggregate(r.db, startOfMonth)
      && r.reply.value.motorcycle == Stored(Bootstrapped(db, sessionUserId, now))
      && r.reply.value.stats == StatsOf(db, startOfMonth)
  {
    match EnsureOwned(db, sessionUserId, now)
    case Err(_) => Handled(db, Failure(500, "Failed to fetch dashboard data"))
    case Ok(db1) => Handled(db1, Json(200, Aggregate(db1, startOfMonth)))
  }

  /** `GET /api/dashboard` as written: the owner-less bootstrap, so a store
      without the single motorcycle's row answers 500 and is left as it was;
      with the row present the dashboard does not depend on the session. */
  function GetAsWritten(db: Db, startOfMonth: int, now: int): (r: Handled<Dashboard>)
    ensures r.reply.Json? <==> GetSingleMotorcycleId() in db.motorcycles
    ensures r.reply.Failure? ==> r.db == db && r.reply == Failure(500, "Failed to fetch dashboard data")
    ensures r.reply.Json? ==>
      && r.db == db
      && r.reply.value.motorcycle == Stored(db.motorcycles[GetSingleMotorcycleId()])
      && r.reply.value.stats == StatsOf(db, startOfMonth)
      && forall session :: r == Get(db, session, startOfMonth, now)
  {
    match EnsureAnonymous(db, now)
    case Err(_) => Handled(db, Failure(500, "Failed to fetch dashboard data"))
    case Ok(_) => Get(db, None, startOfMonth, now)
  }

  /** No service of the single motorcycle left out of the recent list is more
      recent than one shown. */
  lemma RecentServicesAreLatest(db: Db, s: Service, shown: Service)
    requires s in db.services && s.motorcycleId == GetSingleMotorcycleId()
    requires shown in RecentServices(db) && s !in RecentServices(db)
    ensures s.date <= shown.date
  {
    assert s in MyServices(db);
    TopDescKeepsGreatest(MyServices(db), ServiceDate, RecentLimit, s, shown);
  }

  /** No event of the single motorcycle left out of the recent list is more
      recent than one shown. */
  lemma RecentEventsAreLatest(db: Db, e: Event, shown: Event)
    requires e in db.events && e.motorcycleId == GetSingleMotorcycleId()
    requires shown in RecentEvents(db) && e !in RecentEvents(db)
    ensures e.date <= shown.date
  {
    assert e in MyEvents(db);
    TopDescKeepsGreatest(MyEvents(db), EventDate, RecentLimit, e, shown);
  }

  /** Rows of other motorcycles do not show in the statistics: adding a
      service of another motorcycle changes no figure. */
  lemma OtherMotorcyclesIgnored(db: Db, s: Service, startOfMonth: int)
    requires s.motorcycleId != GetSingleMotorcycleId()
    ensures StatsOf(db.(services := db.services + [s]), startOfMonth) == StatsOf(db, startOfMonth)
  {
    var id := GetSingleMotorcycleId();
    var db' := db.(services := db.services + [s]);
    FilterAppend(db.services, s, ServiceOf(id));
    assert MyServices(db') == MyServices(db);
    CountAppend(db.services, s, ServiceSince(id, startOfMonth));
    CountAppend(db.services, s, ServiceUpcoming(id));
  }
}

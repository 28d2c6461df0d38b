/** How each write endpoint moves the dashboard figures: a created service or
    event is counted once and its cost added, a created modification adds
    only its cost, and a motorcycle update changes only the kilometres. */
module DashboardEffects {
  import opened Wrappers
  import opened Schema
  import opened Seqs
  import opened SingleMotorcycle
  import opened Http
  import opened DashboardRoute
  import ServicesRoute
  import EventsRoute
  import ModificationsRoute
  import MotorcycleRoute

  /** A created service is counted once in the totals, once more in the
      month and upcoming counts when it qualifies, and its cost is added. */
  lemma {:induction false} AfterServicePost(db: Db, session: Option<string>,
                                            body: ServicesRoute.ServiceBody, newId: string,
                                            now: int, startOfMonth: int)
    requires ServicesRoute.Post(db, session, body, newId, now).reply.Json?
    ensures
      var r := ServicesRoute.Post(db, session, body, newId, now);
      var row := r.reply.value;
      var before := StatsOf(db, startOfMonth);
      var after := StatsOf(r.db, startOfMonth);
      && after.totalServices == before.totalServices + 1
      && after.totalEvents == before.totalEvents
      && after.servicesThisMonth == before.servicesThisMonth + (if row.date >= startOfMonth then 1 else 0)
      && after.upcomingServices == before.upcomingServices + (if row.nextServiceKm.Some? then 1 else 0)
      && after.totalExpenses == before.totalExpenses + row.cost.GetOr(0)
      && after.currentKilometers == Max(before.currentKilometers, row.kilometers)
  {
    var r := ServicesRoute.Post(db, session, body, newId, now);
    var row := r.reply.value;
    var id := GetSingleMotorcycleId();
    FilterAppend(db.services, row, ServiceOf(id));
    assert MyServices(r.db) == MyServices(db) + [row];
    SumAppend(MyServices(db), row, ServiceCost);
    CountAppend(db.services, row, ServiceSince(id, startOfMonth));
    CountAppend(db.services, row, ServiceUpcoming(id));
  }

  /** A created event is counted once and its cost added. */
  lemma {:induction false} AfterEventPost(db: Db, session: Option<string>,
                                          body: EventsRoute.EventBody, newId: string,
                                          now: int, startOfMonth: int)
    requires EventsRoute.Post(db, session, body, newId, now).reply.Json?
    ensures
      var r := EventsRoute.Post(db, session, body, newId, now);
      var row := r.reply.value;
      var before := StatsOf(db, startOfMonth);
      var after := StatsOf(r.db, startOfMonth);
      && after.totalEvents == before.totalEvents + 1
      && after.totalServices == before.totalServices
      && after.servicesThisMonth == before.servicesThisMonth
      && after.upcomingServices == before.upcomingServices
      && after.totalExpenses == before.totalExpenses + row.cost.GetOr(0)
      && after.currentKilometers == Max(before.currentKilometers, row.kilometers)
  {
    var r := EventsRoute.Post(db, session, body, newId, now);
    var row := r.reply.value;
    FilterAppend(db.events, row, EventOf(GetSingleMotorcycleId()));
    assert MyEvents(r.db) == MyEvents(db) + [row];
    SumAppend(MyEvents(db), row, EventCost);
  }

  /** A created modification is not counted anywhere; only its cost is added
      to the expenses. */
  lemma {:induction false} AfterModificationPost(db: Db, session: Option<string>,
                                                 body: ModificationsRoute.ModificationBody,
                                                 newId: string, now: int, startOfMonth: int)
    requires ModificationsRoute.Post(db, session, body, newId, now).reply.Json?
    ensures
      var r := ModificationsRoute.Post(db, session, body, newId, now);
      var row := r.reply.value;
      var before := StatsOf(db, startOfMonth);
      var after := StatsOf(r.db, startOfMonth);
      && after.totalServices == before.totalServices
      && after.totalEvents == before.totalEvents
      && after.servicesThisMonth == before.servicesThisMonth
      && after.upcomingServices == before.upcomingServices
      && after.totalExpenses == before.totalExpenses + row.cost.GetOr(0)
      && after.currentKilometers == before.currentKilometers
  {
    var r := ModificationsRoute.Post(db, session, body, newId, now);
    var row := r.reply.value;
    FilterAppend(db.modifications, row, ModificationOf(GetSingleMotorcycleId()));
    assert MyModifications(r.db) == MyModifications(db) + [row];
    SumAppend(MyModifications(db), row, ModificationCost);
  }

  /** An accepted motorcycle update leaves every count and the expenses as
      they were; the kilometres shown become the ones sent, if any. */
  lemma AfterPut(db: Db, session: Option<string>, body: MotorcycleRoute.MotorcycleBody,
                 now: int, startOfMonth: int)
    requires MotorcycleRoute.Put(db, session, body, now).reply.Json?
    ensures
      var r := MotorcycleRoute.Put(db, session, body, now);
      var before := StatsOf(db, startOfMonth);
      var after := StatsOf(r.db, startOfMonth);
      && after.totalServices == before.totalServices
      && after.totalEvents == before.totalEvents
      && after.servicesThisMonth == before.servicesThisMonth
      && after.upcomingServices == before.upcomingServices
      && after.totalExpenses == before.totalExpenses
      && (body.currentKilometers.Some? ==> after.currentKilometers == body.currentKilometers.value)
  {
    var r := MotorcycleRoute.Put(db, session, body, now);
    assert MyServices(r.db) == MyServices(db);
    assert MyEvents(r.db) == MyEvents(db);
    assert MyModifications(r.db) == MyModifications(db);
    assert TotalExpenses(r.db) == TotalExpenses(db);
  }
}

/** The odometer rule shared by the service and event routes: a create only
    ever raises the stored kilometres. Only an explicit motorcycle update can
    lower them. */
module OdometerPolicy {
  import opened Wrappers
  import opened Schema
  import opened SingleMotorcycle
  import ServicesRoute
  import EventsRoute

  /** One create request, with the id and clock value it will use. */
  datatype Create =
    | CreateService(serviceSession: Option<string>, service: ServicesRoute.ServiceBody,
                    serviceId: string, serviceNow: int)
    | CreateEvent(eventSession: Option<string>, event: EventsRoute.EventBody, eventId: string, eventNow: int)

  /** The store after one create, accepted or not. */
  function Step(db: Db, c: Create): (r: Db)
    ensures Odometer(r) >= Odometer(db)
    ensures Valid(db) ==> Valid(r)
  {
    match c
    case CreateService(session, b, id, now) => ServicesRoute.Post(db, session, b, id, now).db
    case CreateEvent(session, b, id, now) => EventsRoute.Post(db, session, b, id, now).db
  }

  /** The store after a run of creates, in order. */
  function Run(db: Db, cs: seq<Create>): Db
    decreases |cs|
  {
    if |cs| == 0 then db else Run(Step(db, cs[0]), cs[1..])
  }

  /** However the creates interleave and whatever kilometres they carry,
      the odometer never goes down, and the store stays consistent. */
  lemma {:induction false} RunNeverLowers(db: Db, cs: seq<Create>)
    ensures Odometer(Run(db, cs)) >= Odometer(db)
    ensures Valid(db) ==> Valid(Run(db, cs))
    decreases |cs|
  {
    if |cs| > 0 {
      RunNeverLowers(Step(db, cs[0]), cs[1..]);
    }
  }

  /** A run never lowers the odometer below any accepted reading: after a
      run that ends in an accepted service, the odometer is at least that
      service's kilometres. */
  lemma {:induction false} RunReachesLastReading(db: Db, cs: seq<Create>, session: Option<string>,
                                                 last: ServicesRoute.ServiceBody,
                                                 id: string, now: int)
    requires ServicesRoute.Post(Run(db, cs), session, last, id, now).reply.Json?
    ensures Odometer(Run(db, cs + [CreateService(session, last, id, now)])) >= last.kilometers.value
    decreases |cs|
  {
    if |cs| == 0 {
      assert cs + [CreateService(session, last, id, now)] == [CreateService(session, last, id, now)];
    } else {
      assert (cs + [CreateService(session, last, id, now)])[1..] == cs[1..] + [CreateService(session, last, id, now)];
      RunReachesLastReading(Step(db, cs[0]), cs[1..], session, last, id, now);
    }
  }
}

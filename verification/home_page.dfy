/** src/app/page.tsx: the two pieces of logic on the home page that are not
    rendering — the merged recent-activity feed and the default statistics. */
module HomePage {
  import opened Wrappers
  import opened Seqs
  import opened SingleMotorcycle
  import opened Schema
  import opened DashboardRoute

  /** How many entries the merged feed shows. */
  const FeedLimit: nat := 5

  /** `[...services, ...events].sort(by date descending).slice(0, 5)`. The
      sort is stable, as `Array.prototype.sort` is. */
  function MergeRecent(services: seq<Activity>, events: seq<Activity>): (r: seq<Activity>)
    ensures |r| <= FeedLimit
    ensures |r| == if |services| + |events| < FeedLimit then |services| + |events| else FeedLimit
    ensures SortedDesc(r, ActivityDate)
    ensures forall a :: a in r ==> a in services || a in events
    ensures multiset(r) <= multiset(services) + multiset(events)
  {
    var all := services + events;
    assert forall a :: a in all ==> a in services || a in events;
    TopDesc(all, ActivityDate, FeedLimit)
  }

  /** The "No recent activity" branch. */
  predicate ShowsEmptyState(d: Dashboard)
  {
    |d.recentServices| == 0 && |d.recentEvents| == 0
  }

  /** The feed of a dashboard reply; the empty-state message is shown
      exactly when it would be empty. */
  function Feed(d: Dashboard): (r: seq<Activity>)
    ensures |r| == 0 <==> ShowsEmptyState(d)
  {
    MergeRecent(d.recentServices, d.recentEvents)
  }

  /** An entry of either list left out of the feed is no more recent than
      any entry shown. */
  lemma {:induction false} FeedKeepsLatest(d: Dashboard, left: Activity, shown: Activity)
    requires left in d.recentServices || left in d.recentEvents
    requires shown in Feed(d) && left !in Feed(d)
    ensures left.date <= shown.date
  {
    var all := d.recentServices + d.recentEvents;
    assert left in all;
    TopDescKeepsGreatest(all, ActivityDate, FeedLimit, left, shown);
  }

  /** `data?.stats || { ...all zero }`. */
  function StatsShown(data: Option<Dashboard>): (st: Stats)
    ensures data.Some? ==> st == data.value.stats
    ensures data.None? ==>
      && st.servicesThisMonth == 0 && st.totalServices == 0 && st.totalEvents == 0
      && st.upcomingServices == 0 && st.totalExpenses == 0 && st.currentKilometers == 0
  {
    match data
    case Some(d) => d.stats
    case None => Stats(0, 0, 0, 0, 0, 0)
  }

  /** With a dashboard reply in hand, the cards show the server's statistics
      of the store as it was before the request: the same counts, expenses
      and odometer reading. */
  lemma ShownStatsAreServerStats(db: Db, sessionUserId: Option<string>, startOfMonth: int, now: int)
    requires DashboardRoute.Get(db, sessionUserId, startOfMonth, now).reply.Json?
    ensures var st := StatsShown(Some(DashboardRoute.Get(db, sessionUserId, startOfMonth, now).reply.value));
      && st == StatsOf(db, startOfMonth)
      && st.totalServices == |MyServices(db)| && st.totalEvents == |MyEvents(db)|
      && st.currentKilometers == Odometer(db)
  {
  }
}

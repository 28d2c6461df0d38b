# nyiu-tracker: a Dafny model of the single-motorcycle tracker

nyiu-tracker is a maintenance log for one motorcycle, a Kawasaki Z900 called
"Nyiu". Its server is a set of route handlers over a relational store. The
store has one fixed motorcycle row, created on demand, and its services,
events and modifications. On top of that sit:

- a dashboard that aggregates those rows;
- a request gate that sends signed-out visitors to the sign-in page;
- a client hook that keeps the modification list in step with the server.

This project models that core in Dafny. Every handler is a pure function
from a store and a request to a new store and a reply (`Http.Handled`). The
store is `Schema.Db`:

- the set of known user ids;
- the motorcycles keyed by id;
- sequences of services, events and modifications.

Writes to the store enforce the constraints of the table definitions. These
are NOT NULL, the primary and foreign keys, the 32-bit integer range,
`decimal(10,2)` and the enumerations. They also enforce the varchar lengths
as PostgreSQL assigns to `varchar(n)`: a longer text is refused unless every
character past the n-th is a space, and then it is stored cut to n
characters (`Schema.Truncate`). A write the store would reject is an `Err`,
and the handler turns it into the source's 500 reply.

Modules:

- `Wrappers`, `Seqs`: option and result types; filtering, counting, sums, a
  stable descending sort and its top-n prefix.
- `Schema`: the row types, enumerations, column domains, store invariant
  `Valid`, and the constraint-checked insert, update and cascading delete.
- `SingleMotorcycle`: the fixed id and default record.
- `Http`: replies and JavaScript truthiness.
- `Bootstrap`: the create-if-absent routine each route file carries.
- `ServicesRoute`, `EventsRoute`, `ModificationsRoute`, `MotorcycleRoute`,
  `DashboardRoute`: the API handlers.
- `DashboardEffects`, `OdometerPolicy`: how writes move the dashboard figures
  and the odometer.
- `Middleware`: the page gate and its path matcher.
- `HomePage`: the merged activity feed and the default statistics.
- `UseMotorcycle`: the client hook's state transforms.

Inputs that are not values in the source are parameters of the model:

- the generated row id (`newId`);
- the clock (`now`);
- the first instant of the month (`startOfMonth`);
- the session's user id;
- the session cookie;
- the server's answer to the client hook.

Money is integer cents; dates are integer instants. A request body's date
keeps its text as well (`Http.Stamp`), because the handlers test the text
for truthiness.

The services, events and dashboard routes are modelled with the owner-giving
bootstrap, not the copy in their files (see "## Findings"). Their
`GetAsWritten` and `PostAsWritten` members model the handlers with the copy as
written.

## Model

| member | source | states |
|---|---|---|
| SingleMotorcycle.GetSingleMotorcycleId | src/lib/single-motorcycle.ts:3-14 | the singleton id is always the constant `550e8400-e29b-41d4-a716-446655440000` |
| SingleMotorcycle.DefaultRow | src/lib/single-motorcycle.ts:2-12 | the default row fits every column constraint and starts at 0 km with an empty plate, under the given owner |
| SingleMotorcycle.ViewOf | src/app/api/motorcycle/route.ts:49 | the motorcycle shown is the stored row iff it exists; otherwise the default record: the fixed id, "Nyiu", "Kawasaki", "Z900", 2025, 0 km, 948 cc, "Black", an empty plate |
| Schema.ServiceTypeIsEnumeration | src/lib/db/schema.ts:64-73 | there are exactly 8 distinct service-type literals, and each one parses back to its own value |
| Schema.EventTypeIsEnumeration | src/lib/db/schema.ts:75-83 | there are exactly 7 distinct event-type literals, and each one parses back to its own value |
| Schema.ModificationTypeIsEnumeration | src/lib/db/schema.ts:85-93 | there are exactly 7 distinct modification-type literals, and each one parses back to its own value |
| Schema.ParseServiceType | src/lib/db/schema.ts:64-73 | a string is accepted as a service type iff it is one of the literals, and it maps back to that literal |
| Schema.ParseEventType | src/lib/db/schema.ts:75-83 | a string is accepted as an event type iff it is one of the literals, and it maps back to that literal |
| Schema.ParseModificationType | src/lib/db/schema.ts:85-93 | a string is accepted as a modification type iff it is one of the literals, and it maps back to that literal |
| Schema.InsertMotorcycle | src/lib/db/schema.ts:96-111 | a motorcycle insert succeeds iff the owner is set and known, the id is free and every column fits; it adds exactly that row and keeps the store valid |
| Schema.InsertService | src/lib/db/schema.ts:113-126 | a service insert succeeds iff the id is free, the motorcycle exists and the columns fit, a location past 100 characters only when the excess is spaces; it appends exactly the new row, with the location cut to 100, and keeps the store valid |
| Schema.InsertEvent | src/lib/db/schema.ts:128-141 | an event insert succeeds iff the id is free, the motorcycle exists and the columns fit, a title or location past 100 characters only when the excess is spaces; it appends exactly the new row, with title and location cut to 100 |
| Schema.InsertModification | src/lib/db/schema.ts:143-154 | a modification insert succeeds iff the id is free, the motorcycle exists and the columns fit, a name past 100 characters only when the excess is spaces; it appends exactly the new row, with the name cut to 100 |
| Schema.UpdateMotorcycle | src/lib/db/schema.ts:96-111 | an update of one row succeeds iff the new values fit their columns, a plate past 20 characters only when the excess is spaces; it changes only the given fields of that row, the plate cut to 20, and keeps the store valid |
| Schema.DeleteMotorcycle | src/lib/db/schema.ts:115-117 | deleting a motorcycle removes its key, every other motorcycle and the users stay as they were, and each child table keeps, in order, exactly the rows of other motorcycles |
| Schema.DeleteKeepsValid | src/lib/db/schema.ts:130-132 | the cascading delete keeps the store valid: no child row is left without its motorcycle |
| Schema.Truncate | src/lib/db/schema.ts:101-148 | the stored form of a `varchar(n)` value is at most n characters, the value itself when it fits, and otherwise exactly its first n characters with only spaces dropped after them |
| Schema.PaddedValueIsCut | src/lib/db/schema.ts:136 | a hundred letters and a space fit `varchar(100)` and are stored as the hundred letters; a hundred and one letters do not fit |
| Http.KeepTruthy | src/app/api/services/route.ts:101-105 | `x ? x : undefined` keeps a number exactly when it is truthy, and then unchanged |
| Bootstrap.SessionOwner | src/app/api/modifications/route.ts:20-22 | the owner of a created row is the session's user id when it is truthy, else "default-user" |
| Bootstrap.EnsureSingleMotorcycle | src/app/api/services/route.ts:11-30 | with the row present nothing changes; without it, the default row is inserted iff the owner is set and known; the store stays valid |
| Bootstrap.EnsureIdempotent | src/app/api/events/route.ts:11-30 | running the bootstrap a second time, at any later time, changes nothing |
| Bootstrap.EnsureAddsAtMostOneRow | src/app/api/events/route.ts:17-29 | a bootstrap adds at most one motorcycle row |
| Bootstrap.EnsureOwned | src/app/api/modifications/route.ts:13-37 | the owned bootstrap succeeds iff the row exists or the session owner is a known user; afterwards the row exists, and a created row belongs to the session owner |
| Bootstrap.Bootstrapped | src/app/api/motorcycle/route.ts:12-36 | the row after the bootstrap is the stored one if present, else the default under the session owner; its reading is the current odometer |
| Bootstrap.EnsureAnonymous | src/app/api/services/route.ts:11-30 | the owner-less copy succeeds iff the row already exists, and then changes nothing and agrees with the owned copy under any session |
| Bootstrap.AnonymousBootstrapRefused | src/app/api/dashboard/route.ts:11-30 | on a store with no motorcycle the owner-less copy fails where the owned copy creates the row |
| ServicesRoute.Get | src/app/api/services/route.ts:33-68 | the listing holds exactly the singleton's services, as a multiset, newest first, each joined to the motorcycle's name, brand and model; 500 only if the bootstrap fails |
| ServicesRoute.ToNewService | src/app/api/services/route.ts:95-106 | the row is always for the singleton, and a falsy cost or next-service reading is stored as absent |
| ServicesRoute.Post | src/app/api/services/route.ts:71-129 | 400 iff a required field is falsy, with nothing inserted; 201 iff the row is accepted, a location padded with spaces included; the created row carries the body's values, the location as its column stores it; the odometer becomes max(old, km); every other row is unchanged |
| ServicesRoute.GetAsWritten | src/app/api/services/route.ts:11-68 | as written the listing succeeds iff the row already exists; otherwise 500 with the store unchanged; with the row present the reply is the corrected one under any session |
| ServicesRoute.PostAsWritten | src/app/api/services/route.ts:11-129 | as written, a store without the row answers 500 and is unchanged whatever the body; with the row, 201 iff the body is complete and accepted, and the reply is the corrected one under any session |
| ServicesRoute.OilChangeRaisesOdometer | src/app/api/services/route.ts:111-119 | a service at 5000 km on a motorcycle at 0 km raises the odometer to 5000 |
| ServicesRoute.LowerServiceKeepsOdometer | src/app/api/services/route.ts:111-119 | services at 8000 km and then 3000 km leave the odometer at 8000 |
| ServicesRoute.SecondCreate | src/app/api/services/route.ts:108-121 | a second, lower service is still created with 201 and leaves the odometer where it was |
| ServicesRoute.ZeroKilometersIsMissing | src/app/api/services/route.ts:79-87 | a reading of 0 km counts as missing: 400 and the store unchanged |
| EventsRoute.Get | src/app/api/events/route.ts:33-68 | the listing holds exactly the singleton's events, as a multiset, newest first, each joined to the motorcycle's name, brand and model |
| EventsRoute.ToNewEvent | src/app/api/events/route.ts:95-104 | the row is always for the singleton, and a falsy cost is stored as absent |
| EventsRoute.Post | src/app/api/events/route.ts:71-127 | 400 iff date, kilometres, type or title is falsy, with nothing inserted; 201 iff the row is accepted, a title or location padded with spaces included; the created row carries the body's values, title and location as their columns store them; the odometer becomes max(old, km) |
| EventsRoute.PaddedTitleIsCut | src/app/api/events/route.ts:71-127 | a title the column accepts gives the same reply and store as its cut form: spaces past the hundredth character are dropped, not refused |
| EventsRoute.GetAsWritten | src/app/api/events/route.ts:11-68 | as written the listing succeeds iff the row already exists; otherwise 500 with the store unchanged; with the row present the reply is the corrected one under any session |
| EventsRoute.PostAsWritten | src/app/api/events/route.ts:11-127 | as written, a store without the row answers 500 and is unchanged whatever the body; with the row, 201 iff the body is complete and accepted, and the reply is the corrected one under any session |
| ModificationsRoute.Get | src/app/api/modifications/route.ts:40-59 | the listing holds exactly the singleton's modifications, as a multiset, in ascending install date |
| ModificationsRoute.ToNewModification | src/app/api/modifications/route.ts:79-86 | the row is always for the singleton, and a falsy cost is stored as absent |
| ModificationsRoute.Post | src/app/api/modifications/route.ts:62-101 | 400 iff name, type or install date is falsy; 201 iff the row is accepted, a name padded with spaces included, and then the created row carries the body's values, the name as its column stores it, and is appended; users, services, events and the odometer never change |
| MotorcycleRoute.Get | src/app/api/motorcycle/route.ts:39-57 | after the owned bootstrap the reply is the stored row; 500 only if the bootstrap fails |
| MotorcycleRoute.PutIgnoresOtherFields | src/app/api/motorcycle/route.ts:67-81 | two bodies that agree on the plate and the reading give the same store and reply, whatever identity, name, brand, model, year, engine size or colour they carry |
| MotorcycleRoute.Put | src/app/api/motorcycle/route.ts:60-97 | only the plate, the reading and `updatedAt` change; an absent field keeps its value, a present one overwrites it, a plate padded with spaces past 20 characters stored cut; no motorcycle key is added beyond the singleton's, no other row, user or child row changes |
| MotorcycleRoute.PutIdempotent | src/app/api/motorcycle/route.ts:83-89 | repeating the same update with the same clock gives the same store |
| MotorcycleRoute.GetAfterPut | src/app/api/motorcycle/route.ts:39-97 | after an accepted update, a read at any later time under any session replies 200 with the updated row and leaves the store unchanged |
| MotorcycleRoute.PutCanLowerOdometer | src/app/api/motorcycle/route.ts:79-81 | an update may set the reading below the current one (8000 to 100) |
| DashboardRoute.StatsOf | src/app/api/dashboard/route.ts:61-117 | the totals are the numbers of the singleton's services and events; the month count is the number of its services dated at or after the start of the month, and the upcoming count the number with a next-service reading, each at most the total; expenses are the three cost sums; the reading is the odometer |
| DashboardRoute.RecentServices | src/app/api/dashboard/route.ts:119-133 | min(5, number of the singleton's services) of them, a sub-multiset, newest first |
| DashboardRoute.RecentEvents | src/app/api/dashboard/route.ts:135-149 | min(5, number of the singleton's events) of them, a sub-multiset, newest first |
| DashboardRoute.RecentServiceActivity | src/app/api/dashboard/route.ts:168-171 | the recent services are tagged "service", keep their fields and stay newest first |
| DashboardRoute.RecentEventActivity | src/app/api/dashboard/route.ts:172-175 | the recent events are tagged "event", keep their fields and stay newest first |
| DashboardRoute.Aggregate | src/app/api/dashboard/route.ts:153-177 | the motorcycle is the stored row iff it exists, else the Nyiu/Kawasaki/Z900/2025 default; the statistics are `StatsOf` of the store; entry i of each recent list is the i-th of the five newest services or events, tagged with its kind and carrying the motorcycle's name |
| DashboardRoute.Get | src/app/api/dashboard/route.ts:33-187 | after the owned bootstrap the dashboard is the aggregate of the store, shows the bootstrapped row and the statistics of the original store |
| DashboardRoute.GetAsWritten | src/app/api/dashboard/route.ts:11-187 | as written the dashboard succeeds iff the row already exists; otherwise 500 with the store unchanged; with the row it shows the stored row and the store's statistics, the same under any session |
| DashboardRoute.RecentServicesAreLatest | src/app/api/dashboard/route.ts:132-133 | no singleton service left out of the recent list is newer than one shown |
| DashboardRoute.RecentEventsAreLatest | src/app/api/dashboard/route.ts:148-149 | no singleton event left out of the recent list is newer than one shown |
| DashboardRoute.OtherMotorcyclesIgnored | src/app/api/dashboard/route.ts:72-76 | adding a service of another motorcycle changes no statistic |
| DashboardEffects.AfterServicePost | src/app/api/dashboard/route.ts:61-117 | a created service adds one to the total, one to the month and upcoming counts when it qualifies, and its cost to the expenses |
| DashboardEffects.AfterEventPost | src/app/api/dashboard/route.ts:78-98 | a created event adds one to the event total and its cost to the expenses, and changes no service count |
| DashboardEffects.AfterModificationPost | src/app/api/dashboard/route.ts:100-106 | a created modification adds only its cost to the expenses |
| DashboardEffects.AfterPut | src/app/api/dashboard/route.ts:160-165 | an accepted motorcycle update changes no count and no expense, and the shown reading becomes the one sent |
| OdometerPolicy.Step | src/app/api/events/route.ts:108-117 | one create, accepted or not, never lowers the odometer and keeps the store valid |
| OdometerPolicy.RunNeverLowers | src/app/api/services/route.ts:110-119 | any run of service and event creates never lowers the odometer and keeps the store valid |
| OdometerPolicy.RunReachesLastReading | src/app/api/services/route.ts:110-119 | after a run ending in an accepted service, the odometer is at least that service's reading |
| Middleware.Gate | src/middleware.ts:3-34 | redirect to sign-in with the path as callback iff the path is protected and no session; redirect home iff an auth route with a session; pass otherwise |
| Middleware.ProtectedAndAuthExclusive | src/middleware.ts:5-6 | no path is both protected and an auth route |
| Middleware.PrefixesAgree | src/middleware.ts:11-16 | two prefixes of one path agree where both are defined |
| Middleware.PrefixExtension | src/middleware.ts:11-16 | any extension of a protected or auth path is protected or an auth path too |
| Middleware.EmptyCookieIsNoSession | src/middleware.ts:19-21 | an empty session cookie is treated like no cookie |
| Middleware.GateOnSamplePaths | src/middleware.ts:21-33 | "/services/new" signed out goes to sign-in, "/signin" signed in goes home, "/signin" signed out and "/" pass |
| Middleware.Route | src/middleware.ts:36-47 | the gate applies only where the matcher selects the path; elsewhere the request passes |
| Middleware.ExcludedPathsPass | src/middleware.ts:45 | paths under api, _next/static, _next/image and favicon.ico always pass |
| Middleware.ApiPrefixIsNotASegment | src/middleware.ts:45 | the exclusion is a plain prefix with a wildcard dot: "/apiary" and "/favicon-ico" are skipped too, "/services" is not |
| HomePage.MergeRecent | src/app/page.tsx:370-378 | the merged feed has at most five entries, newest first, each from one of the two lists |
| HomePage.Feed | src/app/page.tsx:355-356 | the feed is empty exactly when the empty-state message shows |
| HomePage.FeedKeepsLatest | src/app/page.tsx:374-378 | no entry of either list left out of the feed is newer than one shown |
| HomePage.StatsShown | src/app/page.tsx:172-179 | with no dashboard data all six statistics are 0, otherwise they are the dashboard's |
| HomePage.ShownStatsAreServerStats | src/app/page.tsx:172-179 | with a dashboard reply the cards show the server's statistics: the singleton's totals and the odometer of the store before the request |
| UseMotorcycle.UpdateMotorcycle | src/hooks/use-motorcycle.ts:67-88 | a non-ok reply throws with the state unchanged; an ok one sets the local motorcycle to the reply |
| UseMotorcycle.HookFollowsPut | src/hooks/use-motorcycle.ts:67-88 | after an accepted update the hook holds the stored row, with the plate and reading sent or the previous ones, and the same modifications |
| UseMotorcycle.AddModification | src/hooks/use-motorcycle.ts:90-114 | a non-ok reply throws with the state unchanged; an ok one appends the created item after the unchanged earlier ones |
| UseMotorcycle.UpdateModification | src/hooks/use-motorcycle.ts:116-139 | a non-ok reply throws with the state unchanged; an ok one replaces the items with that id |
| UseMotorcycle.ReplaceKeepsOthers | src/hooks/use-motorcycle.ts:132-134 | leaving out the items with that id, the list after a replace is the list before it |
| UseMotorcycle.DeleteModification | src/hooks/use-motorcycle.ts:141-155 | a non-ok reply throws with the state unchanged; an ok one removes the items with that id |
| UseMotorcycle.Remove | src/hooks/use-motorcycle.ts:151 | no item with the id remains, every other item does, and the length drops by the number removed |
| UseMotorcycle.RemoveCount | src/hooks/use-motorcycle.ts:151 | the items kept plus the items with the id are all the items |
| UseMotorcycle.RemoveUndoesAdd | src/hooks/use-motorcycle.ts:108-109 | removing the just-added item's id gives the same list as removing it before the add |
| UseMotorcycle.RemoveIdempotent | src/hooks/use-motorcycle.ts:151 | removing the same id twice is removing it once |
| UseMotorcycle.RemoveKeepsOrder | src/hooks/use-motorcycle.ts:151 | removing by id keeps the order of what stays: it distributes over putting two lists together |

## Left out

- Bootstrap.EnsureAnonymous: the services, events and dashboard copies as written are modelled only through the `GetAsWritten` and `PostAsWritten` members; the routes' main members use `Bootstrap.EnsureOwned` instead (see "## Findings").
- ServicesRoute.Get: models the corrected bootstrap, so a store without the row but with a known session owner gets the listing; as written it gets 500 (`ServicesRoute.GetAsWritten`).
- ServicesRoute.Post: models the corrected bootstrap, so a store without the row but with a known session owner can get 201; as written it gets 500 (`ServicesRoute.PostAsWritten`).
- EventsRoute.Get: models the corrected bootstrap; as written a store without the row gets 500 (`EventsRoute.GetAsWritten`).
- EventsRoute.Post: models the corrected bootstrap; as written a store without the row gets 500 (`EventsRoute.PostAsWritten`).
- DashboardRoute.Get: models the corrected bootstrap; as written a store without the row gets 500 (`DashboardRoute.GetAsWritten`).
- Schema.InsertMotorcycle: takes its text values as given, without the trailing-space cut of `varchar(n)`; a value past its length is refused. The only insert is the default record, whose values fit.
- The uuid format of ids: the store takes ids as given and enforces only their uniqueness.
- The foreign key from `motorcycles.user_id` to the user table is modelled as membership in a set of known user ids. The authentication tables and their library are not modelled.
- Check-then-insert races and `Promise.all`: each handler runs atomically on one state of the store.
- Floating-point money: costs are integer cents, so sums are exact where JavaScript `Number` addition may round.
- Date parsing, time zones and the first-of-month computation: instants are integers, and `startOfMonth` is a parameter.
- `parseInt` and `toString` coercion: bodies arrive as typed optional values. Truthiness (non-zero numbers, non-empty strings) is kept.
- Request parsing failures (malformed JSON) and database outages: the only 500s modelled are a failed bootstrap and a rejected write.
- The `[id]` routes for a single service, event or modification are not part of this model. The client hook's calls to them are modelled through their reply only.
- Encoding of `callbackUrl` into the sign-in URL: the decision carries the raw path.
- `Middleware.Route` models the matcher's regular expression only, not Next.js's own path normalisation.
- Rendering, styling and forms in the pages and components, the client form checks that repeat the server's validation, and the dashboard-loading hook.
- Rows that compare equal on their sort key are kept in insertion order. SQL leaves that order unspecified; JavaScript's sort keeps it.

## Findings

| source | as written | input that shows it | evidently intended | confidence | as-written member | corrected member |
|---|---|---|---|---|---|---|
| src/app/api/services/route.ts:18-28 (also events/route.ts:18-28, dashboard/route.ts:18-28) | the insert of the default motorcycle gives no `userId`, although `motorcycles.user_id` is NOT NULL (schema.ts:98-100); on a store without the row the insert fails and GET and POST reply 500 | a store with user "default-user" and no motorcycle: `Bootstrap.AnonymousBootstrapRefused`; at the handlers, `ServicesRoute.GetAsWritten` and its siblings answer 500 on every store without the row | give the row an owner as the modifications and motorcycle copies do: the session user, else "default-user" | medium; not executed | Bootstrap.EnsureAnonymous | Bootstrap.EnsureOwned |

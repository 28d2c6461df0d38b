/** `ensureSingleMotorcycle`, the create-if-absent routine every route file
    carries its own copy of. The copies differ only in the owner they give
    the new row: the modifications and motorcycle routes take it from the
    session (falling back to "default-user"); the services, events and
    dashboard routes give none, which the NOT NULL `user_id` column rejects. */
module Bootstrap {
  import opened Wrappers
  import opened Schema
  import opened SingleMotorcycle
  import opened Http

  /** `session?.user?.id || "default-user"`. */
  function SessionOwner(sessionUserId: Option<string>): (owner: string)
    ensures owner != ""
    ensures TruthyText(sessionUserId) ==> owner == sessionUserId.value
    ensures !TruthyText(sessionUserId) ==> owner == "default-user"
  {
    if TruthyText(sessionUserId) then sessionUserId.value else "default-user"
  }

  /** Inserts the default record under `owner` when no row has the fixed id,
      and does nothing otherwise. */
  function EnsureSingleMotorcycle(db: Db, owner: Option<string>, now: int): (r: Result<Db, DbError>)
    ensures GetSingleMotorcycleId() in db.motorcycles ==> r == Ok(db)
    ensures GetSingleMotorcycleId() !in db.motorcycles ==>
      (r.Ok? <==> owner.Some? && owner.value in db.users)
    ensures r.Ok? ==>
      && r.value.motorcycles.Keys == db.motorcycles.Keys + {GetSingleMotorcycleId()}
      && (forall k :: k in db.motorcycles ==> r.value.motorcycles[k] == db.motorcycles[k])
      && r.value.users == db.users
      && r.value.services == db.services && r.value.events == db.events
      && r.value.modifications == db.modifications
    ensures r.Ok? && GetSingleMotorcycleId() !in db.motorcycles ==>
      r.value.motorcycles[GetSingleMotorcycleId()] == DefaultRow(owner.value, now)
    ensures Valid(db) && r.Ok? ==> Valid(r.value)
  {
    if GetSingleMotorcycleId() in db.motorcycles then Ok(db)
    else
      var n := DefaultInsert(owner);
      assert owner.Some? ==> MotorcycleFits(DefaultRow(owner.value, now));
      InsertMotorcycle(db, n, now)
  }

  /** The copy in the services, events and dashboard routes: no owner. */
  function EnsureAnonymous(db: Db, now: int): (r: Result<Db, DbError>)
    ensures r.Ok? <==> GetSingleMotorcycleId() in db.motorcycles
    ensures r.Ok? ==> r.value == db
    ensures r.Ok? ==> forall session :: EnsureOwned(db, session, now) == r
  {
    EnsureSingleMotorcycle(db, None, now)
  }

  /** The single motorcycle's row as the owned bootstrap leaves it: the
      stored one, or the default record under the session's owner. */
  function Bootstrapped(db: Db, sessionUserId: Option<string>, now: int): (m: Motorcycle)
    ensures m.currentKilometers == Odometer(db)
    ensures GetSingleMotorcycleId() in db.motorcycles ==> m == db.motorcycles[GetSingleMotorcycleId()]
    ensures GetSingleMotorcycleId() !in db.motorcycles ==>
      m.id == GetSingleMotorcycleId() && m.userId == SessionOwner(sessionUserId) && m.createdAt == now
  {
    if GetSingleMotorcycleId() in db.motorcycles then db.motorcycles[GetSingleMotorcycleId()]
    else DefaultRow(SessionOwner(sessionUserId), now)
  }

  /** The copy in the modifications and motorcycle routes: the session's
      user, or "default-user". The services, events and dashboard routes are
      modelled with this copy too (see `AnonymousBootstrapRefused`). */
  function EnsureOwned(db: Db, sessionUserId: Option<string>, now: int): (r: Result<Db, DbError>)
    ensures r.Ok? <==>
      GetSingleMotorcycleId() in db.motorcycles || SessionOwner(sessionUserId) in db.users
    ensures r.Ok? ==>
      && GetSingleMotorcycleId() in r.value.motorcycles
      && r.value.motorcycles[GetSingleMotorcycleId()] == Bootstrapped(db, sessionUserId, now)
      && r.value.motorcycles.Keys == db.motorcycles.Keys + {GetSingleMotorcycleId()}
      && (forall k :: k in db.motorcycles ==> r.value.motorcycles[k] == db.motorcycles[k])
      && r.value.users == db.users
      && r.value.services == db.services && r.value.events == db.events
      && r.value.modifications == db.modifications
      && Odometer(r.value) == Odometer(db)
    ensures r.Ok? && GetSingleMotorcycleId() !in db.motorcycles ==>
      r.value.motorcycles[GetSingleMotorcycleId()].userId == SessionOwner(sessionUserId)
    ensures Valid(db) && r.Ok? ==> Valid(r.value)
  {
    EnsureSingleMotorcycle(db, Some(SessionOwner(sessionUserId)), now)
  }

  /** The anonymous copy cannot create the row at all: on a store whose
      only user is "default-user" and which holds no motorcycle, it fails
      where the owned copy succeeds. */
  lemma AnonymousBootstrapRefused()
    ensures var db := Db({"default-user"}, map[], [], [], []);
      && EnsureAnonymous(db, 0).Err?
      && EnsureOwned(db, None, 0).Ok?
      && GetSingleMotorcycleId() in EnsureOwned(db, None, 0).value.motorcycles
  {
    var db := Db({"default-user"}, map[], [], [], []);
    assert SessionOwner(None) == "default-user";
  }

  /** Running the bootstrap a second time, at any later moment, changes
      nothing: calling it twice is calling it once. */
  lemma EnsureIdempotent(db: Db, owner: Option<string>, now: int, later: int)
    ensures EnsureSingleMotorcycle(db, owner, now).Ok? ==>
      EnsureSingleMotorcycle(EnsureSingleMotorcycle(db, owner, now).value, owner, later)
        == EnsureSingleMotorcycle(db, owner, now)
  {
  }

  /** At most one row ever carries the fixed id, and a successful bootstrap
      leaves exactly one there: the store is keyed by id, and the bootstrap
      adds that key and no other. */
  lemma EnsureAddsAtMostOneRow(db: Db, owner: Option<string>, now: int)
    ensures var r := EnsureSingleMotorcycle(db, owner, now);
      r.Ok? ==> |r.value.motorcycles| <= |db.motorcycles| + 1
  {
    var r := EnsureSingleMotorcycle(db, owner, now);
    if r.Ok? {
      assert r.value.motorcycles.Keys == db.motorcycles.Keys + {GetSingleMotorcycleId()};
      assert |db.motorcycles.Keys + {GetSingleMotorcycleId()}| <= |db.motorcycles.Keys| + 1;
    }
  }
}

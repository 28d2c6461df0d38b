/** src/hooks/use-motorcycle.ts: the client-side state of the motorcycle
    page and how each mutator changes it once the server has answered. The
    request itself is a parameter: the server's answer is either not ok or
    ok with a JSON body. */
module UseMotorcycle {
  import opened Wrappers
  import opened Schema
  import opened Seqs
  import opened SingleMotorcycle
  import opened Bootstrap
  import MotorcycleRoute

  /** The hook's `motorcycle` and `modifications` state. */
  datatype HookState = HookState(motorcycle: Option<Motorcycle>, modifications: seq<Modification>)

  /** What `fetch` resolved to: `!response.ok`, or an ok response whose
      JSON body was read. */
  datatype Response<T> = Rejected | Accepted(body: T)

  /** How a mutator's promise settles: with a value and the new state, or by
      throwing with a message, the state untouched. */
  datatype Settled<T> = Returned(state: HookState, value: T) | Threw(state: HookState, message: string)

  /** `mod.id === id` and its negation, as named predicates. */
  function IdIs(id: string): Modification -> bool
  {
    (m: Modification) => m.id == id
  }

  function IdIsNot(id: string): Modification -> bool
  {
    (m: Modification) => m.id != id
  }

  /** `updateMotorcycle`: the local motorcycle becomes the server's reply. */
  function UpdateMotorcycle(st: HookState, response: Response<Option<Motorcycle>>): (r: Settled<Option<Motorcycle>>)
    ensures response.Rejected? <==> r.Threw?
    ensures r.Threw? ==> r.state == st && r.message == "Failed to update motorcycle"
    ensures r.Returned? ==>
      r.value == response.body && r.state.motorcycle == response.body
      && r.state.modifications == st.modifications
  {
    match response
    case Rejected => Threw(st, "Failed to update motorcycle")
    case Accepted(updated) => Returned(st.(motorcycle := updated), updated)
  }

  /** `addModification`: the created item goes at the end. */
  function AddModification(st: HookState, response: Response<Modification>): (r: Settled<Modification>)
    ensures response.Rejected? <==> r.Threw?
    ensures r.Threw? ==> r.state == st && r.message == "Failed to add modification"
    ensures r.Returned? ==>
      var mods := r.state.modifications;
      && r.value == response.body
      && |mods| == |st.modifications| + 1
      && mods[..|st.modifications|] == st.modifications
      && mods[|st.modifications|] == response.body
      && r.state.motorcycle == st.motorcycle
  {
    match response
    case Rejected => Threw(st, "Failed to add modification")
    case Accepted(created) =>
      var mods := st.modifications + [created];
      assert mods[..|st.modifications|] == st.modifications;
      Returned(st.(modifications := mods), created)
  }

  /** `prev.map(mod => mod.id === id ? updated : mod)`. */
  function Replace(items: seq<Modification>, id: string, updated: Modification): seq<Modification>
  {
    seq(|items|, i requires 0 <= i < |items| => if items[i].id == id then updated else items[i])
  }

  /** `updateModification`: every item with that id is replaced. */
  function UpdateModification(st: HookState, id: string, response: Response<Modification>): (r: Settled<Modification>)
    ensures response.Rejected? <==> r.Threw?
    ensures r.Threw? ==> r.state == st && r.message == "Failed to update modification"
    ensures r.Returned? ==>
      && r.value == response.body
      && r.state.modifications == Replace(st.modifications, id, response.body)
      && r.state.motorcycle == st.motorcycle
  {
    match response
    case Rejected => Threw(st, "Failed to update modification")
    case Accepted(updated) =>
      Returned(st.(modifications := Replace(st.modifications, id, updated)), updated)
  }

  /** `prev.filter(mod => mod.id !== id)`. */
  function Remove(items: seq<Modification>, id: string): (r: seq<Modification>)
    ensures forall m :: m in r ==> m.id != id
    ensures forall m :: m in items && m.id != id ==> m in r
    ensures multiset(r) <= multiset(items)
    ensures |r| == |items| - Count(items, IdIs(id))
  {
    RemoveCount(items, id);
    Filter(items, IdIsNot(id))
  }

  /** Every item is counted either among those with the id or those
      without it. */
  lemma {:induction false} RemoveCount(items: seq<Modification>, id: string)
    ensures |Filter(items, IdIsNot(id))| + Count(items, IdIs(id)) == |items|
    decreases |items|
  {
    if |items| > 0 {
      var init := items[..|items| - 1];
      var last := items[|items| - 1];
      assert items == init + [last];
      RemoveCount(init, id);
      FilterAppend(init, last, IdIsNot(id));
      CountAppend(init, last, IdIs(id));
    }
  }

  /** `deleteModification`. */
  function DeleteModification(st: HookState, id: string, response: Response<()>): (r: Settled<()>)
    ensures response.Rejected? <==> r.Threw?
    ensures r.Threw? ==> r.state == st && r.message == "Failed to delete modification"
    ensures r.Returned? ==>
      r.state.modifications == Remove(st.modifications, id) && r.state.motorcycle == st.motorcycle
  {
    match response
    case Rejected => Threw(st, "Failed to delete modification")
    case Accepted(_) => Returned(st.(modifications := Remove(st.modifications, id)), ())
  }

  /** Replacing by id keeps the other items, in their order: once the
      items with that id are removed, the list is the same as before. */
  lemma {:induction false} ReplaceKeepsOthers(items: seq<Modification>, id: string, updated: Modification)
    requires updated.id == id
    ensures Remove(Replace(items, id, updated), id) == Remove(items, id)
    decreases |items|
  {
    if |items| > 0 {
      var init := items[..|items| - 1];
      var last := items[|items| - 1];
      assert items == init + [last];
      var replaced := Replace(items, id, updated);
      assert replaced == Replace(init, id, updated) + [replaced[|items| - 1]];
      ReplaceKeepsOthers(init, id, updated);
      FilterAppend(init, last, IdIsNot(id));
      FilterAppend(Replace(init, id, updated), replaced[|items| - 1], IdIsNot(id));
    }
  }

  /** Removing an item just added by id is the same as removing by id from
      the list before the addition. */
  lemma RemoveUndoesAdd(items: seq<Modification>, created: Modification)
    ensures Remove(items + [created], created.id) == Remove(items, created.id)
  {
    FilterAppend(items, created, IdIsNot(created.id));
  }

  /** Removing twice is removing once. */
  lemma {:induction false} RemoveIdempotent(items: seq<Modification>, id: string)
    ensures Remove(Remove(items, id), id) == Remove(items, id)
  {
    FilterAll(Remove(items, id), IdIsNot(id));
  }

  /** Removing keeps the order of what stays: removing from two lists put
      together is removing from each and putting the results together. */
  lemma {:induction false} RemoveKeepsOrder(a: seq<Modification>, b: seq<Modification>, id: string)
    ensures Remove(a + b, id) == Remove(a, id) + Remove(b, id)
    decreases |b|
  {
    var p := IdIsNot(id);
    if |b| == 0 {
      assert a + b == a;
    } else {
      var init := b[..|b| - 1];
      var last := b[|b| - 1];
      assert b == init + [last];
      assert a + b == (a + init) + [last];
      var tail := if p(last) then [last] else [];
      calc {
        Filter(a + b, p);
        { FilterAppend(a + init, last, p); }
        Filter(a + init, p) + tail;
        { RemoveKeepsOrder(a, init, id); }
        Filter(a, p) + Filter(init, p) + tail;
        { FilterAppend(init, last, p); }
        Filter(a, p) + Filter(b, p);
      }
    }
  }

  /** After an accepted `PUT /api/motorcycle`, the hook holds the row the
      store now holds: the plate and the reading sent, or the previous ones
      where the body left them out. */
  lemma HookFollowsPut(st: HookState, db: Db, sessionUserId: Option<string>, body: MotorcycleRoute.MotorcycleBody, now: int)
    requires MotorcycleRoute.Put(db, sessionUserId, body, now).reply.Json?
    ensures var put := MotorcycleRoute.Put(db, sessionUserId, body, now);
      var r := UpdateMotorcycle(st, Accepted(put.reply.value));
      var before := Bootstrapped(db, sessionUserId, now);
      && r.Returned?
      && GetSingleMotorcycleId() in put.db.motorcycles
      && r.state.motorcycle == Some(put.db.motorcycles[GetSingleMotorcycleId()])
      && r.state.motorcycle.value.licensePlate ==
           (if body.licensePlate.Some? then OptionalTruncate(body.licensePlate.value, 20) else before.licensePlate)
      && r.state.motorcycle.value.currentKilometers ==
           (if body.currentKilometers.Some? then body.currentKilometers.value else before.currentKilometers)
      && r.state.modifications == st.modifications
  {
  }
}

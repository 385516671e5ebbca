/** What the listing routes guarantee across calls: the store invariant, the
    effect of repeated views, who may write, and what a caller sees after a
    create. */
module PropertyRouteFacts {
  import opened Optional
  import opened Seqs
  import opened Schema
  import opened Users
  import opened MemoryDB
  import opened MemoryDBFacts
  import opened Http
  import opened ListingQuery
  import opened PropertyRoutes

  /** A counted view keeps ids unique and below the counter. */
  lemma ViewKeepsValid(st: Store, id: nat, now: int)
    requires Valid(st)
    ensures Valid(ViewListing(st, id, now).store)
  {
    var r := ViewListing(st, id, now);
    match FirstIndex(st.properties, ListingWithId(id))
    case None =>
    case Some(i) =>
      assert forall j :: 0 <= j < |st.properties| ==> r.store.properties[j].id == st.properties[j].id;
  }

  /** So does a create, which takes the next id. */
  lemma CreateKeepsValid(st: Store, userId: nat, body: ListingPatch, now: int)
    requires Valid(st)
    ensures Valid(CreateListing(st, userId, body, now).store)
  {
  }

  lemma UpdateKeepsValid(st: Store, userId: nat, id: nat, body: ListingPatch, nulls: set<Key>, now: int)
    requires Valid(st)
    ensures Valid(UpdateListing(st, userId, id, body, nulls, now).store)
  {
    var r := UpdateListing(st, userId, id, body, nulls, now);
    match FirstIndex(st.properties, ListingWithId(id))
    case None =>
    case Some(i) =>
      if st.properties[i].fields.broker == Some(userId) {
        assert forall j :: 0 <= j < |st.properties| ==> r.store.properties[j].id == st.properties[j].id;
      }
  }

  lemma DeleteKeepsValid(st: Store, userId: nat, id: nat)
    requires Valid(st)
    ensures Valid(DeleteListing(st, userId, id).store)
  {
    DeletePropertyKeepsValid(st, id);
  }

  /** Only the owner of an existing listing gets a write through; every other
      outcome of an update or a delete leaves the store as it was. */
  lemma OnlyOwnerWrites(st: Store, userId: nat, id: nat, body: ListingPatch, nulls: set<Key>, now: int)
    ensures var r := UpdateListing(st, userId, id, body, nulls, now);
            (r.response.status != OK ==> r.store == st) &&
            (r.response.status == OK ==> FindPropertyById(st, id).Some? && FindPropertyById(st, id).value.fields.broker == Some(userId))
    ensures var r := DeleteListing(st, userId, id);
            (r.response.status != OK ==> r.store == st) &&
            (r.response.status == OK ==> FindPropertyById(st, id).Some? && FindPropertyById(st, id).value.fields.broker == Some(userId))
  {
  }

  /** Two views of a listing raise its count by exactly two; the second save
      leaves its own time in `updatedAt`. */
  lemma ViewTwice(st: Store, i: nat, now1: int, now2: int)
    requires Valid(st) && i < |st.properties| && SchemaValid(st.properties[i])
    ensures var l := st.properties[i];
            var st1 := ViewListing(st, l.id, now1).store;
            var r := ViewListing(st1, l.id, now2);
            && r.response.status == OK
            && FindPropertyById(r.store, l.id) == Some(l.(views := l.views + 2, updatedAt := now2))
  {
    var l := st.properties[i];
    ViewOnce(st, i, now1);
    var st1 := ViewListing(st, l.id, now1).store;
    ViewOnce(st1, i, now2);
    var st2 := ViewListing(st1, l.id, now2).store;
    FindUnique(st2, i);
  }

  /** One view of a valid stored listing succeeds and leaves it, still
      valid, at its place with one more view and the new time. */
  lemma ViewOnce(st: Store, i: nat, now: int)
    requires Valid(st) && i < |st.properties| && SchemaValid(st.properties[i])
    ensures var l := st.properties[i];
            var r := ViewListing(st, l.id, now);
            && r.response.status == OK
            && Valid(r.store) && |r.store.properties| == |st.properties|
            && r.store.properties[i] == l.(views := l.views + 1, updatedAt := now)
            && SchemaValid(r.store.properties[i])
  {
    FindUnique(st, i);
    ViewKeepsValid(st, st.properties[i].id, now);
  }

  /** The update spreads the body unfiltered, so the owner can hand the
      listing to another user, after which the former owner is refused. */
  lemma UpdateCanReassignOwner(st: Store, i: nat, owner: nat, other: nat, now1: int, now2: int)
    requires Valid(st) && i < |st.properties|
    requires st.properties[i].fields.broker == Some(owner) && other != owner
    ensures var l := st.properties[i];
            var body := EmptyPatch.(fields := NoFields.(broker := Some(other)));
            var r1 := UpdateListing(st, owner, l.id, body, {}, now1);
            && r1.response.status == OK
            && FindPropertyById(r1.store, l.id).value.fields.broker == Some(other)
            && UpdateListing(r1.store, owner, l.id, EmptyPatch, {}, now2) == Reply(r1.store, FORBIDDEN, Message(NoEditRightMessage))
  {
    var l := st.properties[i];
    var body := EmptyPatch.(fields := NoFields.(broker := Some(other)));
    FindUnique(st, i);
    var r1 := UpdateListing(st, owner, l.id, body, {}, now1);
    UpdateKeepsValid(st, owner, l.id, body, {}, now1);
    assert r1.store.properties[i].id == l.id;
    FindUnique(r1.store, i);
  }

  /** An owner who sends `"broker": null` locks the listing: every later
      update or delete of it, by anyone, fails with a server error, because
      the ownership check reads the missing broker. */
  lemma NullBrokerLocksListing(st: Store, i: nat, owner: nat, caller: nat, body: ListingPatch,
                               nulls: set<Key>, now1: int, now2: int)
    requires Valid(st) && i < |st.properties|
    requires st.properties[i].fields.broker == Some(owner)
    ensures var l := st.properties[i];
            var r1 := UpdateListing(st, owner, l.id, EmptyPatch, {BrokerKey}, now1);
            && r1.response.status == OK
            && FindPropertyById(r1.store, l.id).value.fields.broker.None?
            && UpdateListing(r1.store, caller, l.id, body, nulls, now2) == Reply(r1.store, SERVER_ERROR, Message(ServerErrorMessage))
            && DeleteListing(r1.store, caller, l.id) == Reply(r1.store, SERVER_ERROR, Message(ServerErrorMessage))
  {
    var l := st.properties[i];
    FindUnique(st, i);
    var r1 := UpdateListing(st, owner, l.id, EmptyPatch, {BrokerKey}, now1);
    UpdateKeepsValid(st, owner, l.id, EmptyPatch, {BrokerKey}, now1);
    assert r1.store.properties[i].id == l.id;
    FindUnique(r1.store, i);
  }

  /** An owner who sends `"status": null` takes the listing out of every
      search: the stored listing is no longer on sale. */
  lemma NullStatusHides(st: Store, i: nat, owner: nat, body: ListingPatch, nulls: set<Key>, now: int, q: Query)
    requires Valid(st) && i < |st.properties|
    requires st.properties[i].fields.broker == Some(owner) && StatusKey in nulls
    ensures var l := st.properties[i];
            var r := UpdateListing(st, owner, l.id, body, nulls, now);
            && r.response.status == OK
            && !IsActive(r.response.body.listing)
            && r.response.body.listing !in FindMatching(r.store.properties, q)
  {
    FindUnique(st, i);
  }

  /** A listing just created is the one its id finds, and it is among the
      caller's listings. */
  lemma CreatedListingIsFound(st: Store, userId: nat, body: ListingPatch, now: int)
    requires Valid(st)
    ensures var r := CreateListing(st, userId, body, now);
            r.response.status == CREATED ==>
              && FindPropertyById(r.store, r.response.body.listing.id) == Some(r.response.body.listing)
              && r.response.body.listing in MyListings(r.store, userId).response.body.listings
  {
    var r := CreateListing(st, userId, body, now);
    if r.response.status == CREATED {
      CreateKeepsValid(st, userId, body, now);
      FindUnique(r.store, |st.properties|);
      assert r.store.properties[|st.properties|] == r.response.body.listing;
    }
  }

  /** Validation comes before the role check: a caller who is not a broker
      and sends an invalid body is told about the body, not the role. */
  lemma InvalidBodyBeforeRole(st: Store, userId: nat, body: ListingPatch, now: int)
    requires !BodyValid(body) && !CallerIsBroker(st, userId)
    ensures CreateListing(st, userId, body, now).response.status == BAD_REQUEST
  {
  }

  /** A broker whose valid body names another broker still creates a listing
      of their own. */
  lemma CreatorOwns(st: Store, userId: nat, body: ListingPatch, now: int)
    requires BodyValid(body) && CallerIsBroker(st, userId) && body.fields.status.None?
    ensures var r := CreateListing(st, userId, body, now);
            r.response.status == CREATED && r.response.body.listing.fields.broker == Some(userId)
            && IsActive(r.response.body.listing)
  {
  }
}

/** Properties of the in-memory store that relate several of its methods:
    the id invariant each mutator keeps, what a lookup sees after a write,
    and what the listing filter ignores. */
module MemoryDBFacts {
  import opened Optional
  import opened Seqs
  import opened Schema
  import opened Users
  import opened MemoryDB

  lemma InitialValid()
    ensures Valid(Initial)
  {
  }

  /** A user object without its own `_id` gets the counter's id, which keeps
      ids unique. */
  lemma CreateUserKeepsValid(st: Store, data: UserPatch, now: int)
    requires Valid(st) && data.id.None?
    ensures Valid(CreateUser(st, data, now).store)
  {
  }

  /** An `_id` in the user object is spread over the counter's id, so it can
      duplicate an existing one. */
  lemma CreateUserIdCanCollide()
    ensures var st := CreateUser(Initial, UserPatch(None, None, NoProfile), 0).store;
            Valid(st) && !Valid(CreateUser(st, UserPatch(Some(1), None, NoProfile), 0).store)
  {
    var st := CreateUser(Initial, UserPatch(None, None, NoProfile), 0).store;
    var st2 := CreateUser(st, UserPatch(Some(1), None, NoProfile), 0).store;
    assert st2.users[0].id == st2.users[1].id;
  }

  lemma UpdateUserKeepsValid(st: Store, id: nat, patch: UserPatch)
    requires Valid(st) && patch.id.None?
    ensures Valid(UpdateUser(st, id, patch).store)
  {
    var r := UpdateUser(st, id, patch);
    match FirstIndex(st.users, UserWithId(id))
    case None =>
    case Some(i) =>
      assert forall j :: 0 <= j < |st.users| ==> r.store.users[j].id == st.users[j].id;
  }

  lemma CreatePropertyKeepsValid(st: Store, data: ListingPatch, now: int)
    requires Valid(st) && data.id.None?
    ensures Valid(CreateProperty(st, data, now).store)
  {
  }

  lemma UpdatePropertyKeepsValid(st: Store, id: nat, patch: ListingPatch, now: int)
    requires Valid(st) && patch.id.None?
    ensures Valid(UpdateProperty(st, id, patch, now).store)
  {
    var r := UpdateProperty(st, id, patch, now);
    match FirstIndex(st.properties, ListingWithId(id))
    case None =>
    case Some(i) =>
      assert forall j :: 0 <= j < |st.properties| ==> r.store.properties[j].id == st.properties[j].id;
  }

  lemma DeletePropertyKeepsValid(st: Store, id: nat)
    requires Valid(st)
    ensures Valid(DeleteProperty(st, id).store)
  {
    var r := DeleteProperty(st, id);
    match FirstIndex(st.properties, ListingWithId(id))
    case None =>
    case Some(i) =>
      var s := st.properties;
      var t := r.store.properties;
      forall a, b | 0 <= a < b < |t|
        ensures t[a].id != t[b].id
      {
        var a' := if a < i then a else a + 1;
        var b' := if b < i then b else b + 1;
        assert t[a] == s[a'] && t[b] == s[b'] && a' < b';
      }
  }

  lemma IncrementKeepsValid(st: Store, id: nat)
    requires Valid(st)
    ensures Valid(IncrementPropertyViews(st, id).store)
  {
    var r := IncrementPropertyViews(st, id);
    match FirstIndex(st.properties, ListingWithId(id))
    case None =>
    case Some(i) =>
      assert forall j :: 0 <= j < |st.properties| ==> r.store.properties[j].id == st.properties[j].id;
  }

  /** With unique ids, the listing holding an id is the one lookups find. */
  lemma FindUnique(st: Store, i: nat)
    requires Valid(st) && i < |st.properties|
    ensures FindPropertyById(st, st.properties[i].id) == Some(st.properties[i])
    ensures FirstIndex(st.properties, ListingWithId(st.properties[i].id)) == Some(i)
  {
    var k := FirstIndex(st.properties, ListingWithId(st.properties[i].id));
    assert ListingWithId(st.properties[i].id)(st.properties[i]);
    assert k.Some?;
  }

  /** A created listing is found under its new id. */
  lemma CreateThenFind(st: Store, data: ListingPatch, now: int)
    requires Valid(st) && data.id.None?
    ensures var r := CreateProperty(st, data, now);
            FindPropertyById(r.store, r.result.id) == Some(r.result)
  {
    var r := CreateProperty(st, data, now);
    CreatePropertyKeepsValid(st, data, now);
    FindUnique(r.store, |st.properties|);
  }

  /** After a delete, the id is gone. */
  lemma DeleteThenFind(st: Store, id: nat)
    requires Valid(st)
    ensures FindPropertyById(DeleteProperty(st, id).store, id).None?
  {
    var r := DeleteProperty(st, id);
    match FirstIndex(st.properties, ListingWithId(id))
    case None =>
    case Some(i) =>
      var t := r.store.properties;
      forall j | 0 <= j < |t|
        ensures t[j].id != id
      {
        var j' := if j < i then j else j + 1;
        assert t[j] == st.properties[j'] && j' != i;
      }
  }

  /** Two view increments of a listing raise its count by exactly two and
      leave everything else of it as it was. */
  lemma IncrementTwice(st: Store, i: nat)
    requires Valid(st) && i < |st.properties|
    ensures var id := st.properties[i].id;
            var st2 := IncrementPropertyViews(IncrementPropertyViews(st, id).store, id).store;
            FindPropertyById(st2, id) == Some(st.properties[i].(views := st.properties[i].views + 2))
  {
    var l := st.properties[i];
    var id := l.id;
    FindUnique(st, i);
    var st1 := IncrementPropertyViews(st, id).store;
    IncrementKeepsValid(st, id);
    assert st1.properties[i] == l.(views := l.views + 1);
    FindUnique(st1, i);
    var st2 := IncrementPropertyViews(st1, id).store;
    IncrementKeepsValid(st1, id);
    assert st2.properties[i] == l.(views := l.views + 2);
    FindUnique(st2, i);
  }

  /** An update is seen by the next lookup, with the fields the patch lacks
      left as they were. */
  lemma UpdateThenFind(st: Store, i: nat, patch: ListingPatch, now: int)
    requires Valid(st) && i < |st.properties| && patch.id.None?
    ensures var id := st.properties[i].id;
            FindPropertyById(UpdateProperty(st, id, patch, now).store, id)
              == Some(Merge(st.properties[i], patch.(updatedAt := Some(now))))
  {
    var id := st.properties[i].id;
    FindUnique(st, i);
    UpdatePropertyKeepsValid(st, id, patch, now);
    FindUnique(UpdateProperty(st, id, patch, now).store, i);
  }

  /** A user registered under a new email is what the email lookup finds. */
  lemma CreateUserThenFindByEmail(st: Store, data: UserPatch, now: int, email: string)
    requires FindUserByEmail(st, email).None?
    requires data.profile.email == Some(email)
    ensures var r := CreateUser(st, data, now);
            FindUserByEmail(r.store, email) == Some(r.result)
  {
    var r := CreateUser(st, data, now);
    var u := r.store.users;
    assert u[|st.users|] == r.result;
    var k := FirstIndex(u, UserWithEmail(email));
    assert UserWithEmail(email)(u[|st.users|]);
    assert k.Some?;
  }

  /** With no truthy field the filter selects exactly the on-sale listings. */
  lemma FalsyFilterSelectsActive(st: Store, f: MemFilter)
    requires !TruthyText(f.propertyType) && !TruthyText(f.dealType)
    requires !TruthyText(f.city) && !TruthyText(f.district)
    requires !TruthyNumber(f.minPrice) && !TruthyNumber(f.maxPrice) && !TruthyNumber(f.rooms)
    ensures FindProperties(st, f) == Filter(st.properties, IsActive)
  {
    FilterAgree(st.properties, SelectedBy(f), IsActive);
  }

  /** In particular the default empty filter returns the on-sale listings. */
  lemma EmptyFilterSelectsActive(st: Store)
    ensures FindProperties(st, NoFilter) == Filter(st.properties, IsActive)
  {
    FalsyFilterSelectsActive(st, NoFilter);
  }

  /** `createProperty` applies no default status, so a listing created
      without one changes no search result. */
  lemma CreatedWithoutStatusIsHidden(st: Store, data: ListingPatch, now: int, f: MemFilter)
    requires data.fields.status.None?
    ensures FindProperties(CreateProperty(st, data, now).store, f) == FindProperties(st, f)
  {
    var r := CreateProperty(st, data, now);
    FilterAppend(st.properties, [r.result], SelectedBy(f));
    assert Filter([r.result], SelectedBy(f)) == [];
    assert Filter(st.properties, SelectedBy(f)) + [] == Filter(st.properties, SelectedBy(f));
  }

  /** The broker's listings, any status, as an order-preserving subsequence. */
  lemma ByBrokerInOrder(st: Store, brokerId: nat)
    ensures Subsequence(FindPropertiesByBroker(st, brokerId), st.properties)
    ensures forall l :: l in FindPropertiesByBroker(st, brokerId) <==> l in st.properties && l.fields.broker == Some(brokerId)
  {
    FilterIsSubsequence(st.properties, OwnedBy(brokerId));
  }
}

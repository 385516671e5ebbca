/** The in-memory database of `models/MemoryDB.js`: two arrays and two id
    counters, with every method a pure transformation of the store. */
module MemoryDB {
  import opened Optional
  import opened Seqs
  import opened Schema
  import opened Users

  datatype Store = Store(users: seq<User>, properties: seq<Listing>, nextUserId: nat, nextPropertyId: nat)

  /** A store after an operation, with the operation's return value. */
  datatype Op<T> = Op(store: Store, result: T)

  /** The constructor: empty arrays, both counters at 1. */
  const Initial: Store := Store([], [], 1, 1)

  /** The invariant the constructor establishes: ids are positive, below
      their counter and pairwise distinct, in both arrays. */
  predicate Valid(st: Store) {
    && st.nextUserId > 0 && st.nextPropertyId > 0
    && (forall i :: 0 <= i < |st.users| ==> 0 < st.users[i].id < st.nextUserId)
    && (forall i, j :: 0 <= i < j < |st.users| ==> st.users[i].id != st.users[j].id)
    && (forall i :: 0 <= i < |st.properties| ==> 0 < st.properties[i].id < st.nextPropertyId)
    && (forall i, j :: 0 <= i < j < |st.properties| ==> st.properties[i].id != st.properties[j].id)
  }

  function UserWithId(id: nat): User -> bool {
    (u: User) => u.id == id
  }

  function UserWithEmail(email: string): User -> bool {
    (u: User) => u.profile.email == Some(email)
  }

  function ListingWithId(id: nat): Listing -> bool {
    (l: Listing) => l.id == id
  }

  function OwnedBy(brokerId: nat): Listing -> bool {
    (l: Listing) => l.fields.broker == Some(brokerId)
  }

  // ---------------------------------------------------------------- users

  /** `{ _id: nextUserId++, ...userData, createdAt: new Date() }`, pushed.
      The counter id is written before the spread, so an `_id` in the data
      wins; the creation time is written after it, so it is always fresh. */
  function CreateUser(st: Store, data: UserPatch, now: int): (r: Op<User>)
    ensures r.store.users == st.users + [r.result]
    ensures r.store.nextUserId == st.nextUserId + 1
    ensures r.store.properties == st.properties && r.store.nextPropertyId == st.nextPropertyId
    ensures r.result.id == (if data.id.Some? then data.id.value else st.nextUserId)
    ensures r.result.createdAt == now && r.result.profile == data.profile
  {
    var user := MergeUser(User(st.nextUserId, now, NoProfile), data).(createdAt := now);
    Op(st.(users := st.users + [user], nextUserId := st.nextUserId + 1), user)
  }

  function FindUserByEmail(st: Store, email: string): (r: Option<User>)
    ensures r.Some? ==> r.value in st.users && r.value.profile.email == Some(email)
    ensures r.Some? ==> exists i :: 0 <= i < |st.users| && st.users[i] == r.value &&
                          forall j :: 0 <= j < i ==> st.users[j].profile.email != Some(email)
    ensures r.None? <==> forall i :: 0 <= i < |st.users| ==> st.users[i].profile.email != Some(email)
  {
    First(st.users, UserWithEmail(email))
  }

  function FindUserById(st: Store, id: nat): (r: Option<User>)
    ensures r.Some? ==> r.value in st.users && r.value.id == id
    ensures r.Some? ==> exists i :: 0 <= i < |st.users| && st.users[i] == r.value &&
                          forall j :: 0 <= j < i ==> st.users[j].id != id
    ensures r.None? <==> forall i :: 0 <= i < |st.users| ==> st.users[i].id != id
  {
    First(st.users, UserWithId(id))
  }

  /** `users[i] = { ...users[i], ...updateData }` at the first user with the
      id; `null` and no change when there is none. */
  function UpdateUser(st: Store, id: nat, patch: UserPatch): (r: Op<Option<User>>)
    ensures match FirstIndex(st.users, UserWithId(id))
      case None => r == Op(st, None)
      case Some(i) =>
        && r.result == Some(MergeUser(st.users[i], patch))
        && ReplacedAt(st.users, r.store.users, i, r.result.value)
        && r.store.(users := st.users) == st
  {
    match FirstIndex(st.users, UserWithId(id))
    case None => Op(st, None)
    case Some(i) =>
      var user := MergeUser(st.users[i], patch);
      Op(st.(users := st.users[i := user]), Some(user))
  }

  // ----------------------------------------------------------- properties

  /** `{ _id: nextPropertyId++, ...propertyData, views: 0, createdAt, updatedAt }`,
      pushed.  No default status is applied. */
  function CreateProperty(st: Store, data: ListingPatch, now: int): (r: Op<Listing>)
    ensures r.store.properties == st.properties + [r.result]
    ensures r.store.nextPropertyId == st.nextPropertyId + 1
    ensures r.store.users == st.users && r.store.nextUserId == st.nextUserId
    ensures r.result.views == 0 && r.result.createdAt == now && r.result.updatedAt == now
    ensures r.result.id == (if data.id.Some? then data.id.value else st.nextPropertyId)
    ensures r.result.fields == data.fields
  {
    var base := Listing(st.nextPropertyId, 0, now, now, NoFields);
    var listing := Merge(base, data).(views := 0, createdAt := now, updatedAt := now);
    Op(st.(properties := st.properties + [listing], nextPropertyId := st.nextPropertyId + 1), listing)
  }

  /** The filter object `findProperties` reads.  Its string fields count when
      non-empty and its number fields when non-zero (JavaScript truthiness). */
  datatype MemFilter = MemFilter(propertyType: Option<string>, dealType: Option<string>,
                                 city: Option<string>, district: Option<string>,
                                 minPrice: Option<int>, maxPrice: Option<int>, rooms: Option<int>)

  /** The default `filter = {}`. */
  const NoFilter: MemFilter := MemFilter(None, None, None, None, None, None, None)

  function CityOf(l: Listing): Option<string> {
    if l.fields.address.Some? then l.fields.address.value.city else None
  }

  function DistrictOf(l: Listing): Option<string> {
    if l.fields.address.Some? then l.fields.address.value.district else None
  }

  function TypeIs(t: Option<string>): Listing -> bool {
    (l: Listing) => l.fields.propertyType == t
  }

  function DealIs(t: Option<string>): Listing -> bool {
    (l: Listing) => l.fields.dealType == t
  }

  function CityIs(c: Option<string>): Listing -> bool {
    (l: Listing) => CityOf(l) == c
  }

  function DistrictIs(d: Option<string>): Listing -> bool {
    (l: Listing) => DistrictOf(l) == d
  }

  function PriceAtLeast(b: Option<int>): Listing -> bool {
    (l: Listing) => AtLeast(l.fields.price, b)
  }

  function PriceAtMost(b: Option<int>): Listing -> bool {
    (l: Listing) => AtMost(l.fields.price, b)
  }

  function RoomsAre(n: Option<int>): Listing -> bool {
    (l: Listing) => l.fields.rooms == n
  }

  /** What `findProperties` asks of a listing beyond being on sale: every
      truthy filter field constrains it, the others do not. */
  predicate MemMatches(f: MemFilter, l: Listing) {
    && (TruthyText(f.propertyType) ==> l.fields.propertyType == f.propertyType)
    && (TruthyText(f.dealType) ==> l.fields.dealType == f.dealType)
    && (TruthyText(f.city) ==> CityOf(l) == f.city)
    && (TruthyText(f.district) ==> DistrictOf(l) == f.district)
    && (TruthyNumber(f.minPrice) ==> AtLeast(l.fields.price, f.minPrice))
    && (TruthyNumber(f.maxPrice) ==> AtMost(l.fields.price, f.maxPrice))
    && (TruthyNumber(f.rooms) ==> l.fields.rooms == f.rooms)
  }

  /** The selection `findProperties` makes, as one predicate. */
  function SelectedBy(f: MemFilter): Listing -> bool {
    l => IsActive(l) && MemMatches(f, l)
  }

  /** `findProperties`: the on-sale listings, in stored order, that satisfy
      every truthy filter field. */
  function FindProperties(st: Store, f: MemFilter): (r: seq<Listing>)
    ensures r == Filter(st.properties, SelectedBy(f))
    ensures Subsequence(r, st.properties)
    ensures forall l :: l in r <==> l in st.properties && IsActive(l) && MemMatches(f, l)
  {
    ChainSelects(st, f);
    FilterIsSubsequence(st.properties, SelectedBy(f));
    FilterMembers(st.properties, SelectedBy(f));
    FilterChain(st, f)
  }

  /** The chain of `filter` calls of `findProperties`: on-sale records, then
      one narrowing step per truthy filter field, in the source's order. */
  function FilterChain(st: Store, f: MemFilter): seq<Listing> {
    var s0 := Filter(st.properties, IsActive);
    var s1 := Narrow(s0, TruthyText(f.propertyType), TypeIs(f.propertyType));
    var s2 := Narrow(s1, TruthyText(f.dealType), DealIs(f.dealType));
    var s3 := Narrow(s2, TruthyText(f.city), CityIs(f.city));
    var s4 := Narrow(s3, TruthyText(f.district), DistrictIs(f.district));
    var s5 := Narrow(s4, TruthyNumber(f.minPrice), PriceAtLeast(f.minPrice));
    var s6 := Narrow(s5, TruthyNumber(f.maxPrice), PriceAtMost(f.maxPrice));
    Narrow(s6, TruthyNumber(f.rooms), RoomsAre(f.rooms))
  }

  /** The selection the filter chain builds, one guarded conjunct per step. */
  function ChainPredicate(f: MemFilter): Listing -> bool {
    var p0: Listing -> bool := IsActive;
    var p1 := AndIf(p0, TruthyText(f.propertyType), TypeIs(f.propertyType));
    var p2 := AndIf(p1, TruthyText(f.dealType), DealIs(f.dealType));
    var p3 := AndIf(p2, TruthyText(f.city), CityIs(f.city));
    var p4 := AndIf(p3, TruthyText(f.district), DistrictIs(f.district));
    var p5 := AndIf(p4, TruthyNumber(f.minPrice), PriceAtLeast(f.minPrice));
    var p6 := AndIf(p5, TruthyNumber(f.maxPrice), PriceAtMost(f.maxPrice));
    AndIf(p6, TruthyNumber(f.rooms), RoomsAre(f.rooms))
  }

  /** The filter chain is a single filter by the accumulated predicate. */
  lemma ChainIsOneFilter(st: Store, f: MemFilter)
    ensures FilterChain(st, f) == Filter(st.properties, ChainPredicate(f))
  {
    var s := st.properties;
    var p0: Listing -> bool := IsActive;
    var p1 := AndIf(p0, TruthyText(f.propertyType), TypeIs(f.propertyType));
    var p2 := AndIf(p1, TruthyText(f.dealType), DealIs(f.dealType));
    var p3 := AndIf(p2, TruthyText(f.city), CityIs(f.city));
    var p4 := AndIf(p3, TruthyText(f.district), DistrictIs(f.district));
    var p5 := AndIf(p4, TruthyNumber(f.minPrice), PriceAtLeast(f.minPrice));
    var p6 := AndIf(p5, TruthyNumber(f.maxPrice), PriceAtMost(f.maxPrice));
    NarrowFilter(s, p0, TruthyText(f.propertyType), TypeIs(f.propertyType));
    NarrowFilter(s, p1, TruthyText(f.dealType), DealIs(f.dealType));
    NarrowFilter(s, p2, TruthyText(f.city), CityIs(f.city));
    NarrowFilter(s, p3, TruthyText(f.district), DistrictIs(f.district));
    NarrowFilter(s, p4, TruthyNumber(f.minPrice), PriceAtLeast(f.minPrice));
    NarrowFilter(s, p5, TruthyNumber(f.maxPrice), PriceAtMost(f.maxPrice));
    NarrowFilter(s, p6, TruthyNumber(f.rooms), RoomsAre(f.rooms));
  }

  /** The accumulated predicate is "on sale and matching", at every listing. */
  lemma ChainPoint(f: MemFilter, x: Listing)
    ensures ChainPredicate(f)(x) == SelectedBy(f)(x)
  {
  }

  /** The chain returns, in stored order, exactly the on-sale listings that
      satisfy every truthy filter field. */
  lemma ChainSelects(st: Store, f: MemFilter)
    ensures FilterChain(st, f) == Filter(st.properties, SelectedBy(f))
  {
    ChainIsOneFilter(st, f);
    forall x | x in st.properties
      ensures ChainPredicate(f)(x) == SelectedBy(f)(x)
    {
      ChainPoint(f, x);
    }
    FilterAgree(st.properties, ChainPredicate(f), SelectedBy(f));
  }

  function FindPropertyById(st: Store, id: nat): (r: Option<Listing>)
    ensures r.Some? ==> r.value in st.properties && r.value.id == id
    ensures r.Some? ==> exists i :: 0 <= i < |st.properties| && st.properties[i] == r.value &&
                          forall j :: 0 <= j < i ==> st.properties[j].id != id
    ensures r.None? <==> forall i :: 0 <= i < |st.properties| ==> st.properties[i].id != id
  {
    First(st.properties, ListingWithId(id))
  }

  /** `{ ...properties[i], ...updateData, updatedAt: new Date() }` at the
      first listing with the id; `null` and no change when there is none. */
  function UpdateProperty(st: Store, id: nat, patch: ListingPatch, now: int): (r: Op<Option<Listing>>)
    ensures match FirstIndex(st.properties, ListingWithId(id))
      case None => r == Op(st, None)
      case Some(i) =>
        && r.result == Some(Merge(st.properties[i], patch.(updatedAt := Some(now))))
        && ReplacedAt(st.properties, r.store.properties, i, r.result.value)
        && r.store.(properties := st.properties) == st
  {
    match FirstIndex(st.properties, ListingWithId(id))
    case None => Op(st, None)
    case Some(i) =>
      var listing := Merge(st.properties[i], patch).(updatedAt := now);
      Op(st.(properties := st.properties[i := listing]), Some(listing))
  }

  /** `splice` of the first listing with the id, which is returned; `null`
      and no change when there is none. */
  function DeleteProperty(st: Store, id: nat): (r: Op<Option<Listing>>)
    ensures match FirstIndex(st.properties, ListingWithId(id))
      case None => r == Op(st, None)
      case Some(i) =>
        && r.result == Some(st.properties[i])
        && |r.store.properties| == |st.properties| - 1
        && r.store.properties == RemoveAt(st.properties, i)
        && r.store.(properties := st.properties) == st
  {
    match FirstIndex(st.properties, ListingWithId(id))
    case None => Op(st, None)
    case Some(i) => Op(st.(properties := RemoveAt(st.properties, i)), Some(st.properties[i]))
  }

  function FindPropertiesByBroker(st: Store, brokerId: nat): (r: seq<Listing>)
    ensures forall i :: 0 <= i < |r| ==> r[i] in st.properties && r[i].fields.broker == Some(brokerId)
    ensures forall i :: 0 <= i < |st.properties| && st.properties[i].fields.broker == Some(brokerId) ==>
              st.properties[i] in r
  {
    Filter(st.properties, OwnedBy(brokerId))
  }

  /** `property.views += 1` on the first listing with the id, which is
      returned; `null` and no change when there is none.  `updatedAt` is not
      touched. */
  function IncrementPropertyViews(st: Store, id: nat): (r: Op<Option<Listing>>)
    ensures match FirstIndex(st.properties, ListingWithId(id))
      case None => r == Op(st, None)
      case Some(i) =>
        && r.result.Some?
        && r.result.value.views == st.properties[i].views + 1
        && r.result.value.(views := st.properties[i].views) == st.properties[i]
        && ReplacedAt(st.properties, r.store.properties, i, r.result.value)
        && r.store.(properties := st.properties) == st
  {
    match FirstIndex(st.properties, ListingWithId(id))
    case None => Op(st, None)
    case Some(i) =>
      var listing := st.properties[i].(views := st.properties[i].views + 1);
      Op(st.(properties := st.properties[i := listing]), Some(listing))
  }
}

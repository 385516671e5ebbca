/** The search of `GET /properties`: the translation of the query string into
    a document-store filter, what that filter selects, the newest-first order
    and the page arithmetic; and how the in-memory store's `findProperties`
    relates to it. */
module ListingQuery {
  import opened Optional
  import opened Seqs
  import opened Schema
  import opened MemoryDB

  const DefaultPage: nat := 1
  const DefaultLimit: nat := 10

  /** The query string.  A text parameter counts when it is present and
      non-empty.  A numeric parameter is `Some(n)` when it was given as a
      non-empty string that `parseInt` reads as `n`; such a string is truthy
      even when it reads as 0. */
  datatype Query = Query(
    page: Option<nat>,
    limit: Option<nat>,
    propertyType: Option<string>,
    dealType: Option<string>,
    city: Option<string>,
    district: Option<string>,
    minPrice: Option<int>,
    maxPrice: Option<int>,
    minArea: Option<int>,
    maxArea: Option<int>,
    rooms: Option<int>)

  /** `{ $gte, $lte }` with only the bounds supplied. */
  datatype Bounds = Bounds(gte: Option<int>, lte: Option<int>)

  /** The filter document handed to `find` and `countDocuments`. */
  datatype ListingFilter = ListingFilter(
    status: string,
    propertyType: Option<string>,
    dealType: Option<string>,
    city: Option<string>,
    district: Option<string>,
    rooms: Option<int>,
    price: Option<Bounds>,
    area: Option<Bounds>)

  function TextConstraint(o: Option<string>): Option<string> {
    if TruthyText(o) then o else None
  }

  function RangeConstraint(lo: Option<int>, hi: Option<int>): Option<Bounds> {
    if lo.Some? || hi.Some? then Some(Bounds(lo, hi)) else None
  }

  /** The filter builder: the status is always fixed to on-sale, each
      equality appears only for a truthy parameter, and a range appears only
      when one of its bounds was given, holding just the given bounds. */
  function BuildFilter(q: Query): (r: ListingFilter)
    ensures r.status == ActiveStatus
    ensures r.propertyType.Some? <==> TruthyText(q.propertyType)
    ensures r.dealType.Some? <==> TruthyText(q.dealType)
    ensures r.city.Some? <==> TruthyText(q.city)
    ensures r.district.Some? <==> TruthyText(q.district)
    ensures r.propertyType.Some? ==> r.propertyType == q.propertyType
    ensures r.dealType.Some? ==> r.dealType == q.dealType
    ensures r.city.Some? ==> r.city == q.city
    ensures r.district.Some? ==> r.district == q.district
    ensures r.rooms == q.rooms
    ensures r.price.None? <==> q.minPrice.None? && q.maxPrice.None?
    ensures r.price.Some? ==> r.price.value.gte == q.minPrice && r.price.value.lte == q.maxPrice
    ensures r.area.None? <==> q.minArea.None? && q.maxArea.None?
    ensures r.area.Some? ==> r.area.value.gte == q.minArea && r.area.value.lte == q.maxArea
  {
    ListingFilter(
      ActiveStatus,
      TextConstraint(q.propertyType),
      TextConstraint(q.dealType),
      TextConstraint(q.city),
      TextConstraint(q.district),
      q.rooms,
      RangeConstraint(q.minPrice, q.maxPrice),
      RangeConstraint(q.minArea, q.maxArea))
  }

  /** A whole-number field inside inclusive bounds; a missing field matches
      no bound. */
  predicate WithinInt(x: Option<int>, b: Bounds) {
    && (b.gte.Some? ==> x.Some? && x.value >= b.gte.value)
    && (b.lte.Some? ==> x.Some? && x.value <= b.lte.value)
  }

  predicate WithinReal(x: Option<real>, b: Bounds) {
    && (b.gte.Some? ==> x.Some? && x.value >= b.gte.value as real)
    && (b.lte.Some? ==> x.Some? && x.value <= b.lte.value as real)
  }

  /** The document store's reading of a filter document: every key is an
      equality or a range on the named path, all of them conjoined. */
  predicate Matches(f: ListingFilter, l: Listing) {
    && l.fields.status == Some(f.status)
    && (f.propertyType.Some? ==> l.fields.propertyType == f.propertyType)
    && (f.dealType.Some? ==> l.fields.dealType == f.dealType)
    && (f.city.Some? ==> CityOf(l) == f.city)
    && (f.district.Some? ==> DistrictOf(l) == f.district)
    && (f.rooms.Some? ==> l.fields.rooms == f.rooms)
    && (f.price.Some? ==> WithinInt(l.fields.price, f.price.value))
    && (f.area.Some? ==> WithinReal(l.fields.area, f.area.value))
  }

  /** The search as the query promises it, stated on the query alone: an
      on-sale listing, equal on every truthy text parameter, with exactly the
      given room count, and inside every price and area bound given. */
  predicate Selects(q: Query, l: Listing) {
    && IsActive(l)
    && (TruthyText(q.propertyType) ==> l.fields.propertyType == q.propertyType)
    && (TruthyText(q.dealType) ==> l.fields.dealType == q.dealType)
    && (TruthyText(q.city) ==> CityOf(l) == q.city)
    && (TruthyText(q.district) ==> DistrictOf(l) == q.district)
    && (q.rooms.Some? ==> l.fields.rooms == q.rooms)
    && (q.minPrice.Some? ==> AtLeast(l.fields.price, q.minPrice))
    && (q.maxPrice.Some? ==> AtMost(l.fields.price, q.maxPrice))
    && (q.minArea.Some? ==> l.fields.area.Some? && l.fields.area.value >= q.minArea.value as real)
    && (q.maxArea.Some? ==> l.fields.area.Some? && l.fields.area.value <= q.maxArea.value as real)
  }

  /** The built filter selects exactly what the query promises. */
  lemma FilterMeaning(q: Query, l: Listing)
    ensures Matches(BuildFilter(q), l) <==> Selects(q, l)
  {
  }

  function Satisfying(f: ListingFilter): Listing -> bool {
    (l: Listing) => Matches(f, l)
  }

  /** The selection of the filter built from `q`; it depends on the search
      parameters only, not on the page. */
  function Matching(q: Query): Listing -> bool {
    Satisfying(BuildFilter(q))
  }

  /** `find(filter)` and `countDocuments(filter)` see the same documents. */
  function FindMatching(listings: seq<Listing>, q: Query): (r: seq<Listing>)
    ensures forall l :: l in r ==> l in listings && Selects(q, l)
    ensures forall i :: 0 <= i < |listings| && Selects(q, listings[i]) ==> listings[i] in r
  {
    var r := Filter(listings, Matching(q));
    forall l | l in r
      ensures l in listings && Selects(q, l)
    {
      var i :| 0 <= i < |r| && r[i] == l;
      FilterMeaning(q, r[i]);
    }
    forall i | 0 <= i < |listings| && Selects(q, listings[i])
      ensures listings[i] in r
    {
      FilterMeaning(q, listings[i]);
    }
    r
  }

  function CreatedAt(l: Listing): int {
    l.createdAt
  }

  /** `.sort({ createdAt: -1 })`: a permutation, newest first. */
  function NewestFirst(s: seq<Listing>): (r: seq<Listing>)
    ensures multiset(r) == multiset(s)
    ensures forall i, j :: 0 <= i < j < |r| ==> r[i].createdAt >= r[j].createdAt
  {
    SortDesc(s, CreatedAt)
  }

  /** A query with only a deal type and a price range: both bounds are
      inclusive. */
  function DealInRange(deal: string, lo: int, hi: int): Query {
    Query(None, None, None, Some(deal), None, None, Some(lo), Some(hi), None, None, None)
  }

  /** An on-sale monthly-rent listing priced 50000 is found by a monthly-rent
      search between 40000 and 60000, and by one whose upper bound is its
      own price, but not by one that stops at 40000. */
  lemma PriceRangeExample(l: Listing)
    requires IsActive(l) && l.fields.dealType == Some("월세") && l.fields.price == Some(50000)
    ensures Matches(BuildFilter(DealInRange("월세", 40000, 60000)), l)
    ensures Matches(BuildFilter(DealInRange("월세", 40000, 50000)), l)
    ensures !Matches(BuildFilter(DealInRange("월세", 0, 40000)), l)
  {
  }

  // ------------------------------------------------------------ conjunction

  /** Two queries that constrain disjoint parameters. */
  predicate Disjoint(q1: Query, q2: Query) {
    && !(TruthyText(q1.propertyType) && TruthyText(q2.propertyType))
    && !(TruthyText(q1.dealType) && TruthyText(q2.dealType))
    && !(TruthyText(q1.city) && TruthyText(q2.city))
    && !(TruthyText(q1.district) && TruthyText(q2.district))
    && !(q1.rooms.Some? && q2.rooms.Some?)
    && !(q1.minPrice.Some? && q2.minPrice.Some?)
    && !(q1.maxPrice.Some? && q2.maxPrice.Some?)
    && !(q1.minArea.Some? && q2.minArea.Some?)
    && !(q1.maxArea.Some? && q2.maxArea.Some?)
  }

  function PickText(a: Option<string>, b: Option<string>): Option<string> {
    if TruthyText(a) then a else b
  }

  /** The query carrying the parameters of both. */
  function Meet(q1: Query, q2: Query): Query {
    Query(q1.page, q1.limit,
          PickText(q1.propertyType, q2.propertyType), PickText(q1.dealType, q2.dealType),
          PickText(q1.city, q2.city), PickText(q1.district, q2.district),
          q1.minPrice.Or(q2.minPrice), q1.maxPrice.Or(q2.maxPrice),
          q1.minArea.Or(q2.minArea), q1.maxArea.Or(q2.maxArea),
          q1.rooms.Or(q2.rooms))
  }

  /** Parameters compose conjunctively: the combined query selects exactly
      what both select. */
  lemma ConjunctiveParameters(q1: Query, q2: Query, l: Listing)
    requires Disjoint(q1, q2)
    ensures Selects(Meet(q1, q2), l) <==> Selects(q1, l) && Selects(q2, l)
  {
  }

  /** So searching with both is searching the first result with the second. */
  lemma ConjunctiveSearch(s: seq<Listing>, q1: Query, q2: Query)
    requires Disjoint(q1, q2)
    ensures Filter(s, Matching(Meet(q1, q2))) == Filter(Filter(s, Matching(q1)), Matching(q2))
  {
    FilterTwice(s, Matching(q1), Matching(q2));
    forall x | x in s
      ensures Matching(Meet(q1, q2))(x) == Both(Matching(q1), Matching(q2))(x)
    {
      FilterMeaning(Meet(q1, q2), x);
      FilterMeaning(q1, x);
      FilterMeaning(q2, x);
      ConjunctiveParameters(q1, q2, x);
    }
    FilterAgree(s, Matching(Meet(q1, q2)), Both(Matching(q1), Matching(q2)));
  }

  // ------------------------------------------------------------- pagination

  function Min(a: int, b: int): int {
    if a <= b then a else b
  }

  /** `Math.ceil(n / d)`: the least whole number of pages of size `d` that
      hold `n` items. */
  function CeilDiv(n: nat, d: nat): (r: nat)
    requires d > 0
    ensures r * d >= n
    ensures r > 0 ==> (r - 1) * d < n
  {
    var r := (n + d - 1) / d;
    var m := (n + d - 1) % d;
    assert n + d - 1 == r * d + m;
    assert (r - 1) * d == r * d - d;
    r
  }

  /** How many items come before page `page`. */
  function Skip(page: nat, limit: nat): nat
    requires page >= 1
  {
    (page - 1) * limit
  }

  /** How many items page `page` holds. */
  function PageSize(total: nat, page: nat, limit: nat): nat
    requires page >= 1 && limit >= 1
  {
    var skip := Skip(page, limit);
    if skip >= total then 0 else Min(limit, total - skip)
  }

  /** `.skip((page - 1) * limit).limit(limit)`. */
  function Paginate<T>(s: seq<T>, page: nat, limit: nat): (r: seq<T>)
    requires page >= 1 && limit >= 1
    ensures |r| == PageSize(|s|, page, limit) && |r| <= limit
    ensures forall i :: 0 <= i < |r| ==> r[i] == s[Skip(page, limit) + i]
  {
    var skip := Skip(page, limit);
    if skip >= |s| then [] else s[skip..Min(skip + limit, |s|)]
  }

  /** Pages `1..n` one after another. */
  function AllPages<T>(s: seq<T>, limit: nat, n: nat): seq<T>
    requires limit >= 1
  {
    if n == 0 then [] else AllPages(s, limit, n - 1) + Paginate(s, n, limit)
  }

  /** The first `n` pages are the first `n * limit` items. */
  lemma {:induction false} AllPagesPrefix<T>(s: seq<T>, limit: nat, n: nat)
    requires limit >= 1
    ensures AllPages(s, limit, n) == s[..Min(n * limit, |s|)]
  {
    if n > 0 {
      AllPagesPrefix(s, limit, n - 1);
      var skip := Skip(n, limit);
      assert n * limit == skip + limit;
      var page := Paginate(s, n, limit);
      if skip >= |s| {
        assert Min(n * limit, |s|) == |s|;
      } else {
        assert page == s[skip..Min(n * limit, |s|)];
        assert s[..skip] + s[skip..Min(n * limit, |s|)] == s[..Min(n * limit, |s|)];
      }
    }
  }

  /** A list of pages read one after another. */
  function Concat<T>(pages: seq<seq<T>>): seq<T> {
    if |pages| == 0 then [] else Concat(pages[..|pages| - 1]) + pages[|pages| - 1]
  }

  /** Pages fetched one by one, each the slice of `s` its number names, add
      up to the first pages of `s`. */
  lemma {:induction false} ConcatSlices<T>(pages: seq<seq<T>>, s: seq<T>, limit: nat)
    requires limit >= 1
    requires forall k :: 0 <= k < |pages| ==> pages[k] == Paginate(s, k + 1, limit)
    ensures Concat(pages) == AllPages(s, limit, |pages|)
  {
    if |pages| > 0 {
      ConcatSlices(pages[..|pages| - 1], s, limit);
    }
  }

  /** Pages `1..totalPages` hold every item exactly once, in order. */
  lemma PagesCoverAll<T>(s: seq<T>, limit: nat)
    requires limit >= 1
    ensures AllPages(s, limit, CeilDiv(|s|, limit)) == s
  {
    AllPagesPrefix(s, limit, CeilDiv(|s|, limit));
    assert s[..|s|] == s;
  }

  function SumPageSizes(total: nat, limit: nat, n: nat): nat
    requires limit >= 1
  {
    if n == 0 then 0 else SumPageSizes(total, limit, n - 1) + PageSize(total, n, limit)
  }

  lemma {:induction false} SumPageSizesPrefix(total: nat, limit: nat, n: nat)
    requires limit >= 1
    ensures SumPageSizes(total, limit, n) == Min(n * limit, total)
  {
    if n > 0 {
      SumPageSizesPrefix(total, limit, n - 1);
      assert n * limit == (n - 1) * limit + limit;
    }
  }

  /** The page sizes over pages `1..totalPages` add up to the total. */
  lemma PageSizesSum(total: nat, limit: nat)
    requires limit >= 1
    ensures SumPageSizes(total, limit, CeilDiv(total, limit)) == total
  {
    SumPageSizesPrefix(total, limit, CeilDiv(total, limit));
  }

  // ------------------------------------------- the in-memory store's filter

  /** The same search parameters as the in-memory store's filter object. */
  function ToMemFilter(q: Query): MemFilter {
    MemFilter(q.propertyType, q.dealType, q.city, q.district, q.minPrice, q.maxPrice, q.rooms)
  }

  /** On a query with no area bound and no numeric parameter reading as 0,
      the in-memory `findProperties` and the route's filter select the same
      on-sale listings in the same order. */
  lemma MemoryStoreAgrees(st: Store, q: Query)
    requires q.minArea.None? && q.maxArea.None?
    requires q.minPrice != Some(0) && q.maxPrice != Some(0) && q.rooms != Some(0)
    ensures FindProperties(st, ToMemFilter(q)) == Filter(st.properties, Matching(q))
  {
    forall x | x in st.properties
      ensures SelectedBy(ToMemFilter(q))(x) == Matching(q)(x)
    {
      FilterMeaning(q, x);
    }
    FilterAgree(st.properties, SelectedBy(ToMemFilter(q)), Matching(q));
  }

  /** Where they part: a room count that reads as 0 is an exact-match
      constraint for the route but no constraint for the in-memory store,
      and the in-memory store has no area bound at all. */
  lemma MemoryStoreDiverges(l: Listing)
    requires IsActive(l) && l.fields.rooms == Some(3) && l.fields.area == Some(50.0)
    ensures var zeroRooms := Query(None, None, None, None, None, None, None, None, None, None, Some(0));
            MemMatches(ToMemFilter(zeroRooms), l) && !Selects(zeroRooms, l)
    ensures var bigOnly := Query(None, None, None, None, None, None, None, None, Some(100), None, None);
            MemMatches(ToMemFilter(bigOnly), l) && !Selects(bigOnly, l)
  {
  }
}

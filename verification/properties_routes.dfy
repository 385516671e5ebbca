/** The handlers of `routes/properties.js`, each a pure function from the
    store and the request to the store it leaves and the reply it sends.  The
    caller's id is the one the token middleware put on the request; the
    document store's `find`, `findById`, `findByIdAndUpdate` and
    `findByIdAndDelete` act on the same store record as the in-memory
    database. */
module PropertyRoutes {
  import opened Optional
  import opened Seqs
  import opened Schema
  import opened Users
  import opened MemoryDB
  import opened ListingQuery
  import opened Http

  const NotFoundMessage: string := "매물을 찾을 수 없습니다."
  const BrokersOnlyMessage: string := "중개사만 매물을 등록할 수 있습니다."
  const CreatedMessage: string := "매물이 성공적으로 등록되었습니다."
  const NoEditRightMessage: string := "매물을 수정할 권한이 없습니다."
  const UpdatedMessage: string := "매물이 성공적으로 수정되었습니다."
  const NoDeleteRightMessage: string := "매물을 삭제할 권한이 없습니다."
  const DeletedMessage: string := "매물이 성공적으로 삭제되었습니다."

  // ------------------------------------------------------------ GET /

  /** The reply body of a search whose matches are `matches`: the requested
      page of them newest first, or all of them when the page size is 0
      (which the store reads as "no limit", and which makes the page count
      `null`). */
  function SearchPage(matches: seq<Listing>, page: nat, limit: nat): (b: Body)
    requires page > 0 || limit == 0
    ensures b.ListingPage? && b.currentPage == page && b.total == |matches|
    ensures forall i :: 0 <= i < |b.properties| ==> b.properties[i] in matches
    ensures forall i, j :: 0 <= i < j < |b.properties| ==> b.properties[i].createdAt >= b.properties[j].createdAt
    ensures limit > 0 ==> |b.properties| == PageSize(|matches|, page, limit) && b.totalPages == Some(CeilDiv(|matches|, limit))
    ensures limit == 0 ==> b.totalPages.None? && multiset(b.properties) == multiset(matches)
  {
    var newest := NewestFirst(matches);
    ReorderedMembers(newest, matches);
    if limit == 0 then ListingPage(newest, None, page, |matches|)
    else
      var shown := Paginate(newest, page, limit);
      SliceOfSorted(newest, page, limit);
      ListingPage(shown, Some(CeilDiv(|matches|, limit)), page, |matches|)
  }

  /** A page of a newest-first sequence is newest first and holds only its
      elements. */
  lemma SliceOfSorted(s: seq<Listing>, page: nat, limit: nat)
    requires page >= 1 && limit >= 1
    requires forall i, j :: 0 <= i < j < |s| ==> s[i].createdAt >= s[j].createdAt
    ensures var r := Paginate(s, page, limit);
            && (forall i :: 0 <= i < |r| ==> r[i] in s)
            && (forall i, j :: 0 <= i < j < |r| ==> r[i].createdAt >= r[j].createdAt)
  {
    var r := Paginate(s, page, limit);
    var skip := Skip(page, limit);
    forall i, j | 0 <= i < j < |r|
      ensures r[i].createdAt >= r[j].createdAt
    {
      assert r[i] == s[skip + i] && r[j] == s[skip + j];
    }
    forall i | 0 <= i < |r|
      ensures r[i] in s
    {
      assert r[i] == s[skip + i];
    }
  }

  /** The search: one page of the matching listings, newest first, with the
      match count and the page count.  A page number of 0 with a positive
      page size asks the store for a negative skip, which it refuses. */
  function Browse(st: Store, q: Query): (r: Handled)
    ensures r.store == st
    ensures q.page == Some(0) && q.limit.GetOr(DefaultLimit) > 0 <==>
              r.response == Response(SERVER_ERROR, Message(ServerErrorMessage))
    ensures !(q.page == Some(0) && q.limit.GetOr(DefaultLimit) > 0) ==>
              && r.response.status == OK
              && r.response.body == SearchPage(FindMatching(st.properties, q), q.page.GetOr(DefaultPage), q.limit.GetOr(DefaultLimit))
  {
    var page := q.page.GetOr(DefaultPage);
    var limit := q.limit.GetOr(DefaultLimit);
    if page == 0 && limit > 0 then Reply(st, SERVER_ERROR, Message(ServerErrorMessage))
    else
      var matches := FindMatching(st.properties, q);
      var b := SearchPage(matches, page, limit);
      Reply(st, OK, b)
  }

  /** Every listing a search shows is a stored listing the search selects. */
  lemma BrowseShowsSelected(st: Store, q: Query)
    ensures var b := Browse(st, q).response.body;
            b.ListingPage? ==>
              forall i :: 0 <= i < |b.properties| ==> b.properties[i] in st.properties && Selects(q, b.properties[i])
  {
    var page := q.page.GetOr(DefaultPage);
    var limit := q.limit.GetOr(DefaultLimit);
    if !(page == 0 && limit > 0) {
      var matches := FindMatching(st.properties, q);
      ShownAreMatches(st.properties, q, matches, SearchPage(matches, page, limit).properties);
    }
  }

  /** Whatever is shown from the matches of a search is a stored listing the
      search selects. */
  lemma ShownAreMatches(listings: seq<Listing>, q: Query, matches: seq<Listing>, shown: seq<Listing>)
    requires forall l :: l in matches ==> l in listings && Selects(q, l)
    requires forall i :: 0 <= i < |shown| ==> shown[i] in matches
    ensures forall i :: 0 <= i < |shown| ==> shown[i] in listings && Selects(q, shown[i])
  {
  }

  /** Page `k` of a search, all other parameters as given. */
  function PageOf(st: Store, q: Query, k: nat): seq<Listing>
    requires k >= 1
  {
    Browse(st, q.(page := Some(k))).response.body.properties
  }

  /** `pages` holds the replies to pages `1..|pages|` of a search, in
      order. */
  predicate Fetched(st: Store, q: Query, pages: seq<seq<Listing>>) {
    forall k :: 0 <= k < |pages| ==> pages[k] == PageOf(st, q, k + 1)
  }

  /** No two matches share a creation time.  Only then is the newest-first
      order the same on every request: the store breaks ties as it pleases,
      separately for each page. */
  predicate DistinctTimes(st: Store, q: Query) {
    var m := FindMatching(st.properties, q);
    forall i, j :: 0 <= i < j < |m| ==> m[i].createdAt != m[j].createdAt
  }

  /** The replies to pages `1..n`, read one after another, are the first `n`
      slices of the newest-first matches. */
  lemma FetchedIsPrefix(st: Store, q: Query, pages: seq<seq<Listing>>)
    requires q.limit.GetOr(DefaultLimit) > 0 && Fetched(st, q, pages)
    requires DistinctTimes(st, q)
    ensures Concat(pages) == AllPages(NewestFirst(FindMatching(st.properties, q)), q.limit.GetOr(DefaultLimit), |pages|)
  {
    var newest := NewestFirst(FindMatching(st.properties, q));
    var limit := q.limit.GetOr(DefaultLimit);
    forall k | 0 <= k < |pages|
      ensures pages[k] == Paginate(newest, k + 1, limit)
    {
      FetchedPageIsSlice(st, q, pages, k);
    }
    ConcatSlices(pages, newest, limit);
  }

  lemma FetchedPageIsSlice(st: Store, q: Query, pages: seq<seq<Listing>>, k: nat)
    requires q.limit.GetOr(DefaultLimit) > 0 && Fetched(st, q, pages) && k < |pages|
    ensures pages[k] == Paginate(NewestFirst(FindMatching(st.properties, q)), k + 1, q.limit.GetOr(DefaultLimit))
  {
    PageOfIsSlice(st, q, k + 1);
  }

  /** Page `k` is the `k`-th slice of the newest-first matches. */
  lemma PageOfIsSlice(st: Store, q: Query, k: nat)
    requires k >= 1 && q.limit.GetOr(DefaultLimit) > 0
    ensures PageOf(st, q, k) == Paginate(NewestFirst(FindMatching(st.properties, q)), k, q.limit.GetOr(DefaultLimit))
  {
    MatchingIgnoresPage(st.properties, q, k);
    var limit := q.limit.GetOr(DefaultLimit);
    var matches := FindMatching(st.properties, q);
    assert PageOf(st, q, k) == SearchPage(matches, k, limit).properties;
  }

  /** The page number takes no part in the selection. */
  lemma MatchingIgnoresPage(s: seq<Listing>, q: Query, k: nat)
    ensures FindMatching(s, q.(page := Some(k))) == FindMatching(s, q)
  {
    assert BuildFilter(q.(page := Some(k))) == BuildFilter(q);
  }

  /** When no two matches share a creation time, fetching pages
      `1..totalPages` returns every matching listing exactly once, newest
      first. */
  lemma BrowsingEveryPage(st: Store, q: Query, pages: seq<seq<Listing>>)
    requires q.limit.GetOr(DefaultLimit) > 0 && Fetched(st, q, pages)
    requires |pages| == CeilDiv(|FindMatching(st.properties, q)|, q.limit.GetOr(DefaultLimit))
    requires DistinctTimes(st, q)
    ensures var matches := FindMatching(st.properties, q);
            var w := Concat(pages);
            && multiset(w) == multiset(matches)
            && forall i, j :: 0 <= i < j < |w| ==> w[i].createdAt >= w[j].createdAt
  {
    var limit := q.limit.GetOr(DefaultLimit);
    var newest := NewestFirst(FindMatching(st.properties, q));
    FetchedIsPrefix(st, q, pages);
    PagesCoverAll(newest, limit);
  }

  // -------------------------------------------------------- GET /:id

  /** A lookup that counts the view: the listing's `views` goes up by one and
      the save stamps `updatedAt`.  The save validates the whole document, so
      a stored listing that breaks the schema makes the lookup fail. */
  function ViewListing(st: Store, id: nat, now: int): (r: Handled)
    ensures match FirstIndex(st.properties, ListingWithId(id))
      case None => r == Reply(st, NOT_FOUND, Message(NotFoundMessage))
      case Some(i) =>
        var l := st.properties[i];
        if SchemaValid(l) then
          && r.response.status == OK
          && r.response.body.OneListing?
          && r.response.body.listing.views == l.views + 1
          && r.response.body.listing.updatedAt == now
          && r.response.body.listing.(views := l.views, updatedAt := l.updatedAt) == l
          && ReplacedAt(st.properties, r.store.properties, i, r.response.body.listing)
          && r.store.(properties := st.properties) == st
        else
          r == Reply(st, SERVER_ERROR, Message(ServerErrorMessage))
  {
    match FirstIndex(st.properties, ListingWithId(id))
    case None => Reply(st, NOT_FOUND, Message(NotFoundMessage))
    case Some(i) =>
      var seen := PreSave(st.properties[i].(views := st.properties[i].views + 1), now);
      if !SchemaValid(seen) then Reply(st, SERVER_ERROR, Message(ServerErrorMessage))
      else Handled(st.(properties := st.properties[i := seen]), Response(OK, OneListing(seen)))
  }

  // ------------------------------------------------------------ POST /

  /** The request validators of the create route: non-empty title and
      description, a listed property type and deal type, numeric price, area
      and rooms, and an address object. */
  predicate BodyValid(body: ListingPatch) {
    && TruthyText(body.fields.title)
    && TruthyText(body.fields.description)
    && body.fields.propertyType.Some? && body.fields.propertyType.value in PropertyTypeLabels
    && body.fields.dealType.Some? && body.fields.dealType.value in DealTypeLabels
    && body.fields.price.Some? && body.fields.area.Some? && body.fields.rooms.Some?
    && body.fields.address.Some?
  }

  /** The caller exists and is registered as a broker. */
  predicate CallerIsBroker(st: Store, userId: nat) {
    FindUserById(st, userId).Some? && IsBroker(FindUserById(st, userId).value)
  }

  /** The document a create builds: the body with the caller as broker,
      written after the spread, under a fresh id. */
  function Drafted(st: Store, userId: nat, body: ListingPatch, now: int): Listing {
    NewDocument(body.(id := None, fields := body.fields.(broker := Some(userId))), st.nextPropertyId, now)
  }

  /** The route's validators against the schema's: a valid body saves
      unless it brings an unknown status, and of a body that would save, the
      validators ask only for the address besides. */
  lemma BodyValidAgainstSchema(st: Store, userId: nat, body: ListingPatch, now: int)
    ensures BodyValid(body) ==>
              (SchemaValid(Drafted(st, userId, body, now)) <==>
                 (body.fields.status.Some? ==> body.fields.status.value in StatusLabels))
    ensures SchemaValid(Drafted(st, userId, body, now)) ==> (BodyValid(body) <==> body.fields.address.Some?)
  {
    NewDocumentValidity(body.(id := None, fields := body.fields.(broker := Some(userId))), st.nextPropertyId, now);
  }

  /** Validation first, then the role, then the schema on save.  Only a
      success writes, and the new listing belongs to the caller whatever the
      body says about `broker`. */
  function CreateListing(st: Store, userId: nat, body: ListingPatch, now: int): (r: Handled)
    ensures !BodyValid(body) ==> r == Reply(st, BAD_REQUEST, ValidationErrors)
    ensures BodyValid(body) && !CallerIsBroker(st, userId) ==>
              r == Reply(st, FORBIDDEN, Message(BrokersOnlyMessage))
    ensures r.response.status == CREATED <==>
              && BodyValid(body) && CallerIsBroker(st, userId)
              && (body.fields.status.Some? ==> body.fields.status.value in StatusLabels)
    ensures r.response.status != CREATED ==> r.store == st
    ensures r.response.status == CREATED ==>
              && r.response.body.ListingSaved?
              && r.response.body.text == CreatedMessage
              && var l := r.response.body.listing;
              && r.store == st.(properties := st.properties + [l], nextPropertyId := st.nextPropertyId + 1)
              && l.id == st.nextPropertyId
              && l.fields.broker == Some(userId)
              && l.fields.status == Some(body.fields.status.GetOr(ActiveStatus))
              && l.fields.bathrooms == Some(body.fields.bathrooms.GetOr(DefaultBathrooms))
              && l.views == body.views.GetOr(DefaultViews)
              && l.createdAt == body.createdAt.GetOr(now)
              && l.updatedAt == now
              && l.fields.images == Some(body.fields.images.GetOr([]))
              && l.fields.features == Some(body.fields.features.GetOr([]))
              && (forall k :: k != BrokerKey && Has(body.fields, k) ==> Same(l.fields, body.fields, k))
              && (forall k :: k != BrokerKey && !Has(body.fields, k) ==> Same(l.fields, FieldDefaults, k))
  {
    if !BodyValid(body) then Reply(st, BAD_REQUEST, ValidationErrors)
    else if !CallerIsBroker(st, userId) then Reply(st, FORBIDDEN, Message(BrokersOnlyMessage))
    else
      var l := Drafted(st, userId, body, now);
      NewDocumentValidity(body.(id := None, fields := body.fields.(broker := Some(userId))), st.nextPropertyId, now);
      if !SchemaValid(l) then Reply(st, SERVER_ERROR, Message(ServerErrorMessage))
      else
        var st' := st.(properties := st.properties + [l], nextPropertyId := st.nextPropertyId + 1);
        Handled(st', Response(CREATED, ListingSaved(CreatedMessage, l)))
  }

  // ---------------------------------------------------------- PUT /:id

  /** Not found, then ownership, then the update.  The body is spread over
      the stored listing as it is, so an owner may also rewrite `broker`.
      `nulls` are the data keys the body sends as JSON `null`: no validator
      runs on the update, so each of them is stored as `null`. */
  function UpdateListing(st: Store, userId: nat, id: nat, body: ListingPatch, nulls: set<Key>, now: int): (r: Handled)
    ensures match FirstIndex(st.properties, ListingWithId(id))
      case None => r == Reply(st, NOT_FOUND, Message(NotFoundMessage))
      case Some(i) =>
        var l := st.properties[i];
        && (l.fields.broker.None? ==> r == Reply(st, SERVER_ERROR, Message(ServerErrorMessage)))
        && (l.fields.broker.Some? && l.fields.broker.value != userId ==>
              r == Reply(st, FORBIDDEN, Message(NoEditRightMessage)))
        && (l.fields.broker == Some(userId) ==>
              && r.response.status == OK
              && r.response.body.ListingSaved?
              && r.response.body.text == UpdatedMessage
              && var u := r.response.body.listing;
              && u.id == l.id && u.updatedAt == now
              && u.views == body.views.GetOr(l.views)
              && u.createdAt == body.createdAt.GetOr(l.createdAt)
              && u.fields == Clear(Join(l.fields, body.fields), nulls)
              && ReplacedAt(st.properties, r.store.properties, i, u)
              && r.store.(properties := st.properties) == st)
  {
    match FirstIndex(st.properties, ListingWithId(id))
    case None => Reply(st, NOT_FOUND, Message(NotFoundMessage))
    case Some(i) =>
      var owner := st.properties[i].fields.broker;
      if owner.None? then Reply(st, SERVER_ERROR, Message(ServerErrorMessage))
      else if owner.value != userId then Reply(st, FORBIDDEN, Message(NoEditRightMessage))
      else
        var op := UpdateProperty(st, id, body.(id := None), now);
        var u := op.result.value.(fields := Clear(op.result.value.fields, nulls));
        Handled(op.store.(properties := op.store.properties[i := u]), Response(OK, ListingSaved(UpdatedMessage, u)))
  }

  // ------------------------------------------------------- DELETE /:id

  /** Not found, then ownership, then the removal of that listing alone. */
  function DeleteListing(st: Store, userId: nat, id: nat): (r: Handled)
    ensures match FirstIndex(st.properties, ListingWithId(id))
      case None => r == Reply(st, NOT_FOUND, Message(NotFoundMessage))
      case Some(i) =>
        var l := st.properties[i];
        && (l.fields.broker.None? ==> r == Reply(st, SERVER_ERROR, Message(ServerErrorMessage)))
        && (l.fields.broker.Some? && l.fields.broker.value != userId ==>
              r == Reply(st, FORBIDDEN, Message(NoDeleteRightMessage)))
        && (l.fields.broker == Some(userId) ==>
              && r.response == Response(OK, Message(DeletedMessage))
              && r.store.properties == RemoveAt(st.properties, i)
              && r.store.(properties := st.properties) == st)
  {
    match FirstIndex(st.properties, ListingWithId(id))
    case None => Reply(st, NOT_FOUND, Message(NotFoundMessage))
    case Some(i) =>
      var owner := st.properties[i].fields.broker;
      if owner.None? then Reply(st, SERVER_ERROR, Message(ServerErrorMessage))
      else if owner.value != userId then Reply(st, FORBIDDEN, Message(NoDeleteRightMessage))
      else Handled(DeleteProperty(st, id).store, Response(OK, Message(DeletedMessage)))
  }

  // ------------------------------------------------- GET /my/listings

  /** Every listing of the caller, whatever its status, newest first. */
  function MyListings(st: Store, userId: nat): (r: Handled)
    ensures r.store == st && r.response.status == OK && r.response.body.ListingArray?
    ensures multiset(r.response.body.listings) == multiset(FindPropertiesByBroker(st, userId))
    ensures forall l :: l in r.response.body.listings <==> l in st.properties && l.fields.broker == Some(userId)
    ensures forall i, j :: 0 <= i < j < |r.response.body.listings| ==>
              r.response.body.listings[i].createdAt >= r.response.body.listings[j].createdAt
  {
    var mine := FindPropertiesByBroker(st, userId);
    var newest := NewestFirst(mine);
    SameElements(newest, mine);
    FilterMembers(st.properties, OwnedBy(userId));
    Reply(st, OK, ListingArray(newest))
  }
}

/** The listing document of `models/Property.js`: its closed enumerations,
    its fields, the object spread that builds and patches it, the defaults
    the schema fills in, its validation and the pre-save timestamp hook. */
module Schema {
  import opened Optional

  /** `propertyType`: apartment, villa, detached house, officetel, shop,
      office, other. */
  datatype PropertyType = Apartment | Villa | DetachedHouse | Officetel | Shop | Office | Other

  /** `dealType`: sale, lump-sum deposit lease (jeonse), monthly rent. */
  datatype DealType = Sale | Jeonse | MonthlyRent

  /** `status`: on sale, under contract, sold. */
  datatype ListingStatus = OnSale | UnderContract | Sold

  function PropertyTypeLabel(t: PropertyType): string {
    match t
    case Apartment => "아파트"
    case Villa => "빌라"
    case DetachedHouse => "단독주택"
    case Officetel => "오피스텔"
    case Shop => "상가"
    case Office => "사무실"
    case Other => "기타"
  }

  function DealTypeLabel(t: DealType): string {
    match t
    case Sale => "매매"
    case Jeonse => "전세"
    case MonthlyRent => "월세"
  }

  function StatusLabel(s: ListingStatus): string {
    match s
    case OnSale => "판매중"
    case UnderContract => "계약완료"
    case Sold => "판매완료"
  }

  /** The enum check on `propertyType`: the label's value, if it has one. */
  function ParsePropertyType(s: string): (r: Option<PropertyType>)
    ensures r.Some? ==> PropertyTypeLabel(r.value) == s
    ensures r.None? <==> s !in PropertyTypeLabels
  {
    if s == "아파트" then Some(Apartment)
    else if s == "빌라" then Some(Villa)
    else if s == "단독주택" then Some(DetachedHouse)
    else if s == "오피스텔" then Some(Officetel)
    else if s == "상가" then Some(Shop)
    else if s == "사무실" then Some(Office)
    else if s == "기타" then Some(Other)
    else None
  }

  function ParseDealType(s: string): (r: Option<DealType>)
    ensures r.Some? ==> DealTypeLabel(r.value) == s
    ensures r.None? <==> s !in DealTypeLabels
  {
    if s == "매매" then Some(Sale)
    else if s == "전세" then Some(Jeonse)
    else if s == "월세" then Some(MonthlyRent)
    else None
  }

  function ParseStatus(s: string): (r: Option<ListingStatus>)
    ensures r.Some? ==> StatusLabel(r.value) == s
    ensures r.None? <==> s !in StatusLabels
  {
    if s == "판매중" then Some(OnSale)
    else if s == "계약완료" then Some(UnderContract)
    else if s == "판매완료" then Some(Sold)
    else None
  }

  const PropertyTypeLabels: set<string> := {"아파트", "빌라", "단독주택", "오피스텔", "상가", "사무실", "기타"}
  const DealTypeLabels: set<string> := {"매매", "전세", "월세"}
  const StatusLabels: set<string> := {"판매중", "계약완료", "판매완료"}

  /** Every property type survives the label round trip, and there are
      exactly seven labels. */
  lemma PropertyTypeRoundTrip(t: PropertyType)
    ensures ParsePropertyType(PropertyTypeLabel(t)) == Some(t)
    ensures PropertyTypeLabel(t) in PropertyTypeLabels
    ensures |PropertyTypeLabels| == 7
  {
  }

  lemma DealTypeRoundTrip(t: DealType)
    ensures ParseDealType(DealTypeLabel(t)) == Some(t)
    ensures DealTypeLabel(t) in DealTypeLabels
    ensures |DealTypeLabels| == 3
  {
  }

  lemma StatusRoundTrip(s: ListingStatus)
    ensures ParseStatus(StatusLabel(s)) == Some(s)
    ensures StatusLabel(s) in StatusLabels
    ensures |StatusLabels| == 3
  {
  }

  /** The status a listing is searchable under. */
  const ActiveStatus: string := StatusLabel(OnSale)

  datatype Address = Address(city: Option<string>, district: Option<string>, detail: Option<string>, full: Option<string>)

  datatype Coordinates = Coordinates(lat: Option<real>, lng: Option<real>)

  /** The schema's data fields, each possibly missing from a document or a
      request body.  `broker` is the owning user's id. */
  datatype Fields = Fields(
    title: Option<string>,
    description: Option<string>,
    propertyType: Option<string>,
    dealType: Option<string>,
    price: Option<int>,
    deposit: Option<int>,
    monthlyRent: Option<int>,
    area: Option<real>,
    rooms: Option<int>,
    bathrooms: Option<int>,
    floor: Option<int>,
    totalFloors: Option<int>,
    address: Option<Address>,
    coordinates: Option<Coordinates>,
    images: Option<seq<string>>,
    features: Option<seq<string>>,
    broker: Option<nat>,
    status: Option<string>)

  const NoFields: Fields := Fields(None, None, None, None, None, None, None, None, None,
                                   None, None, None, None, None, None, None, None, None)

  /** The names of the data fields, as keys of a document or a body. */
  datatype Key =
    TitleKey | DescriptionKey | PropertyTypeKey | DealTypeKey | PriceKey | DepositKey | MonthlyRentKey | AreaKey | RoomsKey |
    BathroomsKey | FloorKey | TotalFloorsKey | AddressKey | CoordinatesKey | ImagesKey | FeaturesKey | BrokerKey | StatusKey

  /** Whether `f` carries the field named `k`. */
  predicate Has(f: Fields, k: Key) {
    match k
    case TitleKey => f.title.Some?
    case DescriptionKey => f.description.Some?
    case PropertyTypeKey => f.propertyType.Some?
    case DealTypeKey => f.dealType.Some?
    case PriceKey => f.price.Some?
    case DepositKey => f.deposit.Some?
    case MonthlyRentKey => f.monthlyRent.Some?
    case AreaKey => f.area.Some?
    case RoomsKey => f.rooms.Some?
    case BathroomsKey => f.bathrooms.Some?
    case FloorKey => f.floor.Some?
    case TotalFloorsKey => f.totalFloors.Some?
    case AddressKey => f.address.Some?
    case CoordinatesKey => f.coordinates.Some?
    case ImagesKey => f.images.Some?
    case FeaturesKey => f.features.Some?
    case BrokerKey => f.broker.Some?
    case StatusKey => f.status.Some?
  }

  /** Whether `f` and `g` agree on the field named `k`. */
  predicate Same(f: Fields, g: Fields, k: Key) {
    match k
    case TitleKey => f.title == g.title
    case DescriptionKey => f.description == g.description
    case PropertyTypeKey => f.propertyType == g.propertyType
    case DealTypeKey => f.dealType == g.dealType
    case PriceKey => f.price == g.price
    case DepositKey => f.deposit == g.deposit
    case MonthlyRentKey => f.monthlyRent == g.monthlyRent
    case AreaKey => f.area == g.area
    case RoomsKey => f.rooms == g.rooms
    case BathroomsKey => f.bathrooms == g.bathrooms
    case FloorKey => f.floor == g.floor
    case TotalFloorsKey => f.totalFloors == g.totalFloors
    case AddressKey => f.address == g.address
    case CoordinatesKey => f.coordinates == g.coordinates
    case ImagesKey => f.images == g.images
    case FeaturesKey => f.features == g.features
    case BrokerKey => f.broker == g.broker
    case StatusKey => f.status == g.status
  }

  /** `{ ...a, ...b }` on the data fields: every field `b` carries wins, every
      field it lacks is taken from `a`. */
  function Join(a: Fields, b: Fields): (r: Fields)
    ensures forall k :: Has(b, k) ==> Same(r, b, k)
    ensures forall k :: !Has(b, k) ==> Same(r, a, k)
  {
    Fields(
      b.title.Or(a.title),
      b.description.Or(a.description),
      b.propertyType.Or(a.propertyType),
      b.dealType.Or(a.dealType),
      b.price.Or(a.price),
      b.deposit.Or(a.deposit),
      b.monthlyRent.Or(a.monthlyRent),
      b.area.Or(a.area),
      b.rooms.Or(a.rooms),
      b.bathrooms.Or(a.bathrooms),
      b.floor.Or(a.floor),
      b.totalFloors.Or(a.totalFloors),
      b.address.Or(a.address),
      b.coordinates.Or(a.coordinates),
      b.images.Or(a.images),
      b.features.Or(a.features),
      b.broker.Or(a.broker),
      b.status.Or(a.status))
  }

  /** The fields named in `nulls` set to `null`, which a stored document
      keeps as an absent value; the others as they are. */
  function Clear(f: Fields, nulls: set<Key>): Fields
  {
    Fields(
      if TitleKey in nulls then None else f.title,
      if DescriptionKey in nulls then None else f.description,
      if PropertyTypeKey in nulls then None else f.propertyType,
      if DealTypeKey in nulls then None else f.dealType,
      if PriceKey in nulls then None else f.price,
      if DepositKey in nulls then None else f.deposit,
      if MonthlyRentKey in nulls then None else f.monthlyRent,
      if AreaKey in nulls then None else f.area,
      if RoomsKey in nulls then None else f.rooms,
      if BathroomsKey in nulls then None else f.bathrooms,
      if FloorKey in nulls then None else f.floor,
      if TotalFloorsKey in nulls then None else f.totalFloors,
      if AddressKey in nulls then None else f.address,
      if CoordinatesKey in nulls then None else f.coordinates,
      if ImagesKey in nulls then None else f.images,
      if FeaturesKey in nulls then None else f.features,
      if BrokerKey in nulls then None else f.broker,
      if StatusKey in nulls then None else f.status)
  }

  /** Every field named in `nulls` is gone after clearing, and every other
      field is as it was. */
  lemma ClearLaw(f: Fields, nulls: set<Key>)
    ensures forall k :: k in nulls ==> !Has(Clear(f, nulls), k)
    ensures forall k :: k !in nulls ==> Same(Clear(f, nulls), f, k)
  {
    forall k ensures k in nulls ==> !Has(Clear(f, nulls), k) {
      match k
      case _ =>
    }
    forall k ensures k !in nulls ==> Same(Clear(f, nulls), f, k) {
      match k
      case _ =>
    }
  }

  /** A body spread over stored fields and then the keys it sends as `null`
      cleared: a `null` key is gone, a key the body carries takes the body's
      value, and every other key keeps the stored one. */
  lemma SpreadThenClear(stored: Fields, body: Fields, nulls: set<Key>)
    ensures var r := Clear(Join(stored, body), nulls);
            && (forall k :: k in nulls ==> !Has(r, k))
            && (forall k :: k !in nulls && Has(body, k) ==> Same(r, body, k))
            && (forall k :: k !in nulls && !Has(body, k) ==> Same(r, stored, k))
  {
    forall k {
      SpreadThenClearAt(stored, body, nulls, k);
    }
  }

  lemma SpreadThenClearAt(stored: Fields, body: Fields, nulls: set<Key>, k: Key)
    ensures var r := Clear(Join(stored, body), nulls);
            && (k in nulls ==> !Has(r, k))
            && (k !in nulls && Has(body, k) ==> Same(r, body, k))
            && (k !in nulls && !Has(body, k) ==> Same(r, stored, k))
  {
    match k
    case _ =>
  }

  /** Spreading an empty object changes nothing, spreading onto an empty
      object copies, spreading twice is spreading once, and successive spreads
      group freely. */
  lemma JoinLaws(a: Fields, b: Fields, c: Fields)
    ensures Join(a, NoFields) == a
    ensures Join(NoFields, a) == a
    ensures Join(Join(a, b), b) == Join(a, b)
    ensures Join(Join(a, b), c) == Join(a, Join(b, c))
  {
  }

  /** A stored listing.  `_id`, `views` and both timestamps are always present
      on a stored record; the data fields may be missing. */
  datatype Listing = Listing(id: nat, views: int, createdAt: int, updatedAt: int, fields: Fields)

  /** A request body or update object: any field, the system ones included,
      may be present. */
  datatype ListingPatch = ListingPatch(id: Option<nat>, views: Option<int>, createdAt: Option<int>,
                                       updatedAt: Option<int>, fields: Fields)

  const EmptyPatch: ListingPatch := ListingPatch(None, None, None, None, NoFields)

  /** `{ ...l, ...p }`: whatever `p` carries replaces what `l` has, and the
      rest of `l` stays. */
  function Merge(l: Listing, p: ListingPatch): (r: Listing)
    ensures r.id == (if p.id.Some? then p.id.value else l.id)
    ensures r.views == (if p.views.Some? then p.views.value else l.views)
    ensures r.createdAt == (if p.createdAt.Some? then p.createdAt.value else l.createdAt)
    ensures r.updatedAt == (if p.updatedAt.Some? then p.updatedAt.value else l.updatedAt)
    ensures forall k :: Has(p.fields, k) ==> Same(r.fields, p.fields, k)
    ensures forall k :: !Has(p.fields, k) ==> Same(r.fields, l.fields, k)
  {
    Listing(p.id.GetOr(l.id), p.views.GetOr(l.views), p.createdAt.GetOr(l.createdAt),
            p.updatedAt.GetOr(l.updatedAt), Join(l.fields, p.fields))
  }

  /** A patch that carries no field leaves the listing as it is, and merging
      the same patch twice is merging it once. */
  lemma MergeLaws(l: Listing, p: ListingPatch)
    ensures Merge(l, EmptyPatch) == l
    ensures Merge(Merge(l, p), p) == Merge(l, p)
  {
    JoinLaws(l.fields, p.fields, NoFields);
  }

  /** A listing is searchable when its status is on sale; a missing status
      is not. */
  predicate IsActive(l: Listing) {
    l.fields.status == Some(ActiveStatus)
  }

  const DefaultViews: int := 0
  const DefaultBathrooms: int := 1

  /** The schema defaults for the data fields; the two array paths start
      out empty. */
  const FieldDefaults: Fields := NoFields.(bathrooms := Some(DefaultBathrooms), images := Some([]),
                                           features := Some([]), status := Some(ActiveStatus))

  /** The pre-save hook: every save stamps `updatedAt` and nothing else. */
  function PreSave(l: Listing, now: int): (r: Listing)
    ensures r.updatedAt == now
    ensures r.(updatedAt := l.updatedAt) == l
  {
    l.(updatedAt := now)
  }

  /** `new Property(data)` followed by the pre-save hook: the schema defaults
      fill exactly the fields `data` leaves out. */
  function NewDocument(data: ListingPatch, id: nat, now: int): (r: Listing)
    ensures r.id == id && r.updatedAt == now
    ensures r.views == (if data.views.Some? then data.views.value else DefaultViews)
    ensures r.createdAt == (if data.createdAt.Some? then data.createdAt.value else now)
    ensures r.fields.status == (if data.fields.status.Some? then data.fields.status else Some(ActiveStatus))
    ensures r.fields.bathrooms == (if data.fields.bathrooms.Some? then data.fields.bathrooms else Some(DefaultBathrooms))
    ensures r.fields.images == (if data.fields.images.Some? then data.fields.images else Some([]))
    ensures r.fields.features == (if data.fields.features.Some? then data.fields.features else Some([]))
    ensures forall k :: Has(data.fields, k) ==> Same(r.fields, data.fields, k)
    ensures forall k :: !Has(data.fields, k) ==> Same(r.fields, FieldDefaults, k)
  {
    var doc := Listing(id, data.views.GetOr(DefaultViews), data.createdAt.GetOr(now), now,
                       Join(FieldDefaults, data.fields));
    PreSave(doc, now)
  }

  /** Mongoose's validation of a document on save: the required fields are
      present (a required string must not be empty) and every enumerated
      field holds one of its labels. */
  predicate SchemaValid(l: Listing) {
    && l.fields.title.Some? && l.fields.title.value != ""
    && l.fields.description.Some? && l.fields.description.value != ""
    && l.fields.propertyType.Some? && ParsePropertyType(l.fields.propertyType.value).Some?
    && l.fields.dealType.Some? && ParseDealType(l.fields.dealType.value).Some?
    && l.fields.price.Some?
    && l.fields.area.Some?
    && l.fields.rooms.Some?
    && l.fields.broker.Some?
    && (l.fields.status.Some? ==> ParseStatus(l.fields.status.value).Some?)
  }

  /** Validation reads only the data fields: the id, the view count and the
      timestamps never decide it. */
  lemma ValidityIsAboutFields(l: Listing, m: Listing)
    requires l.fields == m.fields
    ensures SchemaValid(l) <==> SchemaValid(m)
  {
  }

  /** A body that supplies every required field with a valid enumerated value,
      and no status or a valid one, yields a valid, on-sale-by-default document;
      a body that lacks a required field never does, whatever the defaults. */
  lemma NewDocumentValidity(data: ListingPatch, id: nat, now: int)
    ensures var f := data.fields;
      SchemaValid(NewDocument(data, id, now)) <==>
        && f.title.Some? && f.title.value != ""
        && f.description.Some? && f.description.value != ""
        && f.propertyType.Some? && f.propertyType.value in PropertyTypeLabels
        && f.dealType.Some? && f.dealType.value in DealTypeLabels
        && f.price.Some? && f.area.Some? && f.rooms.Some? && f.broker.Some?
        && (f.status.Some? ==> f.status.value in StatusLabels)
  {
  }
}

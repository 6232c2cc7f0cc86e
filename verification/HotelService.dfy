/** The hotel service: a table of hotels, and one cache that holds list answers and single hotels. Requests name a
    hotel as they like: the database compares what the spelling denotes, the cache compares the spelling. */
module HotelService {
  import opened SequenceFacts
  import opened Ids
  import opened CacheKeys
  import opened QueryCache

  type Id = string

  datatype Hotel = Hotel(name: string, city: string, country: string, address: string, isActive: bool, createdBy: Id)

  type HotelTable = map<Id, Hotel>

  datatype Page = Page(items: seq<(Id, Hotel)>, total: nat)

  /** A room type of a hotel with its characteristics and rate options, and the benefit links of each rate
      option; rows of other services. */
  datatype Offer = Offer(roomTypeId: Id, characteristicIds: seq<Id>, rates: seq<Rate>)

  datatype Rate = Rate(id: Id, pricePerNight: real, benefitLinkIds: seq<Id>)

  type OfferTable = map<Id, seq<Offer>>

  /** What a lookup by id answers: the hotel joined with its room types. */
  datatype Detail = Detail(hotel: Hotel, offers: seq<Offer>)

  datatype Cached = ListAnswer(page: Page) | HotelAnswer(detail: Detail)

  /** An update body: the fields it names. */
  datatype Changes = Changes(name: Option<string>, city: Option<string>, country: Option<string>,
                             address: Option<string>, isActive: Option<bool>)

  datatype Refusal = AdminsOnly | HotelNotFound | HotelInUse | StorageFailed

  function MergeHotel(h: Hotel, c: Changes): Hotel {
    Hotel(Or(c.name, h.name), Or(c.city, h.city), Or(c.country, h.country), Or(c.address, h.address),
          Or(c.isActive, h.isActive), h.createdBy)
  }

  // ---- what the database would answer ------------------------------------------------------

  /** Guests see active hotels; admins may filter on `isActive`. */
  predicate RowVisible(h: Hotel, fields: Fields, isAdmin: bool) {
    if !isAdmin then h.isActive
    else "isActive" in fields ==> fields["isActive"] == Bool(h.isActive)
  }

  /** An absent or empty id list asks for nothing. */
  predicate Asks(fields: Fields, name: string) {
    name in fields && fields[name].Arr? && fields[name].items != []
  }

  predicate AsksJoin(fields: Fields) {
    Asks(fields, "roomTypeIds") || Asks(fields, "roomCharacteristicIds") || AsksRate(fields)
  }

  predicate AsksRate(fields: Fields) {
    Asks(fields, "rateOptionIds") || Asks(fields, "rateOptionBenefitIds") ||
    "minPrice" in fields || "maxPrice" in fields
  }

  predicate OneOf(fields: Fields, name: string, ids: seq<Id>) {
    Asks(fields, name) ==> exists id :: id in ids && id in AllKeys(fields[name].items)
  }

  /** A rate option must satisfy all price and rate conditions at once. `number` reads a number's text. */
  predicate RateMatches(rate: Rate, number: string -> real, fields: Fields) {
    && OneOf(fields, "rateOptionIds", [rate.id])
    && OneOf(fields, "rateOptionBenefitIds", rate.benefitLinkIds)
    && ("minPrice" in fields ==> fields["minPrice"].Num? && rate.pricePerNight >= number(fields["minPrice"].text))
    && ("maxPrice" in fields ==> fields["maxPrice"].Num? && rate.pricePerNight <= number(fields["maxPrice"].text))
  }

  predicate OfferMatches(offer: Offer, number: string -> real, fields: Fields) {
    && OneOf(fields, "roomTypeIds", [offer.roomTypeId])
    && OneOf(fields, "roomCharacteristicIds", offer.characteristicIds)
    && (AsksRate(fields) ==> exists rate :: rate in offer.rates && RateMatches(rate, number, fields))
  }

  /** The joins are made only when asked for; then one joined row must meet every condition. */
  predicate Offering(offers: seq<Offer>, number: string -> real, fields: Fields) {
    AsksJoin(fields) ==> exists offer :: offer in offers && OfferMatches(offer, number, fields)
  }

  function OffersOf(offers: OfferTable, id: Id): seq<Offer> {
    if id in offers then offers[id] else []
  }

  /** The rows of a list query, before they are searched, ordered and paged. */
  function Rows(hotels: HotelTable, offers: OfferTable, number: string -> real, fields: Fields,
                isAdmin: bool): HotelTable {
    map id | id in hotels && RowVisible(hotels[id], fields, isAdmin) &&
      Offering(OffersOf(offers, id), number, fields) ::
      hotels[id]
  }

  /** `browse` stands for the search term, order and page of the query. */
  function ListHotels(hotels: HotelTable, offers: OfferTable, number: string -> real,
                      browse: (HotelTable, Fields) -> Page, fields: Fields, isAdmin: bool): Page {
    browse(Rows(hotels, offers, number, fields, isAdmin), fields)
  }

  function FindHotel(hotels: HotelTable, offers: OfferTable, id: Id, isAdmin: bool): Option<Detail> {
    if id in hotels && (isAdmin || hotels[id].isActive) then Some(Detail(hotels[id], OffersOf(offers, id))) else None
  }

  function AsksAsAdmin(q: ListQuery): bool {
    q.HotelList? && q.isAdmin
  }

  function RowsOf(hotels: HotelTable, offers: OfferTable, number: string -> real): ListQuery -> HotelTable {
    (q: ListQuery) => Rows(hotels, offers, number, FieldsOf(q.filter), AsksAsAdmin(q))
  }

  /** The cache holds pages and single hotels. */
  function ListPages(browse: (HotelTable, Fields) -> Page): (HotelTable, Fields) -> Cached {
    (rows, fields) => ListAnswer(browse(rows, fields))
  }

  function ListAnswers(hotels: HotelTable, offers: OfferTable, number: string -> real,
                       browse: (HotelTable, Fields) -> Page): ListQuery -> Cached {
    Paged(RowsOf(hotels, offers, number), ListPages(browse))
  }

  // ---- cached hotels -----------------------------------------------------------------------

  /** What is cached for the spelling, if anything is, is what a lookup would find now. */
  ghost predicate DetailRight(c: Entries<Cached>, id: Id, isAdmin: bool, hotels: HotelTable, offers: OfferTable) {
    HotelDetailKey(id, isAdmin) in c ==>
      && FindHotel(hotels, offers, Key(id), isAdmin).Some?
      && c[HotelDetailKey(id, isAdmin)] == Answer(HotelAnswer(FindHotel(hotels, offers, Key(id), isAdmin).value))
  }

  ghost predicate DetailsFresh(c: Entries<Cached>, hotels: HotelTable, offers: OfferTable) {
    forall id, a :: DetailRight(c, id, a, hotels, offers)
  }

  /** A detail entry is deleted by its own key, so losing entries, by expiry or eviction, at any time
      never makes a cached hotel stale. */
  lemma ExpiryKeepsDetailsFresh(c: Entries<Cached>, d: Entries<Cached>, hotels: HotelTable, offers: OfferTable)
    requires DetailsFresh(c, hotels, offers) && forall k :: k in d ==> k in c && d[k] == c[k]
    ensures DetailsFresh(d, hotels, offers)
  {
    forall id, a ensures DetailRight(d, id, a, hotels, offers) {
      assert DetailRight(c, id, a, hotels, offers);
    }
  }

  /** The cache after a write to the hotel that the request spells `id`. */
  function Dropped(c: Entries<Cached>, id: Id): Entries<Cached> {
    Invalidated(c - {HotelDetailKey(id, true)} - {HotelDetailKey(id, false)}, HOTEL_REGISTRY)
  }

  /** The cache holds pages under list keys and hotels under detail keys, and lists no hotel. */
  ghost predicate Typed(c: Entries<Cached>) {
    && (forall q :: Askable(q) && ServiceOf(q) == Hotels && KeyOf(q) in c ==>
          c[KeyOf(q)].Answer? && c[KeyOf(q)].value.ListAnswer?)
    && (forall id, a :: HotelDetailKey(id, a) in c ==>
          c[HotelDetailKey(id, a)].Answer? && c[HotelDetailKey(id, a)].value.HotelAnswer?)
    && (forall id, a :: HotelDetailKey(id, a) !in Listed(c, HOTEL_REGISTRY))
  }

  lemma DetailKeysApart(id: Id, a: bool, x: Id, b: bool)
    ensures HotelDetailKey(id, a) == HotelDetailKey(x, b) <==> id == x && a == b
    ensures HotelDetailKey(id, a) != HOTEL_REGISTRY
  {
    HotelDetailKeyIsCanonical(id, a, x, b);
    HotelKeysApart([], true, id, a);
  }

  lemma DroppedDetails(c: Entries<Cached>, id: Id, x: Id, a: bool)
    requires Typed(c)
    ensures HotelDetailKey(x, a) in Dropped(c, id) <==> HotelDetailKey(x, a) in c && x != id
    ensures HotelDetailKey(x, a) in Dropped(c, id) ==> Dropped(c, id)[HotelDetailKey(x, a)] == c[HotelDetailKey(x, a)]
  {
    DetailKeysApart(x, a, id, true);
    DetailKeysApart(x, a, id, false);
    DetailKeysApart(id, true, x, a);
    DetailKeysApart(id, false, x, a);
  }

  /** After a write through the spelling `id`, a cached hotel that was right is right exactly when it was asked for with
      this spelling and so is gone, or a lookup finds the same: when it names another hotel, or the write changed
      nothing that it shows. */
  lemma DetailAfterWriteIff(c: Entries<Cached>, id: Id, before: HotelTable, after: HotelTable, offers: OfferTable,
                            x: Id, a: bool)
    requires Typed(c) && DetailRight(c, x, a, before, offers)
    requires forall other :: other != Key(id) ==>
               (other in after <==> other in before) && (other in before ==> after[other] == before[other])
    ensures DetailRight(Dropped(c, id), x, a, after, offers) <==>
              || HotelDetailKey(x, a) !in c || x == id || Key(x) != Key(id)
              || FindHotel(before, offers, Key(x), a) == FindHotel(after, offers, Key(x), a)
  {
    DroppedDetails(c, id, x, a);
  }

  /** Every cached hotel is right after the write exactly when that holds of each. */
  lemma DetailsAfterWriteIff(c: Entries<Cached>, id: Id, before: HotelTable, after: HotelTable, offers: OfferTable)
    requires Typed(c) && DetailsFresh(c, before, offers)
    requires forall other :: other != Key(id) ==>
               (other in after <==> other in before) && (other in before ==> after[other] == before[other])
    ensures DetailsFresh(Dropped(c, id), after, offers) <==>
            forall x, a :: HotelDetailKey(x, a) in c && x != id && Key(x) == Key(id) ==>
              FindHotel(before, offers, Key(x), a) == FindHotel(after, offers, Key(x), a)
  {
    forall x, a
      ensures DetailRight(Dropped(c, id), x, a, after, offers) <==>
              (HotelDetailKey(x, a) in c && x != id && Key(x) == Key(id) ==>
               FindHotel(before, offers, Key(x), a) == FindHotel(after, offers, Key(x), a))
    {
      DetailAfterWriteIff(c, id, before, after, offers, x, a);
    }
  }

  /** The cache after a lookup that finds the hotel. */
  function WithDetail(c: Entries<Cached>, id: Id, isAdmin: bool, detail: Detail): Entries<Cached> {
    c[HotelDetailKey(id, isAdmin) := Answer(HotelAnswer(detail))]
  }

  /** It happens: `HOTEL` is looked up, the hotel is removed through `hotel`, which is the same hotel, and `HOTEL` is
      still found in the cache. */
  lemma RemovalMissesOtherSpelling(hotel: Hotel, isAdmin: bool)
    requires hotel.isActive
    ensures var before: HotelTable := map["hotel" := hotel];
            var found := FindHotel(before, map[], Key("HOTEL"), isAdmin);
            && found == Some(Detail(hotel, [])) &&
              FindHotel(before - {Key("hotel")}, map[], Key("HOTEL"), isAdmin) == None
            && Holds(Dropped(WithDetail(map[], "HOTEL", isAdmin, found.value), "hotel"),
                     HotelDetailKey("HOTEL", isAdmin), HotelAnswer(found.value))
  {
    HotelSpellings();
    var c := WithDetail(map[], "HOTEL", isAdmin, Detail(hotel, []));
    DetailKeysApart("HOTEL", isAdmin, "hotel", true);
    DetailKeysApart("HOTEL", isAdmin, "hotel", false);
    assert Listed(c - {HotelDetailKey("hotel", true)} - {HotelDetailKey("hotel", false)}, HOTEL_REGISTRY) == [];
  }

  lemma RowsOfQuery(hotels: HotelTable, offers: OfferTable, number: string -> real)
    ensures OfQuery(RowsOf(hotels, offers, number))
  {
  }

  /** Storing or deleting hotels leaves the lists and their registry as they are. */
  lemma DetailChangeKeepsTidy(c: Entries<Cached>, d: Entries<Cached>, id: Id)
    requires Tidy(c, Hotels)
    requires forall k :: k != HotelDetailKey(id, true) && k != HotelDetailKey(id, false) ==>
               (k in d <==> k in c) && (k in c ==> d[k] == c[k])
    ensures Tidy(d, Hotels) && Listed(d, HOTEL_REGISTRY) == Listed(c, HOTEL_REGISTRY)
    ensures forall q :: Askable(q) && ServiceOf(q) == Hotels ==>
              (KeyOf(q) in d <==> KeyOf(q) in c) && (KeyOf(q) in c ==> d[KeyOf(q)] == c[KeyOf(q)])
  {
    DetailKeysApart(id, true, id, true);
    DetailKeysApart(id, false, id, false);
    forall q | Askable(q) && ServiceOf(q) == Hotels
      ensures (KeyOf(q) in d <==> KeyOf(q) in c) && (KeyOf(q) in c ==> d[KeyOf(q)] == c[KeyOf(q)])
    {
      HotelKeysApart(q.filter, q.isAdmin, id, true);
      HotelKeysApart(q.filter, q.isAdmin, id, false);
    }
    OtherEntriesKeepTidy(c, d, Hotels);
  }

  lemma DetailFillKeepsTyped(c: Entries<Cached>, id: Id, isAdmin: bool, detail: Detail)
    requires Typed(c) && Tidy(c, Hotels)
    ensures Typed(WithDetail(c, id, isAdmin, detail)) && Tidy(WithDetail(c, id, isAdmin, detail), Hotels)
  {
    DetailChangeKeepsTidy(c, WithDetail(c, id, isAdmin, detail), id);
  }

  lemma ListFillKeepsTyped(c: Entries<Cached>, q: ListQuery, page: Page)
    requires Typed(c) && Askable(q) && q.HotelList?
    ensures Typed(Filled(c, q, ListAnswer(page)))
  {
    forall p | Askable(p) && ServiceOf(p) == Hotels
      ensures KeyOf(p) in Filled(c, q, ListAnswer(page)) ==>
                Filled(c, q, ListAnswer(page))[KeyOf(p)].Answer? &&
                  Filled(c, q, ListAnswer(page))[KeyOf(p)].value.ListAnswer?
    {
      FillSeenBy(c, q, ListAnswer(page), p);
    }
    forall id, a
      ensures var d := Filled(c, q, ListAnswer(page));
              && (HotelDetailKey(id, a) in d ==>
                  HotelDetailKey(id, a) in c && d[HotelDetailKey(id, a)] == c[HotelDetailKey(id, a)])
              && HotelDetailKey(id, a) !in Listed(d, HOTEL_REGISTRY)
    {
      HotelKeysApart(q.filter, q.isAdmin, id, a);
      FillSeenBy(c, q, ListAnswer(page), q);
    }
  }

  lemma DroppingKeepsTyped(c: Entries<Cached>, id: Id)
    requires Typed(c) && Tidy(c, Hotels)
    ensures Typed(Dropped(c, id)) && Tidy(Dropped(c, id), Hotels)
  {
    var d := c - {HotelDetailKey(id, true)} - {HotelDetailKey(id, false)};
    DetailChangeKeepsTidy(c, d, id);
    InvalidateKeepsTidy(d, AllHotels());
  }

  function AllHotels(): (w: ListQuery)
    ensures Askable(w) && ServiceOf(w) == Hotels && RegistryOf(w) == HOTEL_REGISTRY
  {
    HotelList([], true)
  }

  /** All hotel lists share one registry: after the service's own writes every stored list is right. */
  lemma OwnWriteLeavesListsRight(c: Entries<Cached>, answer: ListQuery -> Cached)
    requires Tidy(c, Hotels)
    ensures Coherent(Invalidated(c, HOTEL_REGISTRY), Hotels, answer)
  {
    InvalidateKeepsTidy(c, AllHotels());
  }

  lemma OfferWriteKeepsDetailsIff(c: Entries<Cached>, hotels: HotelTable, before: OfferTable, after: OfferTable)
    requires DetailsFresh(c, hotels, before)
    ensures DetailsFresh(c, hotels, after) <==>
            forall id, a :: HotelDetailKey(id, a) in c ==> OffersOf(before, Key(id)) == OffersOf(after, Key(id))
  {
    forall id, a
      ensures DetailRight(c, id, a, hotels, after) <==>
              (HotelDetailKey(id, a) in c ==> OffersOf(before, Key(id)) == OffersOf(after, Key(id)))
    {
      assert DetailRight(c, id, a, hotels, before);
    }
  }

  /** Some visible hotel begins or ceases to offer what the filter asks for. */
  ghost predicate OffersTouch(hotels: HotelTable, before: OfferTable, after: OfferTable, number: string -> real,
                              fields: Fields, isAdmin: bool) {
    exists id :: id in hotels && RowVisible(hotels[id], fields, isAdmin) &&
      Offering(OffersOf(before, id), number, fields) != Offering(OffersOf(after, id), number, fields)
  }

  lemma OffersChangeRowsIff(hotels: HotelTable, before: OfferTable, after: OfferTable, number: string -> real,
                            fields: Fields, isAdmin: bool)
    ensures Rows(hotels, before, number, fields, isAdmin) != Rows(hotels, after, number, fields, isAdmin) <==>
            OffersTouch(hotels, before, after, number, fields, isAdmin)
  {
    var a, b := Rows(hotels, before, number, fields, isAdmin), Rows(hotels, after, number, fields, isAdmin);
    if id :| id in hotels && RowVisible(hotels[id], fields, isAdmin) &&
             Offering(OffersOf(before, id), number, fields) != Offering(OffersOf(after, id), number, fields) {
      assert id in a <==> id !in b;
    }
  }

  const EMPTY_PAGE := Page([], 0)

  /** A write of another service leaves the stored lists right, however they are searched, ordered and paged,
      exactly when no visible hotel begins or ceases to offer what a stored filter asks for. */
  lemma OfferWriteRightIff(hotels: HotelTable, before: OfferTable, after: OfferTable, number: string -> real,
                           stored: seq<ListQuery>)
    requires AllAskable(stored, Hotels)
    ensures (forall browse: (HotelTable, Fields) -> Page ::
               Coherent(FillAll(map[], stored, Paged(RowsOf(hotels, before, number), browse)), Hotels,
                        Paged(RowsOf(hotels, after, number), browse))) <==>
            forall i :: 0 <= i < |stored| ==>
              !OffersTouch(hotels, before, after, number, FieldsOf(stored[i].filter), AsksAsAdmin(stored[i]))
  {
    RowsOfQuery(hotels, before, number);
    RowsOfQuery(hotels, after, number);
    RightForEveryPageIff(stored, Hotels, RowsOf(hotels, before, number), RowsOf(hotels, after, number), EMPTY_PAGE,
                         EMPTY_PAGE.(total := 1));
    forall i | 0 <= i < |stored|
      ensures RowsOf(hotels, before, number)(stored[i]) == RowsOf(hotels, after, number)(stored[i]) <==>
              !OffersTouch(hotels, before, after, number, FieldsOf(stored[i].filter), AsksAsAdmin(stored[i]))
    {
      OffersChangeRowsIff(hotels, before, after, number, FieldsOf(stored[i].filter), AsksAsAdmin(stored[i]));
    }
  }

  lemma OfferWriteRightForOneIff(hotels: HotelTable, before: OfferTable, after: OfferTable, number: string -> real,
                                 q: ListQuery)
    requires Askable(q) && ServiceOf(q) == Hotels
    ensures (forall browse: (HotelTable, Fields) -> Page ::
               Coherent(FillAll(map[], [q], Paged(RowsOf(hotels, before, number), browse)), Hotels,
                        Paged(RowsOf(hotels, after, number), browse))) <==>
            !OffersTouch(hotels, before, after, number, FieldsOf(q.filter), AsksAsAdmin(q))
  {
    OfferWriteRightIff(hotels, before, after, number, [q]);
    assert [q][0] == q;
  }

  /** `?maxPrice=...`. */
  function UpToList(price: string): ListQuery {
    HotelList([Prop("maxPrice", Some(Num(price)))], false)
  }

  lemma UpToFields(price: string)
    ensures FieldsOf(UpToList(price).filter) == map["maxPrice" := Num(price)]
    ensures Printable(Num(price)) ==> Askable(UpToList(price))
  {
    var filter := UpToList(price).filter;
    assert filter[1..] == [] && Names(filter) == ["maxPrice"];
    assert forall name :: Lookup(filter, name) == if name == "maxPrice" then Some(Num(price)) else Lookup([], name);
  }

  function Repriced(offer: Offer, rate: Rate, price: real): Offer {
    offer.(rates := [rate.(pricePerNight := price)])
  }

  lemma PriceTouchesIff(hotel: Hotel, id: Id, offer: Offer, rate: Rate, price: real, number: string -> real,
                        limit: string)
    requires hotel.isActive && offer.rates == [rate]
    ensures OffersTouch(map[id := hotel], map[id := [offer]], map[id := [Repriced(offer, rate, price)]], number,
                        map["maxPrice" := Num(limit)], false) <==>
            (rate.pricePerNight <= number(limit)) != (price <= number(limit))
  {
    var fields: Fields := map["maxPrice" := Num(limit)];
    UpToOffering(offer, rate, number, limit, fields);
    UpToOffering(Repriced(offer, rate, price), rate.(pricePerNight := price), number, limit, fields);
    var hotels: HotelTable := map[id := hotel];
    assert id in hotels && RowVisible(hotels[id], map["maxPrice" := Num(limit)], false);
    var before: OfferTable, after: OfferTable := map[id := [offer]], map[id := [Repriced(offer, rate, price)]];
    assert OffersOf(before, id) == [offer] && OffersOf(after, id) == [Repriced(offer, rate, price)];
  }

  /** It happens: after the list of hotels up to a price has been read, a price change leaves it right exactly
      when the old and the new price lie on the same side of that price. */
  lemma PriceChangeLeavesListRightIff(hotel: Hotel, id: Id, offer: Offer, rate: Rate, price: real,
                                      number: string -> real, limit: string)
    requires hotel.isActive && offer.rates == [rate] && Printable(Num(limit))
    ensures var was := RowsOf(map[id := hotel], map[id := [offer]], number);
            var now := RowsOf(map[id := hotel], map[id := [Repriced(offer, rate, price)]], number);
            (forall browse: (HotelTable, Fields) -> Page ::
               Coherent(FillAll(map[], [UpToList(limit)], Paged(was, browse)), Hotels, Paged(now, browse))) <==>
            (rate.pricePerNight <= number(limit) <==> price <= number(limit))
  {
    UpToFields(limit);
    PriceTouchesIff(hotel, id, offer, rate, price, number, limit);
    OfferWriteRightForOneIff(map[id := hotel], map[id := [offer]], map[id := [Repriced(offer, rate, price)]], number,
                             UpToList(limit));
  }

  /** The filter asks for a highest price and for no other joined row. */
  ghost predicate UpTo(fields: Fields, limit: string) {
    "maxPrice" in fields && fields["maxPrice"] == Num(limit) && fields.Keys <= {"maxPrice", "getAll"}
  }

  lemma UpToOffering(offer: Offer, rate: Rate, number: string -> real, limit: string, fields: Fields)
    requires offer.rates == [rate] && UpTo(fields, limit)
    ensures Offering([offer], number, fields) <==> rate.pricePerNight <= number(limit)
  {
    assert forall name :: name in fields ==> name == "maxPrice" || name == "getAll";
    assert RateMatches(rate, number, fields) <==> rate.pricePerNight <= number(limit);
    assert rate in offer.rates && offer in [offer];
  }

  /** Asked for everything and not searched, a page holds each matching row. */
  ghost predicate ListsAll(browse: (HotelTable, Fields) -> Page) {
    forall rows, fields :: GetsAll(fields) && "search" !in fields ==> Elements(browse(rows, fields).items) == rows.Items
  }

  /** An unpaged list is stale after a write of another service exactly when some visible hotel begins or ceases to
      offer what it asks for. */
  lemma UnpagedListStaleIff(hotels: HotelTable, before: OfferTable, after: OfferTable, number: string -> real,
                            browse: (HotelTable, Fields) -> Page, q: ListQuery)
    requires ListsAll(browse) && GetsAll(FieldsOf(q.filter)) && "search" !in FieldsOf(q.filter)
    ensures ListAnswers(hotels, before, number, browse)(q) != ListAnswers(hotels, after, number, browse)(q) <==>
            OffersTouch(hotels, before, after, number, FieldsOf(q.filter), AsksAsAdmin(q))
  {
    var fields := FieldsOf(q.filter);
    var a := Rows(hotels, before, number, fields, AsksAsAdmin(q));
    var b := Rows(hotels, after, number, fields, AsksAsAdmin(q));
    OffersChangeRowsIff(hotels, before, after, number, fields, AsksAsAdmin(q));
    if browse(a, fields) == browse(b, fields) {
      SameItems(a, b);
    }
  }

  /** `?maxPrice=...&getAll=true`. */
  function AllUpTo(limit: string): ListQuery {
    HotelList([Prop("maxPrice", Some(Num(limit))), Prop("getAll", Some(Bool(true)))], false)
  }

  lemma AllUpToFields(limit: string)
    requires Printable(Num(limit))
    ensures Askable(AllUpTo(limit))
    ensures FieldsOf(AllUpTo(limit).filter) == map["maxPrice" := Num(limit), "getAll" := Bool(true)]
  {
    var filter := AllUpTo(limit).filter;
    assert filter == [filter[0], filter[1]];
    assert "maxPrice"[0] != "getAll"[0];
    assert Names(filter) == ["maxPrice", "getAll"];
    forall name
      ensures Lookup(filter, name) == if name == "maxPrice" then Some(Num(limit))
                                      else if name == "getAll" then Some(Bool(true)) else None
    {
      LookupOfTwo(filter[0], filter[1], name);
    }
  }

  lemma RowsUpTo(hotel: Hotel, id: Id, offer: Offer, rate: Rate, number: string -> real, limit: string)
    requires hotel.isActive && offer.rates == [rate]
    ensures var fields: Fields := map["maxPrice" := Num(limit), "getAll" := Bool(true)];
            Rows(map[id := hotel], map[id := [offer]], number, fields, false) == map[] <==>
            rate.pricePerNight > number(limit)
  {
    var fields: Fields := map["maxPrice" := Num(limit), "getAll" := Bool(true)];
    UpToOffering(offer, rate, number, limit, fields);
    OneHotelRows(hotel, id, offer, number, fields);
  }

  lemma OneHotelRows(hotel: Hotel, id: Id, offer: Offer, number: string -> real, fields: Fields)
    requires hotel.isActive
    ensures Rows(map[id := hotel], map[id := [offer]], number, fields, false) == map[] <==>
            !Offering([offer], number, fields)
  {
    var rows := Rows(map[id := hotel], map[id := [offer]], number, fields, false);
    assert id in rows <==> Offering([offer], number, fields);
  }

  /** It happens: a stored list of all hotels up to a price still shows a hotel whose price has risen above it. */
  lemma PriceRiseLeavesListStale(hotel: Hotel, id: Id, offer: Offer, rate: Rate, price: real, number: string -> real,
                                 browse: (HotelTable, Fields) -> Page, limit: string)
    requires hotel.isActive && offer.rates == [rate] && Printable(Num(limit)) && ListsAll(browse)
    requires rate.pricePerNight <= number(limit) < price
    ensures var q := AllUpTo(limit);
            var was := ListAnswers(map[id := hotel], map[id := [offer]], number, browse);
            var now := ListAnswers(map[id := hotel], map[id := [Repriced(offer, rate, price)]], number, browse);
            && Holds(FillAll(map[], [q], was), KeyOf(q), was(q))
            && was(q).page.items != [] && now(q).page.items == []
  {
    var q := AllUpTo(limit);
    AllUpToFields(limit);
    ReadIsStored(q, ListAnswers(map[id := hotel], map[id := [offer]], number, browse));
    RowsUpTo(hotel, id, offer, rate, number, limit);
    RowsUpTo(hotel, id, Repriced(offer, rate, price), rate.(pricePerNight := price), number, limit);
    AllItemsIff(browse, Rows(map[id := hotel], map[id := [offer]], number, FieldsOf(q.filter), false),
                FieldsOf(q.filter));
    AllItemsIff(browse, Rows(map[id := hotel], map[id := [Repriced(offer, rate, price)]], number, FieldsOf(q.filter),
                             false), FieldsOf(q.filter));
  }

  lemma AllItemsIff(browse: (HotelTable, Fields) -> Page, rows: HotelTable, fields: Fields)
    requires ListsAll(browse) && GetsAll(fields) && "search" !in fields
    ensures browse(rows, fields).items == [] <==> rows == map[]
  {
    NoItemsIff(browse(rows, fields).items, rows);
  }

  /** No stored list is touched. */
  ghost predicate NoneOffersTouched(c: Entries<Cached>, hotels: HotelTable, before: OfferTable, after: OfferTable,
                                    number: string -> real) {
    forall q :: Askable(q) && ServiceOf(q) == Hotels && KeyOf(q) in c ==>
      !OffersTouch(hotels, before, after, number, FieldsOf(q.filter), AsksAsAdmin(q))
  }

  class HotelService {
    var hotels: HotelTable
    var offers: OfferTable
    const number: string -> real
    const browse: (HotelTable, Fields) -> Page
    const cache: KeyedCache<Cached>

    ghost predicate Valid()
      reads this, cache
    {
      Tidy(cache.entries, Hotels) && Typed(cache.entries)
    }

    /** Every stored list is right. */
    ghost predicate ListsFresh()
      reads this, cache
    {
      Coherent(cache.entries, Hotels, ListAnswers(hotels, offers, number, browse))
    }

    constructor (hotels: HotelTable, offers: OfferTable, number: string -> real, browse: (HotelTable, Fields) -> Page)
      ensures Valid() && fresh(cache) && cache.entries == map[] && this.hotels == hotels && this.offers == offers
      ensures this.number == number && this.browse == browse
    {
      this.hotels := hotels;
      this.offers := offers;
      this.number := number;
      this.browse := browse;
      this.cache := new KeyedCache();
    }

    /** The stored page, or what the database gives, which is then stored. */
    method FindAll(filter: seq<Prop>, isAdmin: bool) returns (r: Page)
      requires Valid() && IsObject(filter)
      modifies cache
      ensures Valid()
      ensures var q := HotelList(filter, isAdmin);
              var now := ListHotels(hotels, offers, number, browse, FieldsOf(filter), isAdmin);
              && ListAnswer(r) == ReadThrough(old(cache.entries), q, ListAnswer(now))
              && cache.entries == AfterRead(old(cache.entries), q, ListAnswer(now))
              && (r == now <==> Right(old(cache.entries), q, ListAnswers(hotels, offers, number, browse)))
    {
      var q := HotelList(filter, isAdmin);
      RowsOfQuery(hotels, offers, number);
      PagedOfQuery(RowsOf(hotels, offers, number), ListPages(browse));
      ReadIsFreshIff(cache.entries, q, ListAnswers(hotels, offers, number, browse));
      if KeyOf(q) in cache.entries {
        return cache.entries[KeyOf(q)].value.page;
      }
      r := ListHotels(hotels, offers, number, browse, FieldsOf(filter), isAdmin);
      ListFillKeepsTyped(cache.entries, q, r);
      cache.Fill(q, ListAnswer(r));
    }

    /** Likewise for one hotel, under the spelling that the request uses; None is the not-found error, which is not
        stored. */
    method FindOne(id: Id, isAdmin: bool) returns (r: Option<Detail>)
      requires Valid()
      modifies cache
      ensures Valid()
      ensures var key, now := HotelDetailKey(id, isAdmin), FindHotel(hotels, offers, Key(id), isAdmin);
              && r == (if key in old(cache.entries) then Some(old(cache.entries)[key].value.detail) else now)
              && cache.entries == (if key in old(cache.entries) || now == None then old(cache.entries)
                                   else WithDetail(old(cache.entries), id, isAdmin, now.value))
              && (r == now <==> DetailRight(old(cache.entries), id, isAdmin, hotels, offers))
    {
      var key := HotelDetailKey(id, isAdmin);
      if key in cache.entries {
        return Some(cache.entries[key].value.detail);
      }
      r := FindHotel(hotels, offers, Key(id), isAdmin);
      if r.Some? {
        DetailFillKeepsTyped(cache.entries, id, isAdmin, r.value);
        cache.entries := cache.entries[key := Answer(HotelAnswer(r.value))];
      }
    }

    method Create(newId: Id, hotel: Hotel, isAdmin: bool) returns (refusal: Option<Refusal>)
      requires Valid()
      modifies this`hotels, cache
      ensures Valid()
      ensures refusal == if !isAdmin then Some(AdminsOnly) else if newId in old(hotels) then Some(StorageFailed)
              else None
      ensures hotels == if refusal == None then old(hotels)[newId := hotel] else old(hotels)
      ensures cache.entries == if refusal == None then Invalidated(old(cache.entries), HOTEL_REGISTRY)
                               else old(cache.entries)
      ensures refusal == None ==> ListsFresh()
    {
      if !isAdmin { return Some(AdminsOnly); }
      if newId in hotels { return Some(StorageFailed); }
      hotels := hotels[newId := hotel];
      InvalidateHotelLists();
      return None;
    }

    method Update(id: Id, changes: Changes, isAdmin: bool) returns (refusal: Option<Refusal>)
      requires Valid()
      modifies this`hotels, cache
      ensures Valid()
      ensures refusal == if !isAdmin then Some(AdminsOnly) else if Key(id) !in old(hotels) then Some(HotelNotFound)
                         else None
      ensures hotels == if refusal == None then old(hotels)[Key(id) := MergeHotel(old(hotels)[Key(id)], changes)]
                        else old(hotels)
      ensures cache.entries == if refusal == None then Dropped(old(cache.entries), id) else old(cache.entries)
      ensures refusal == None ==> ListsFresh()
    {
      if !isAdmin { return Some(AdminsOnly); }
      if Key(id) !in hotels { return Some(HotelNotFound); }
      hotels := hotels[Key(id) := MergeHotel(hotels[Key(id)], changes)];
      DropDetails(id);
      InvalidateHotelLists();
      return None;
    }

    /** A hotel that still has room types is kept by their foreign key; a room has a room type of its hotel. */
    method Remove(id: Id, isAdmin: bool) returns (refusal: Option<Refusal>)
      requires Valid()
      modifies this`hotels, cache
      ensures Valid()
      ensures refusal == if !isAdmin then Some(AdminsOnly) else if Key(id) !in old(hotels) then Some(HotelNotFound)
                         else if OffersOf(offers, Key(id)) != [] then Some(HotelInUse) else None
      ensures hotels == if refusal == None then old(hotels) - {Key(id)} else old(hotels)
      ensures cache.entries == if refusal == None then Dropped(old(cache.entries), id) else old(cache.entries)
      ensures refusal == None ==> ListsFresh()
    {
      if !isAdmin { return Some(AdminsOnly); }
      if Key(id) !in hotels { return Some(HotelNotFound); }
      if OffersOf(offers, Key(id)) != [] { return Some(HotelInUse); }
      hotels := hotels - {Key(id)};
      DropDetails(id);
      InvalidateHotelLists();
      return None;
    }

    /** Another service writes rows that lists are filtered by and details show: nothing is deleted from the
        cache. It stays right exactly when no stored page and no stored detail's rows change; no page does when
        no visible hotel begins or ceases to offer what its filter asks for. */
    method OtherServiceWrites(offers: OfferTable)
      requires Valid()
      modifies this`offers
      ensures Valid() && this.offers == offers
      ensures old(ListsFresh()) ==>
                (ListsFresh() <==> forall q :: Askable(q) && ServiceOf(q) == Hotels && KeyOf(q) in cache.entries ==>
                   ListAnswers(hotels, old(this.offers), number, browse)(q) ==
                     ListAnswers(hotels, offers, number, browse)(q))
      ensures old(ListsFresh()) && NoneOffersTouched(cache.entries, hotels, old(this.offers), offers, number) ==>
                ListsFresh()
      ensures DetailsFresh(cache.entries, hotels, old(this.offers)) ==>
                (DetailsFresh(cache.entries, hotels, offers) <==>
                 forall id, a :: HotelDetailKey(id, a) in cache.entries ==>
                   OffersOf(old(this.offers), Key(id)) == OffersOf(offers, Key(id)))
    {
      var was := this.offers;
      if ListsFresh() {
        SilentWriteKeepsCoherentIff(cache.entries, Hotels, ListAnswers(hotels, was, number, browse),
                                    ListAnswers(hotels, offers, number, browse));
      }
      if DetailsFresh(cache.entries, hotels, was) {
        OfferWriteKeepsDetailsIff(cache.entries, hotels, was, offers);
      }
      forall q: ListQuery | !OffersTouch(hotels, was, offers, number, FieldsOf(q.filter), AsksAsAdmin(q))
        ensures ListAnswers(hotels, was, number, browse)(q) == ListAnswers(hotels, offers, number, browse)(q)
      {
        OffersChangeRowsIff(hotels, was, offers, number, FieldsOf(q.filter), AsksAsAdmin(q));
      }
      this.offers := offers;
    }

    /** Deletes the admin and the guest entry of this spelling. */
    method DropDetails(id: Id)
      requires Valid()
      modifies cache
      ensures Valid()
      ensures cache.entries == old(cache.entries) - {HotelDetailKey(id, true)} - {HotelDetailKey(id, false)}
    {
      ghost var d := cache.entries - {HotelDetailKey(id, true)} - {HotelDetailKey(id, false)};
      DetailChangeKeepsTidy(cache.entries, d, id);
      cache.entries := cache.entries - {HotelDetailKey(id, true)};
      cache.entries := cache.entries - {HotelDetailKey(id, false)};
    }

    method InvalidateHotelLists()
      requires Valid()
      modifies cache
      ensures Valid() && ListsFresh()
      ensures cache.entries == Invalidated(old(cache.entries), HOTEL_REGISTRY)
    {
      OwnWriteLeavesListsRight(cache.entries, ListAnswers(hotels, offers, number, browse));
      cache.InvalidateLists(HOTEL_REGISTRY);
    }
  }
}

/** What the pages of room and hotel lists show, in terms of stored fields and of what the filter names. */
module ListContents {
  import opened SequenceFacts
  import opened Ids
  import opened CacheKeys
  import opened RoomStates
  import opened RoomModel
  import RoomService
  import HotelService

  // ---- rooms -------------------------------------------------------------------------------

  ghost predicate RoomStatusIs(status: RoomStatus, text: string) {
    || (status == Available && text == "AVAILABLE") || (status == Occupied && text == "OCCUPIED")
    || (status == Maintenance && text == "MAINTENANCE") || (status == OutOfService && text == "OUT_OF_SERVICE")
  }

  /** A room of the hotel that the filter asks for. */
  ghost predicate RoomWanted(r: Room, hotelId: Id, fields: Fields) {
    && r.hotelId == Key(hotelId)
    && (forall text :: LooksFor(fields, "roomTypeId", text) ==> r.roomTypeId == Key(text))
    && (forall text :: LooksFor(fields, "status", text) ==> RoomStatusIs(r.status, text))
  }

  /** The query finds exactly these rooms, each with the row of its type if there is one. */
  lemma RoomRowsAreWanted(rooms: map<Id, Room>, typeRows: map<Id, RoomService.TypeRow>, hotelId: Id, fields: Fields,
                          r: Id)
    ensures var rows := RoomService.Rows(rooms, typeRows, Key(hotelId), fields);
            && (r in rows <==> r in rooms && RoomWanted(rooms[r], hotelId, fields))
            && (r in rows ==> rows[r].room == rooms[r])
            && (r in rows && rooms[r].roomTypeId in typeRows ==>
                rows[r].roomType == Some(typeRows[rooms[r].roomTypeId]))
            && (r in rows && rooms[r].roomTypeId !in typeRows ==> rows[r].roomType == None)
  {
    forall name | name in fields && fields[name].Str? && fields[name].s != ""
      ensures LooksFor(fields, name, fields[name].s)
    {
    }
  }

  /** A page shows rows of the query, and all of them when asked for everything. */
  ghost predicate ShowsRooms(browse: (RoomService.RoomRows, Fields) -> RoomService.RoomPage) {
    && (forall rows, fields, item :: item in browse(rows, fields).data ==> item in rows.Items)
    && RoomService.ListsAll(browse)
  }

  /** A page of a hotel shows stored rooms of that hotel that the filter asks for, and all of them when asked for
      everything. */
  lemma RoomPageShowsWanted(rooms: map<Id, Room>, typeRows: map<Id, RoomService.TypeRow>,
                            browse: (RoomService.RoomRows, Fields) -> RoomService.RoomPage, hotelId: Id, fields: Fields)
    requires ShowsRooms(browse)
    ensures var page := RoomService.ListRooms(rooms, typeRows, browse, Key(hotelId), fields);
            && (forall r, x :: (r, x) in page.data ==>
                  r in rooms && x.room == rooms[r] && RoomWanted(rooms[r], hotelId, fields))
            && (GetsAll(fields) ==> forall r :: r in rooms && RoomWanted(rooms[r], hotelId, fields) ==>
                  exists x :: (r, x) in page.data)
  {
    var rows := RoomService.Rows(rooms, typeRows, Key(hotelId), fields);
    var page := RoomService.ListRooms(rooms, typeRows, browse, Key(hotelId), fields);
    forall r, x | (r, x) in page.data
      ensures r in rooms && x.room == rooms[r] && RoomWanted(rooms[r], hotelId, fields)
    {
      assert (r, x) in rows.Items;
      RoomRowsAreWanted(rooms, typeRows, hotelId, fields, r);
    }
    forall r | GetsAll(fields) && r in rooms && RoomWanted(rooms[r], hotelId, fields)
      ensures exists x :: (r, x) in page.data
    {
      RoomRowsAreWanted(rooms, typeRows, hotelId, fields, r);
      assert (r, rows[r]) in rows.Items;
    }
  }

  // ---- hotels ------------------------------------------------------------------------------

  /** The filter gives a list of ids, and `id` is not among those that they denote. */
  ghost predicate LeavesOut(fields: Fields, name: string, id: Id) {
    name in fields && fields[name].Arr? && fields[name].items != [] &&
    forall text :: text in fields[name].items ==> Key(text) != id
  }

  ghost predicate AllLeftOut(fields: Fields, name: string, ids: seq<Id>) {
    name in fields && fields[name].Arr? && fields[name].items != [] &&
    forall id :: id in ids ==> LeavesOut(fields, name, id)
  }

  ghost predicate PriceFits(price: real, number: string -> real, fields: Fields) {
    && ("minPrice" in fields ==> exists text :: fields["minPrice"] == Num(text) && number(text) <= price)
    && ("maxPrice" in fields ==> exists text :: fields["maxPrice"] == Num(text) && price <= number(text))
  }

  ghost predicate RateWanted(rate: HotelService.Rate, number: string -> real, fields: Fields) {
    !LeavesOut(fields, "rateOptionIds", rate.id) && !AllLeftOut(fields, "rateOptionBenefitIds", rate.benefitLinkIds) &&
    PriceFits(rate.pricePerNight, number, fields)
  }

  ghost predicate OfferWanted(offer: HotelService.Offer, number: string -> real, fields: Fields) {
    && !LeavesOut(fields, "roomTypeIds", offer.roomTypeId)
    && !AllLeftOut(fields, "roomCharacteristicIds", offer.characteristicIds)
    && (Filters(fields, RATE_FILTERS) ==> exists rate :: rate in offer.rates && RateWanted(rate, number, fields))
  }

  const RATE_FILTERS := {"rateOptionIds", "rateOptionBenefitIds", "minPrice", "maxPrice"}
  const ROW_FILTERS := {"roomTypeIds", "roomCharacteristicIds", "rateOptionIds", "rateOptionBenefitIds", "minPrice",
                        "maxPrice"}

  /** Some of the filters is given: an id list that is not empty, or a price. */
  ghost predicate Filters(fields: Fields, names: set<string>) {
    exists name :: name in names && name in fields &&
      (name == "minPrice" || name == "maxPrice" || (fields[name].Arr? && fields[name].items != []))
  }

  /** A guest is shown active hotels only, an admin those of the named activity; if the filter asks for joined rows, one
      room type of the hotel meets it, with one rate option that meets all that is asked of rate options. */
  ghost predicate HotelWanted(hotel: HotelService.Hotel, offers: seq<HotelService.Offer>, number: string -> real,
                              fields: Fields, isAdmin: bool) {
    && (!isAdmin ==> hotel.isActive)
    && (isAdmin && "isActive" in fields ==> fields["isActive"] == Bool(hotel.isActive))
    && (Filters(fields, ROW_FILTERS) ==> exists offer :: offer in offers && OfferWanted(offer, number, fields))
  }

  lemma AsksIff(fields: Fields, name: string, ids: seq<Id>)
    ensures HotelService.OneOf(fields, name, ids) <==> !AllLeftOut(fields, name, ids)
  {
    if name in fields && fields[name].Arr? {
      forall id
        ensures id in AllKeys(fields[name].items) <==> exists text :: text in fields[name].items && Key(text) == id
      {
        if text :| text in fields[name].items && Key(text) == id {
          var i :| 0 <= i < |fields[name].items| && fields[name].items[i] == text;
          assert AllKeys(fields[name].items)[i] == id;
        }
      }
    }
  }

  lemma RateIff(rate: HotelService.Rate, number: string -> real, fields: Fields)
    ensures HotelService.RateMatches(rate, number, fields) <==> RateWanted(rate, number, fields)
  {
    AsksIff(fields, "rateOptionIds", [rate.id]);
    AsksIff(fields, "rateOptionBenefitIds", rate.benefitLinkIds);
    assert rate.id in [rate.id];
  }

  lemma FiltersIff(fields: Fields)
    ensures HotelService.AsksRate(fields) <==> Filters(fields, RATE_FILTERS)
    ensures HotelService.AsksJoin(fields) <==> Filters(fields, ROW_FILTERS)
  {
    assert ROW_FILTERS == RATE_FILTERS + {"roomTypeIds", "roomCharacteristicIds"};
  }

  lemma OfferIff(offer: HotelService.Offer, number: string -> real, fields: Fields)
    ensures HotelService.OfferMatches(offer, number, fields) <==> OfferWanted(offer, number, fields)
  {
    AsksIff(fields, "roomTypeIds", [offer.roomTypeId]);
    AsksIff(fields, "roomCharacteristicIds", offer.characteristicIds);
    assert offer.roomTypeId in [offer.roomTypeId];
    FiltersIff(fields);
    forall rate ensures HotelService.RateMatches(rate, number, fields) <==> RateWanted(rate, number, fields) {
      RateIff(rate, number, fields);
    }
  }

  ghost predicate HotelShown(hotels: HotelService.HotelTable, offers: HotelService.OfferTable, number: string -> real,
                             fields: Fields, isAdmin: bool, id: Id) {
    id in hotels && HotelWanted(hotels[id], if id in offers then offers[id] else [], number, fields, isAdmin)
  }

  /** The query finds exactly these hotels. */
  lemma HotelRowsAreWanted(hotels: HotelService.HotelTable, offers: HotelService.OfferTable, number: string -> real,
                           fields: Fields, isAdmin: bool, id: Id)
    ensures var rows := HotelService.Rows(hotels, offers, number, fields, isAdmin);
            && (id in rows <==> HotelShown(hotels, offers, number, fields, isAdmin, id))
            && (id in rows ==> rows[id] == hotels[id])
  {
    FiltersIff(fields);
    forall offer ensures HotelService.OfferMatches(offer, number, fields) <==> OfferWanted(offer, number, fields) {
      OfferIff(offer, number, fields);
    }
  }

  ghost predicate ShowsHotels(browse: (HotelService.HotelTable, Fields) -> HotelService.Page) {
    && (forall rows, fields, item :: item in browse(rows, fields).items ==> item in rows.Items)
    && HotelService.ListsAll(browse)
  }

  /** A page shows stored hotels that the caller may see and the filter asks for, and all of them when asked for
      everything without a search term. */
  lemma HotelPageShowsWanted(hotels: HotelService.HotelTable, offers: HotelService.OfferTable, number: string -> real,
                             browse: (HotelService.HotelTable, Fields) -> HotelService.Page, fields: Fields,
                             isAdmin: bool)
    requires ShowsHotels(browse)
    ensures var page := HotelService.ListHotels(hotels, offers, number, browse, fields, isAdmin);
            && (forall id, h :: (id, h) in page.items ==>
                  HotelShown(hotels, offers, number, fields, isAdmin, id) && h == hotels[id])
            && (GetsAll(fields) && "search" !in fields ==>
                  forall id :: HotelShown(hotels, offers, number, fields, isAdmin, id) ==>
                    (id, hotels[id]) in page.items)
  {
    var rows := HotelService.Rows(hotels, offers, number, fields, isAdmin);
    var page := HotelService.ListHotels(hotels, offers, number, browse, fields, isAdmin);
    forall id, h | (id, h) in page.items
      ensures HotelShown(hotels, offers, number, fields, isAdmin, id) && h == hotels[id]
    {
      assert (id, h) in rows.Items;
      HotelRowsAreWanted(hotels, offers, number, fields, isAdmin, id);
    }
    forall id | GetsAll(fields) && "search" !in fields && HotelShown(hotels, offers, number, fields, isAdmin, id)
      ensures (id, hotels[id]) in page.items
    {
      HotelRowsAreWanted(hotels, offers, number, fields, isAdmin, id);
      assert (id, rows[id]) in rows.Items;
    }
  }

  /** A lookup finds a stored hotel with its own joined rows, for a guest only while it is active. */
  lemma FoundHotel(hotels: HotelService.HotelTable, offers: HotelService.OfferTable, id: Id, isAdmin: bool)
    ensures var found := HotelService.FindHotel(hotels, offers, id, isAdmin);
            && (found.Some? <==> id in hotels && (hotels[id].isActive || isAdmin))
            && (found.Some? ==> found.value.hotel == hotels[id])
            && (found.Some? && id in offers ==> found.value.offers == offers[id])
            && (found.Some? && id !in offers ==> found.value.offers == [])
  {
  }

  /** An update sets the fields that it names, keeps the others, and never changes who created the hotel. */
  lemma MergedHotel(h: HotelService.Hotel, c: HotelService.Changes)
    ensures var m := HotelService.MergeHotel(h, c);
            && m.createdBy == h.createdBy
            && (c.name == None ==> m.name == h.name) && (c.name.Some? ==> m.name == c.name.value)
            && (c.city == None ==> m.city == h.city) && (c.city.Some? ==> m.city == c.city.value)
            && (c.country == None ==> m.country == h.country) && (c.country.Some? ==> m.country == c.country.value)
            && (c.address == None ==> m.address == h.address) && (c.address.Some? ==> m.address == c.address.value)
            && (c.isActive == None ==> m.isActive == h.isActive) &&
              (c.isActive.Some? ==> m.isActive == c.isActive.value)
  {
  }
}

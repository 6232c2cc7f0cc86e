/** Small runs from empty tables in which something goes wrong. */
module BookingScenarios {
  import opened SequenceFacts
  import opened Money
  import opened RoomStates
  import opened BookingModel
  import opened Ids
  import opened BookingRuns
  import opened Availability
  import opened PaymentTable
  import opened BookingRequests

  const ROOMS: map<Id, Room> := map["room" := Room("type", 2, Available)]
  const RATES: map<Id, RateOption> := map["rate" := RateOption("type", 100_00, EUR)]

  /** Two nights for two guests in the room, at 100.00 EUR a night. */
  function TwoNights(checkIn: Day): seq<Item> {
    [Item("room", "rate", checkIn, checkIn + 2, 2)]
  }

  /** A user registers, the catalogue is filled, and the user books. */
  function OnlyBooking(f: Fpu, items: seq<Item>, today: int): seq<Step> {
    [UserStep("user"), CatalogueStep(ROOMS, RATES), CreateStep(f, "booking", BOOKER, items, today)]
  }

  function FirstBooking(f: Fpu, checkIn: Day): seq<Step> {
    OnlyBooking(f, TwoNights(checkIn), checkIn * MS_PER_DAY)
  }

  const BOOKER := Header("user", "BK-1")
  const EMPTY_HOTEL := Tables(map[], [], map[], ROOMS, RATES, {"user"})

  lemma SpellingsOfNames()
    ensures Key("room") == "room" && Key("ROOM") == "room" && Key("rate") == "rate"
  {
    assert Key("room") == ['r', 'o', 'o', 'm'] && Key("ROOM") == ['r', 'o', 'o', 'm'];
    assert Key("rate") == ['r', 'a', 't', 'e'];
  }

  lemma TwoNightsCost(t: Tables, checkIn: Day)
    requires t.rateOptions == RATES
    ensures Chargeable(t, TwoNights(checkIn)) && ExactTotal(Lines(t, TwoNights(checkIn))) == 200_00
  {
    SpellingsOfNames();
    var lines := Lines(t, TwoNights(checkIn));
    assert lines == [Line(100_00, 2)] && lines[..0] == [];
    assert ExactTotal(lines) == ExactTotal(lines[..0]) + 200_00;
  }

  lemma EmptyHotelIsReached(f: Fpu, items: seq<Item>, today: int)
    ensures At(OnlyBooking(f, items, today), 2).t == EMPTY_HOTEL
  {
    AtNext(OnlyBooking(f, items, today), 0);
    AtNext(OnlyBooking(f, items, today), 1);
  }

  /** An empty hotel takes the only booking. */
  lemma OnlyBookingStored(f: Fpu, items: seq<Item>, today: int)
    requires Faithful(f) && CreateRefusal(EMPTY_HOTEL, items, today) == None
    requires Chargeable(EMPTY_HOTEL, items) && ExactTotal(Lines(EMPTY_HOTEL, items)) < MAX_CENTS
    ensures At(OnlyBooking(f, items, today), 3).t == Insert(EMPTY_HOTEL, f, "booking", BOOKER, items)
    ensures Storable(EMPTY_HOTEL, "booking", NewBooking(EMPTY_HOTEL, f, BOOKER, items),
                     NewStays(EMPTY_HOTEL, f, "booking", items))
  {
    EmptyHotelIsReached(f, items, today);
    AtNext(OnlyBooking(f, items, today), 2);
    CreateStoredIff(EMPTY_HOTEL, f, "booking", BOOKER, items, today);
  }

  lemma TwoNightsPass(checkIn: Day)
    ensures CreateRefusal(EMPTY_HOTEL, TwoNights(checkIn), checkIn * MS_PER_DAY) == None
  {
    var items, today := TwoNights(checkIn), checkIn * MS_PER_DAY;
    SpellingsOfNames();
    assert RoomIds(items) == ["room"];
    NoRepeatsIffDistinct(RoomIds(items));
    assert RoomRefusal(EMPTY_HOTEL, items[0]) == None && DateRefusal(items[0], today) == None;
  }

  lemma FirstBookingStored(f: Fpu, checkIn: Day)
    requires Faithful(f)
    ensures Priced(EMPTY_HOTEL, TwoNights(checkIn))
    ensures At(FirstBooking(f, checkIn), 3).t == Insert(EMPTY_HOTEL, f, "booking", BOOKER, TwoNights(checkIn))
    ensures Storable(EMPTY_HOTEL, "booking", NewBooking(EMPTY_HOTEL, f, BOOKER, TwoNights(checkIn)),
                     NewStays(EMPTY_HOTEL, f, "booking", TwoNights(checkIn)))
  {
    TwoNightsPass(checkIn);
    TwoNightsCost(EMPTY_HOTEL, checkIn);
    OnlyBookingStored(f, TwoNights(checkIn), checkIn * MS_PER_DAY);
  }

  /** It happens: an admin pays for the user's booking, and the gateway's intent is lost. */
  lemma AdminIntentIsLost(f: Fpu, checkIn: Day, intent: string)
    requires Faithful(f)
    ensures var t := At(FirstBooking(f, checkIn), 3).t;
            && GatewayAsked(t, "booking", Actor("admin", true))
            && CreateIntent(t, "booking", Actor("admin", true), Some(intent)) == Reply(t, Some(StorageFailed))
  {
    FirstBookingStored(f, checkIn);
  }

  /** It happens: the rooms are listed for 200.00 EUR and the booking is over 200.00 USD. */
  lemma EuroPriceChargedAsDollars(f: Fpu, checkIn: Day)
    requires Faithful(f)
    ensures var t := At(FirstBooking(f, checkIn), 3).t;
            && Priced(t, TwoNights(checkIn)) && ListedPrice(t, TwoNights(checkIn)[0]) == Price(100_00, EUR)
            && "booking" in t.bookings && t.bookings["booking"].totalPrice == 200_00 &&
              t.bookings["booking"].currency == USD
  {
    FirstBookingStored(f, checkIn);
    TwoNightsCost(EMPTY_HOTEL, checkIn);
    AcceptedBookingIsExact(EMPTY_HOTEL, f, "booking", BOOKER, TwoNights(checkIn));
  }

  /** One request for the room, spelled in two ways, for the same nights. */
  function TwoSpellings(checkIn: Day): seq<Item> {
    TwoNights(checkIn) + [Item("ROOM", "rate", checkIn, checkIn + 2, 2)]
  }

  lemma TwoSpellingsPass(checkIn: Day)
    ensures CreateRefusal(EMPTY_HOTEL, TwoSpellings(checkIn), checkIn * MS_PER_DAY) == None
    ensures SelfClash(TwoSpellings(checkIn))
  {
    var items, today := TwoSpellings(checkIn), checkIn * MS_PER_DAY;
    SpellingsOfNames();
    assert RoomIds(items) == ["room", "ROOM"] && "room"[0] != "ROOM"[0];
    NoRepeatsIffDistinct(RoomIds(items));
    assert RoomRefusal(EMPTY_HOTEL, items[0]) == None && RoomRefusal(EMPTY_HOTEL, items[1]) == None;
    assert DateRefusal(items[0], today) == None && DateRefusal(items[1], today) == None;
    assert Collides(items[0], items[1]);
  }

  lemma TwoSpellingsCost(checkIn: Day)
    ensures Chargeable(EMPTY_HOTEL, TwoSpellings(checkIn))
    ensures ExactTotal(Lines(EMPTY_HOTEL, TwoSpellings(checkIn))) == 400_00
  {
    SpellingsOfNames();
    var lines := Lines(EMPTY_HOTEL, TwoSpellings(checkIn));
    assert lines == [Line(100_00, 2), Line(100_00, 2)] && lines[..1] == [Line(100_00, 2)] && lines[..1][..0] == [];
    assert ExactTotal(lines) == ExactTotal(lines[..1]) + 200_00;
  }

  /** It happens: one request from an empty hotel is accepted and sells the room twice for its nights. */
  lemma SpellingSellsTwice(f: Fpu, checkIn: Day)
    requires Faithful(f)
    ensures var steps := OnlyBooking(f, TwoSpellings(checkIn), checkIn * MS_PER_DAY);
            var t := At(steps, 3).t;
            && At(steps, 2).t == EMPTY_HOTEL && "booking" in t.bookings
            && !SoldOnce(t, "room", checkIn) && !SoldOnce(t, "room", checkIn + 1)
  {
    TwoSpellingsPass(checkIn);
    TwoSpellingsCost(checkIn);
    EmptyHotelIsReached(f, TwoSpellings(checkIn), checkIn * MS_PER_DAY);
    OnlyBookingStored(f, TwoSpellings(checkIn), checkIn * MS_PER_DAY);
    BothRowsCover(f, checkIn);
  }

  lemma BothRowsCover(f: Fpu, checkIn: Day)
    requires Priced(EMPTY_HOTEL, TwoSpellings(checkIn))
    ensures var u := Insert(EMPTY_HOTEL, f, "booking", BOOKER, TwoSpellings(checkIn));
            !SoldOnce(u, "room", checkIn) && !SoldOnce(u, "room", checkIn + 1)
  {
    var u := Insert(EMPTY_HOTEL, f, "booking", BOOKER, TwoSpellings(checkIn));
    SpellingsOfNames();
    InsertedStays(EMPTY_HOTEL, f, "booking", BOOKER, TwoSpellings(checkIn));
    assert Active(u, u.stays[0]) && Active(u, u.stays[1]);
    assert Covers(u.stays[0], "room", checkIn) && Covers(u.stays[1], "room", checkIn);
    assert Covers(u.stays[0], "room", checkIn + 1) && Covers(u.stays[1], "room", checkIn + 1);
  }
}

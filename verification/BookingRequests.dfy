/** Which booking and payment requests are accepted, in terms of nights, edges and owners, and what an
    accepted status change does to the rooms. */
module BookingRequests {
  import opened SequenceFacts
  import opened Money
  import opened RoomStates
  import opened BookingModel
  import opened Ids
  import opened BookingRuns
  import opened Availability
  import opened PaymentTable

  // ---- creating ----------------------------------------------------------------------------

  /** No night of the item is sold. */
  ghost predicate NightsFree(t: Tables, item: Item) {
    forall i, night :: 0 <= i < |t.stays| && Holding(t, t.stays[i]) && Covers(t.stays[i], Key(item.roomId), night) ==>
      !Between(item.checkIn, night, item.checkOut)
  }

  lemma FreeIffNightsFree(t: Tables, item: Item)
    requires WellFormed(t) && item.checkIn < item.checkOut
    ensures Conflict(t, item) <==> !NightsFree(t, item)
  {
    if Conflict(t, item) {
      var i :| 0 <= i < |t.stays| && Blocks(t, t.stays[i], item);
      var night := if item.checkIn < t.stays[i].checkIn then t.stays[i].checkIn else item.checkIn;
      assert Covers(t.stays[i], Key(item.roomId), night) && Between(item.checkIn, night, item.checkOut);
    }
    if !NightsFree(t, item) {
      var i, night :| 0 <= i < |t.stays| && Holding(t, t.stays[i]) && Covers(t.stays[i], Key(item.roomId), night)
                      && Between(item.checkIn, night, item.checkOut);
      assert Blocks(t, t.stays[i], item);
    }
  }

  ghost predicate Bookable(t: Tables, item: Item, today: int) {
    && today <= item.checkIn * 86_400_000 && item.checkIn < item.checkOut
    && Key(item.roomId) in t.rooms && NightsFree(t, item) && Key(item.rateOptionId) in t.rateOptions
    && t.rateOptions[Key(item.rateOptionId)].roomTypeId == t.rooms[Key(item.roomId)].roomTypeId
    && item.guestCount <= t.rooms[Key(item.roomId)].maxOccupancy
  }

  lemma BookableIff(t: Tables, item: Item, today: int)
    requires WellFormed(t)
    ensures Bookable(t, item, today) <==> DateRefusal(item, today) == None && RoomRefusal(t, item) == None
  {
    if item.checkIn < item.checkOut {
      FreeIffNightsFree(t, item);
    }
  }

  /** In every state of every run a create request passes its checks exactly when it names at least one
      room, no spelling of a room twice, and each is bookable on its own. */
  lemma CreateAcceptedIff(steps: seq<Step>, n: nat, items: seq<Item>, today: int)
    requires n <= |steps|
    ensures var t := At(steps, n).t;
            CreateRefusal(t, items, today) == None <==>
            items != [] && Distinct(RoomIds(items)) && forall i :: 0 <= i < |items| ==> Bookable(t, items[i], today)
  {
    var t := At(steps, n).t;
    AlwaysWellFormed(steps, n);
    NoRepeatsIffDistinct(RoomIds(items));
    forall i | 0 <= i < |items|
      ensures Bookable(t, items[i], today) <==> DateRefusal(items[i], today) == None && RoomRefusal(t, items[i]) == None
    {
      BookableIff(t, items[i], today);
    }
  }

  /** Why an item fails the lookups, in the order in which they are asked. */
  lemma RoomRefusals(t: Tables, item: Item)
    requires WellFormed(t) && item.checkIn < item.checkOut
    ensures var refusal, room, rate := RoomRefusal(t, item), Key(item.roomId), Key(item.rateOptionId);
            && (refusal == Some(RoomNotFound) <==> room !in t.rooms)
            && (refusal == Some(RoomTaken) <==> room in t.rooms && !NightsFree(t, item))
            && (room in t.rooms && NightsFree(t, item) ==>
                  && (refusal == Some(RateOptionNotFound) <==>
                        rate !in t.rateOptions || t.rateOptions[rate].roomTypeId != t.rooms[room].roomTypeId)
                  && (refusal == None || refusal == Some(RateOptionNotFound) || refusal == Some(TooManyGuests)))
  {
    FreeIffNightsFree(t, item);
  }

  /** The first item that fails the date checks, before any lookup is made, and else the first that fails the
      lookups. */
  lemma {:induction false} FirstFailureDecides(t: Tables, items: seq<Item>, today: int, i: nat)
    requires i < |items|
    ensures (forall k :: 0 <= k < i ==> DateRefusal(items[k], today) == None) &&
            DateRefusal(items[i], today) != None ==>
              FirstDateRefusal(items, today) == DateRefusal(items[i], today)
    ensures (forall k :: 0 <= k < i ==> RoomRefusal(t, items[k]) == None) && RoomRefusal(t, items[i]) != None ==>
              FirstRoomRefusal(t, items) == RoomRefusal(t, items[i])
  {
    if i > 0 {
      FirstFailureDecides(t, items[1..], today, i - 1);
    }
  }

  /** Which refusal a create request gets. */
  lemma CreateRefusals(t: Tables, items: seq<Item>, today: int, i: nat)
    requires i < |items| && Distinct(RoomIds(items))
    ensures CreateRefusal(t, [], today) == Some(EmptyRequest)
    ensures var refusal := CreateRefusal(t, items, today);
            && ((forall k :: 0 <= k < i ==> DateRefusal(items[k], today) == None) &&
                items[i].checkIn * 86_400_000 < today ==>
                  refusal == Some(CheckInInPast))
            && ((forall k :: 0 <= k < i ==> DateRefusal(items[k], today) == None) &&
                today <= items[i].checkIn * 86_400_000 && items[i].checkOut <= items[i].checkIn ==>
                  refusal == Some(CheckOutNotAfterCheckIn))
            && ((forall k :: 0 <= k < |items| ==> DateRefusal(items[k], today) == None) &&
                (forall k :: 0 <= k < i ==> RoomRefusal(t, items[k]) == None) && RoomRefusal(t, items[i]) != None ==>
                  refusal == RoomRefusal(t, items[i]))
  {
    NoRepeatsIffDistinct(RoomIds(items));
    FirstFailureDecides(t, items, today, i);
  }

  /** A repeated spelling is reported, whatever else is wrong with the request. */
  lemma RepeatedRoomsRefused(t: Tables, items: seq<Item>, today: int)
    requires !Distinct(RoomIds(items))
    ensures var refusal := CreateRefusal(t, items, today);
            && refusal.Some? && refusal.value.DuplicateRooms? && refusal.value.rooms != []
            && forall id :: id in refusal.value.rooms <==>
                 exists i, j :: 0 <= i < j < |items| && items[i].roomId == id && items[j].roomId == id
  {
    var ids := RoomIds(items);
    NoRepeatsIffDistinct(ids);
    forall id
      ensures id in Repeats(ids) <==>
                exists i, j :: 0 <= i < j < |items| && items[i].roomId == id && items[j].roomId == id
    {
      if i, j :| 0 <= i < j < |items| && items[i].roomId == id && items[j].roomId == id {
        assert ids[i] == id && ids[j] == id;
      }
    }
  }

  /** The guests of stored stays. */
  function GuestSum(stays: seq<Stay>): int {
    if stays == [] then 0 else stays[0].guestCount + GuestSum(stays[1..])
  }

  /** What a sum is: nothing adds nothing, one stay adds its guests, and parts add up. */
  lemma {:induction false} GuestSumAdds(a: seq<Stay>, b: seq<Stay>, s: Stay)
    ensures GuestSum([]) == 0 && GuestSum([s]) == s.guestCount && GuestSum(a + b) == GuestSum(a) + GuestSum(b)
  {
    assert [s][1..] == [];
    if a == [] {
      assert a + b == b;
    } else {
      GuestSumAdds(a[1..], b, s);
      assert (a + b)[0] == a[0] && (a + b)[1..] == a[1..] + b;
    }
  }

  lemma {:induction false} GuestsOfStays(t: Tables, f: Fpu, newId: Id, items: seq<Item>)
    requires Priced(t, items)
    ensures TotalGuests(items) == GuestSum(NewStays(t, f, newId, items))
  {
    if items != [] {
      var init, last := items[..|items| - 1], StayOf(t, f, newId, items[|items| - 1]);
      GuestsOfStays(t, f, newId, init);
      GuestSumAdds(NewStays(t, f, newId, init), [last], last);
      assert NewStays(t, f, newId, items) == NewStays(t, f, newId, init) + [last];
    }
  }

  /** The stays that a request adds: one per requested room, as requested. */
  lemma StaysAreAsked(t: Tables, f: Fpu, newId: Id, items: seq<Item>)
    requires Priced(t, items)
    ensures var stays := t.stays + NewStays(t, f, newId, items);
            && t.stays <= stays && stays[|t.stays|..] == NewStays(t, f, newId, items)
            && |stays| == |t.stays| + |items|
            && (forall i :: 0 <= i < |items| ==>
                  var s := stays[|t.stays| + i];
                  && s.bookingId == newId && s.roomId == Key(items[i].roomId)
                  && s.rateOptionId == Key(items[i].rateOptionId) && s.checkIn == items[i].checkIn
                  && s.checkOut == items[i].checkOut && s.guestCount == items[i].guestCount)
  {
  }

  /** An accepted request adds one PENDING booking of the caller with the sum of the guests, and one stay
      per requested room with the requested nights; nothing else changes. */
  lemma CreateStoresRequest(t: Tables, f: Fpu, newId: Id, head: Header, items: seq<Item>, today: int)
    requires Create(t, f, newId, head, items, today).refusal == None
    ensures var u := Create(t, f, newId, head, items, today).after;
            && newId !in t.bookings && u.bookings.Keys == t.bookings.Keys + {newId}
            && Header(u.bookings[newId].userId, u.bookings[newId].reference) == head &&
              u.bookings[newId].status == Pending
            && t.stays <= u.stays && u.bookings[newId].totalGuest == GuestSum(u.stays[|t.stays|..])
            && (forall b :: b in t.bookings ==> u.bookings[b] == t.bookings[b])
            && |u.stays| == |t.stays| + |items|
            && (forall i :: 0 <= i < |items| ==>
                  var s := u.stays[|t.stays| + i];
                  && s.bookingId == newId && s.roomId == Key(items[i].roomId)
                  && s.rateOptionId == Key(items[i].rateOptionId) && s.checkIn == items[i].checkIn
                  && s.checkOut == items[i].checkOut && s.guestCount == items[i].guestCount)
            && u.payments == t.payments && u.rooms == t.rooms && u.rateOptions == t.rateOptions && u.users == t.users
  {
    AcceptedRequestIsProper(t, items, today);
    GuestsOfStays(t, f, newId, items);
    StaysAreAsked(t, f, newId, items);
  }

  // ---- changing the status -----------------------------------------------------------------

  /** A status request is accepted exactly along an edge other than to CONFIRMED, for an admin, or for the
      owner when it cancels. */
  lemma PatchAcceptedIff(t: Tables, id: Id, next: BookingStatus, actor: Actor)
    ensures Patch(t, id, next, actor).refusal == None <==>
              && id in t.bookings && Edge(t.bookings[id].status, next) && next != Confirmed
              && (actor.isAdmin || (t.bookings[id].userId == actor.id && next == Cancelled))
  {
  }

  /** Some stay of the booking is in the room. */
  ghost predicate HoldsRoom(t: Tables, id: Id, room: Id) {
    exists s :: s in t.stays && s.bookingId == id && s.roomId == room
  }

  /** Which refusal a status request gets. */
  lemma PatchRefusals(t: Tables, id: Id, next: BookingStatus, actor: Actor)
    ensures var refusal := Patch(t, id, next, actor).refusal;
            && (refusal == Some(BookingNotFound) <==>
                  id !in t.bookings || (!actor.isAdmin && t.bookings[id].userId != actor.id))
            && (id in t.bookings && (actor.isAdmin || t.bookings[id].userId == actor.id) ==>
                  && (refusal == Some(AlreadyInStatus) <==> t.bookings[id].status == next)
                  && (refusal == Some(ManualConfirmation) <==> next == Confirmed && t.bookings[id].status != Confirmed)
                  && (refusal == None || refusal == Some(AlreadyInStatus) || refusal == Some(ManualConfirmation) ||
                      refusal == Some(TransitionForbidden)))
  {
  }

  /** What an accepted request leaves: the new status, the booking's rooms occupied after a check-in and
      available after a check-out or cancellation, every other booking and room as it was. */
  lemma PatchMovesRooms(t: Tables, id: Id, next: BookingStatus, actor: Actor)
    requires Patch(t, id, next, actor).refusal == None
    ensures var u := Patch(t, id, next, actor).after;
            && u.bookings == t.bookings[id := t.bookings[id].(status := next)]
            && u.stays == t.stays && u.payments == t.payments && u.rateOptions == t.rateOptions && u.users == t.users
            && u.rooms.Keys == t.rooms.Keys
            && forall r :: r in t.rooms ==>
                 u.rooms[r] == if !HoldsRoom(t, id, r) then t.rooms[r]
                               else t.rooms[r].(status := if next == CheckedIn then Occupied else Available)
  {
  }

  // ---- paying ------------------------------------------------------------------------------

  /** The request passes its checks, and the gateway is asked. */
  ghost predicate GatewayAsked(t: Tables, id: Id, actor: Actor) {
    && id in t.bookings && (actor.isAdmin || t.bookings[id].userId == actor.id)
    && t.bookings[id].status == Pending
    && forall p :: p in t.payments && t.payments[p].bookingId == id ==> t.payments[p].status != Awaiting
  }

  /** A payment intent is stored exactly when the gateway is asked and answers with a new id, and the caller
      is a stored user. */
  lemma IntentAcceptedIff(t: Tables, id: Id, actor: Actor, answer: Option<string>)
    ensures CreateIntent(t, id, actor, answer).refusal == None <==>
              GatewayAsked(t, id, actor) && answer.Some? && answer.value !in t.payments && actor.id in t.users
    ensures CreateIntent(t, id, actor, answer).refusal == None ==>
              CreateIntent(t, id, actor, answer).after ==
              t.(payments := t.payments[answer.value :=
                   Payment(id, actor.id, t.bookings[id].totalPrice, t.bookings[id].currency, Awaiting)])
  {
  }

  /** Which refusal an intent gets, in the order in which the service checks. */
  lemma IntentRefusals(t: Tables, id: Id, actor: Actor, answer: Option<string>)
    ensures var refusal := CreateIntent(t, id, actor, answer).refusal;
            && (refusal == Some(BookingNotFound) <==> id !in t.bookings)
            && (id in t.bookings ==>
                  && (refusal == Some(NotYourBooking) <==> !actor.isAdmin && t.bookings[id].userId != actor.id)
                  && (refusal == Some(BookingNotPending) <==>
                        (actor.isAdmin || t.bookings[id].userId == actor.id) && t.bookings[id].status != Pending))
            && (refusal == Some(GatewayFailed) <==> GatewayAsked(t, id, actor) && answer == None)
            && (refusal == Some(StorageFailed) <==>
                  GatewayAsked(t, id, actor) && answer.Some? && (answer.value in t.payments || actor.id !in t.users))
  {
  }

  /** The branch that lets an admin pay for any booking can only succeed for a caller whose id is also a
      user's: otherwise the gateway has made an intent that no row records. */
  lemma AdminIntentIsLostIff(t: Tables, id: Id, actor: Actor, intent: string)
    requires actor.isAdmin && GatewayAsked(t, id, actor) && intent !in t.payments
    ensures CreateIntent(t, id, actor, Some(intent)) == Reply(t, Some(StorageFailed)) <==> actor.id !in t.users
  {
  }

  lemma StorableIff(t: Tables, f: Fpu, newId: Id, head: Header, items: seq<Item>)
    requires Priced(t, items)
    ensures Storable(t, newId, NewBooking(t, f, head, items), NewStays(t, f, newId, items)) <==>
              && newId !in t.bookings && head.userId in t.users
              && (forall b :: b in t.bookings ==> t.bookings[b].reference != head.reference)
              && FitsColumn(NewBooking(t, f, head, items).totalPrice)
              && forall i :: 0 <= i < |items| ==> FitsColumn(StayOf(t, f, newId, items[i]).totalPrice)
                                                  && FitsColumn(StayOf(t, f, newId, items[i]).pricePerNight)
  {
    var stays := NewStays(t, f, newId, items);
    assert forall i :: 0 <= i < |items| ==> stays[i] == StayOf(t, f, newId, items[i]);
    assert |stays| == |items|;
  }

  lemma AmountsFitIff(t: Tables, f: Fpu, newId: Id, head: Header, items: seq<Item>)
    requires Faithful(f) && Chargeable(t, items)
    ensures FitsColumn(NewBooking(t, f, head, items).totalPrice) <==> ExactTotal(Lines(t, items)) < MAX_CENTS
    ensures ExactTotal(Lines(t, items)) < MAX_CENTS ==>
              forall i :: 0 <= i < |items| ==> FitsColumn(StayOf(t, f, newId, items[i]).totalPrice)
                                               && FitsColumn(StayOf(t, f, newId, items[i]).pricePerNight)
  {
    var lines := Lines(t, items);
    ExactTotalIsMonotone(lines);
    if ExactTotal(lines) < MAX_CENTS {
      HalfCentUpTo(|lines|, ExactTotal(lines));
      StoredTotalIsExact(f, lines);
      forall i | 0 <= i < |items|
        ensures FitsColumn(StayOf(t, f, newId, items[i]).totalPrice)
        ensures FitsColumn(StayOf(t, f, newId, items[i]).pricePerNight)
      {
        LineIsNoMoreThanTotal(lines, i);
        OneNightCostsNoMore(lines[i].price, lines[i].nights);
        HalfCentUpTo(0, lines[i].price * lines[i].nights);
        StoredRoomIsExact(f, lines[i]);
      }
    } else if FitsColumn(NewBooking(t, f, head, items).totalPrice) {
      AcceptedTotalFits(f, lines);
    }
  }

  /** Likewise a checked create request is stored exactly when its key and reference are new, the caller is a
      stored user and the exact sum of price x nights is below the bound of its column. */
  lemma CreateStoredIff(t: Tables, f: Fpu, newId: Id, head: Header, items: seq<Item>, today: int)
    requires CreateRefusal(t, items, today) == None && Faithful(f) && Chargeable(t, items)
    ensures Create(t, f, newId, head, items, today).refusal == None <==>
              && newId !in t.bookings && head.userId in t.users
              && (forall b :: b in t.bookings ==> t.bookings[b].reference != head.reference)
              && ExactTotal(Lines(t, items)) < 1_000_000_000_000
  {
    StorableIff(t, f, newId, head, items);
    AmountsFitIff(t, f, newId, head, items);
  }

  // ---- currency ----------------------------------------------------------------------------

  datatype Price = Price(amount: Cents, currency: Currency)

  function ListedPrice(t: Tables, item: Item): Price
    requires Key(item.rateOptionId) in t.rateOptions
  {
    Price(t.rateOptions[Key(item.rateOptionId)].pricePerNight, t.rateOptions[Key(item.rateOptionId)].currency)
  }

  /** A rate option's own currency is not read: an accepted booking charges the listed price of every room
      exactly when all its rate options are in the booking's currency, the default USD. */
  lemma ListedPricesChargedIff(t: Tables, f: Fpu, newId: Id, head: Header, items: seq<Item>)
    requires Faithful(f) && Chargeable(t, items)
    requires Storable(t, newId, NewBooking(t, f, head, items), NewStays(t, f, newId, items))
    ensures (forall i :: 0 <= i < |items| ==>
               Price(NewStays(t, f, newId, items)[i].pricePerNight, NewBooking(t, f, head, items).currency)
               == ListedPrice(t, items[i]))
            <==> forall i :: 0 <= i < |items| ==> ListedPrice(t, items[i]).currency == USD
  {
    AcceptedBookingIsExact(t, f, newId, head, items);
    var stays := NewStays(t, f, newId, items);
    forall i | 0 <= i < |items| ensures stays[i].pricePerNight == ListedPrice(t, items[i]).amount {
      assert LineOf(t, items[i]).price == ListedPrice(t, items[i]).amount;
    }
  }
}

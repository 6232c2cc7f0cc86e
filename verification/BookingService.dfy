/** The booking service over the shared tables: the request checks and the insert of a booking, and
    the change of its status, step by step as the service takes them. */
module BookingService {
  import opened SequenceFacts
  import opened Money
  import opened RoomStates
  import opened BookingModel
  import opened Ids

  /** The tables as rows that the booking and payment services write. */
  class Database {
    var bookings: map<Id, Booking>
    var stays: seq<Stay>
    var payments: map<string, Payment>
    var rooms: map<Id, Room>
    var rateOptions: map<Id, RateOption>
    var users: set<Id>

    function View(): Tables
      reads this
    {
      Tables(bookings, stays, payments, rooms, rateOptions, users)
    }
  }

  class BookingService {
    const db: Database
    const fpu: Fpu

    constructor (db: Database, fpu: Fpu)
      ensures this.db == db && this.fpu == fpu
    {
      this.db := db;
      this.fpu := fpu;
    }

    method ValidateRooms(items: seq<Item>, today: int) returns (refusal: Option<Refusal>)
      ensures refusal == CreateRefusal(db.View(), items, today)
    {
      if items == [] { return Some(EmptyRequest); }
      var duplicates := Repeats(RoomIds(items));
      if duplicates != [] { return Some(DuplicateRooms(duplicates)); }
      for i := 0 to |items|
        invariant FirstDateRefusal(items, today) == FirstDateRefusal(items[i..], today)
      {
        var item := items[i];
        if item.checkIn * MS_PER_DAY < today { return Some(CheckInInPast); }
        if item.checkOut <= item.checkIn { return Some(CheckOutNotAfterCheckIn); }
        assert items[i..][1..] == items[i + 1..];
      }
      for i := 0 to |items|
        invariant FirstRoomRefusal(db.View(), items) == FirstRoomRefusal(db.View(), items[i..])
      {
        refusal := CheckRoom(items[i]);
        if refusal != None { return; }
        assert items[i..][1..] == items[i + 1..];
      }
      return None;
    }

    method CheckRoom(item: Item) returns (refusal: Option<Refusal>)
      ensures refusal == RoomRefusal(db.View(), item)
    {
      if Key(item.roomId) !in db.rooms { return Some(RoomNotFound); }
      var room := db.rooms[Key(item.roomId)];
      if Conflict(db.View(), item) { return Some(RoomTaken); }
      var rateOptionId := Key(item.rateOptionId);
      if rateOptionId !in db.rateOptions || db.rateOptions[rateOptionId].roomTypeId != room.roomTypeId {
        return Some(RateOptionNotFound);
      }
      if item.guestCount > room.maxOccupancy { return Some(TooManyGuests); }
      return None;
    }

    /** True when some requested room is taken for some requested night. */
    method DoubleBooked(items: seq<Item>) returns (taken: bool)
      ensures taken <==> exists i :: 0 <= i < |items| && Conflict(db.View(), items[i])
    {
      for i := 0 to |items|
        invariant forall k :: 0 <= k < i ==> !Conflict(db.View(), items[k])
      {
        if Conflict(db.View(), items[i]) { return true; }
      }
      return false;
    }

    lemma NextLine(t: Tables, items: seq<Item>, i: nat)
      requires Priced(t, items) && i < |items|
      ensures var lines, line := Lines(t, items), LineOf(t, items[i]);
              RunningTotal(fpu, lines[..i + 1]) ==
              fpu.round(RunningTotal(fpu, lines[..i]) + RoomTotal(fpu, line.price, line.nights))
      ensures TotalGuests(items[..i + 1]) == TotalGuests(items[..i]) + items[i].guestCount
    {
      var lines := Lines(t, items);
      assert lines[..i + 1][..i] == lines[..i] && lines[..i + 1][i] == LineOf(t, items[i]);
      assert items[..i + 1][..i] == items[..i];
    }

    method PriceRoom(newId: Id, item: Item) returns (row: Stay, roomTotal: real)
      requires Key(item.rateOptionId) in db.rateOptions
      ensures row == StayOf(db.View(), fpu, newId, item)
      ensures var line := LineOf(db.View(), item); roomTotal == RoomTotal(fpu, line.price, line.nights)
    {
      var nights := item.checkOut - item.checkIn;
      var pricePerNight := ParseFloat(fpu, db.rateOptions[Key(item.rateOptionId)].pricePerNight);
      roomTotal := fpu.round(TimesNights(pricePerNight, nights));
      row := Stay(newId, Key(item.roomId), Key(item.rateOptionId), item.checkIn, item.checkOut, item.guestCount,
                  StoreDecimal(fpu, pricePerNight), StoreDecimal(fpu, roomTotal));
    }

    /** Prices the request room by room with float arithmetic. */
    method Price(newId: Id, items: seq<Item>) returns (rows: seq<Stay>, totalPrice: Cents, totalGuest: int)
      requires Priced(db.View(), items)
      ensures rows == NewStays(db.View(), fpu, newId, items)
      ensures totalPrice == StoreDecimal(fpu, RunningTotal(fpu, Lines(db.View(), items)))
      ensures totalGuest == TotalGuests(items)
    {
      ghost var t, lines := db.View(), Lines(db.View(), items);
      var total := 0.0;
      rows, totalGuest := [], 0;
      for i := 0 to |items|
        invariant |rows| == i && forall k :: 0 <= k < i ==> rows[k] == StayOf(t, fpu, newId, items[k])
        invariant total == RunningTotal(fpu, lines[..i]) && totalGuest == TotalGuests(items[..i])
      {
        NextLine(t, items, i);
        var row, roomTotal := PriceRoom(newId, items[i]);
        total := fpu.round(total + roomTotal);
        totalGuest := totalGuest + items[i].guestCount;
        rows := rows + [row];
      }
      assert lines[..|items|] == lines && items[..|items|] == items;
      totalPrice := StoreDecimal(fpu, total);
    }

    method Create(newId: Id, head: Header, items: seq<Item>, today: int) returns (refusal: Option<Refusal>)
      modifies db
      ensures db.View() == BookingModel.Create(old(db.View()), fpu, newId, head, items, today).after
      ensures refusal == BookingModel.Create(old(db.View()), fpu, newId, head, items, today).refusal
    {
      refusal := ValidateRooms(items, today);
      if refusal != None { return; }
      AcceptedRooms(items);
      var taken := DoubleBooked(items);
      if taken { return Some(RoomTaken); }
      var rows, totalPrice, totalGuest := Price(newId, items);
      var booking := Booking(head.reference, head.userId, Pending, totalPrice, USD, totalGuest);
      if !Storable(db.View(), newId, booking, rows) { return Some(StorageFailed); }
      db.bookings := db.bookings[newId := booking];
      db.stays := db.stays + rows;
    }

    lemma AcceptedRooms(items: seq<Item>)
      requires FirstRoomRefusal(db.View(), items) == None
      ensures Priced(db.View(), items) && forall i :: 0 <= i < |items| ==> !Conflict(db.View(), items[i])
    {
    }

    method PatchStatus(bookingId: Id, next: BookingStatus, actor: Actor) returns (refusal: Option<Refusal>)
      modifies db
      ensures db.View() == Patch(old(db.View()), bookingId, next, actor).after
      ensures refusal == Patch(old(db.View()), bookingId, next, actor).refusal
    {
      if !(bookingId in db.bookings && (actor.isAdmin || db.bookings[bookingId].userId == actor.id)) {
        return Some(BookingNotFound);
      }
      var booking := db.bookings[bookingId];
      refusal := TransitionRefusal(booking.status, next, actor.isAdmin);
      if refusal != None { return; }
      db.bookings := db.bookings[bookingId := booking.(status := next)];
      if next == CheckedIn {
        UpdateRooms(bookingId, Occupied);
      }
      if next == CheckedOut || next == Cancelled {
        UpdateRooms(bookingId, Available);
      }
    }

    /** `UPDATE rooms SET status = ... WHERE id IN (the booking's rooms)`. */
    method UpdateRooms(bookingId: Id, status: RoomStatus)
      modifies db`rooms
      ensures db.View() == WithRooms(old(db.View()), bookingId, status)
    {
      var roomIds := set i | 0 <= i < |db.stays| && db.stays[i].bookingId == bookingId :: db.stays[i].roomId;
      db.rooms := map r | r in db.rooms :: if r in roomIds then db.rooms[r].(status := status) else db.rooms[r];
      assert forall r :: RoomOf(old(db.View()), bookingId, r) <==> r in roomIds;
    }
  }
}

/** The tables behind bookings and payments, and what each request does to them. Dates are day
    numbers (a `date` column holds no time of day); money is in cents. Rooms and rate options are
    written by other services, so a run may replace them at any point. */
module BookingModel {
  import opened SequenceFacts
  import opened Money
  import opened RoomStates
  import opened Ids

  type Id = string
  type Day = int

  const MS_PER_DAY := 86_400_000

  datatype BookingStatus = Pending | Confirmed | CheckedIn | CheckedOut | Cancelled
  datatype PaymentStatus = Awaiting | Completed | Failed | Refunded | RefundPending | RefundFailed
  datatype Currency = USD | EUR | GBP | SGD | THB

  datatype Room = Room(roomTypeId: Id, maxOccupancy: int, status: RoomStatus)
  datatype RateOption = RateOption(roomTypeId: Id, pricePerNight: Cents, currency: Currency)

  datatype Booking = Booking(reference: string, userId: Id, status: BookingStatus, totalPrice: Cents,
                             currency: Currency, totalGuest: int)

  /** A row of `booking_rooms`. */
  datatype Stay = Stay(bookingId: Id, roomId: Id, rateOptionId: Id, checkIn: Day, checkOut: Day, guestCount: int,
                       pricePerNight: Cents, totalPrice: Cents)

  datatype Payment = Payment(bookingId: Id, userId: Id, amount: Cents, currency: Currency, status: PaymentStatus)

  /** Payments are keyed by their unique `paymentIntentId`; `users` holds the keys of the table that
      `bookings.userId` and `payments.userId` refer to. Admins are rows of another table. */
  datatype Tables = Tables(bookings: map<Id, Booking>, stays: seq<Stay>, payments: map<string, Payment>,
                           rooms: map<Id, Room>, rateOptions: map<Id, RateOption>, users: set<Id>)

  /** One element of the `rooms` array of a create request; its ids are spelled as the caller likes. */
  datatype Item = Item(roomId: Id, rateOptionId: Id, checkIn: Day, checkOut: Day, guestCount: int)

  /** What the service adds to a create request: the caller, and a generated booking reference. */
  datatype Header = Header(userId: Id, reference: string)

  datatype Refusal =
    | EmptyRequest | DuplicateRooms(rooms: seq<Id>) | CheckInInPast | CheckOutNotAfterCheckIn
    | RoomNotFound | RoomTaken | RateOptionNotFound | TooManyGuests
    | BookingNotFound | AlreadyInStatus | ManualConfirmation | TransitionForbidden
    | NotYourBooking | BookingNotPending | PendingPaymentExists | GatewayFailed | StorageFailed

  datatype Actor = Actor(id: Id, isAdmin: bool)

  // ---- transitions of a booking ------------------------------------------------------------

  function CustomerAllowed(current: BookingStatus): seq<BookingStatus> {
    match current
    case Pending => [Cancelled]
    case Confirmed => [Cancelled]
    case _ => []
  }

  function AdminAllowed(current: BookingStatus): seq<BookingStatus> {
    match current
    case Pending => [Cancelled]
    case Confirmed => [CheckedIn, Cancelled]
    case CheckedIn => [CheckedOut]
    case _ => []
  }

  function TransitionRefusal(current: BookingStatus, next: BookingStatus, isAdmin: bool): Option<Refusal> {
    var allowed := if isAdmin then AdminAllowed(current) else CustomerAllowed(current);
    if current == next then Some(AlreadyInStatus)
    else if next in allowed then None
    else if next == Confirmed then Some(ManualConfirmation)
    else Some(TransitionForbidden)
  }

  // ---- availability ------------------------------------------------------------------------

  predicate Terminal(s: BookingStatus) {
    s == Cancelled || s == CheckedOut
  }

  /** The inner join with `bookings` and the `NOT IN (CANCELLED, CHECKED_OUT)` filter. */
  predicate Active(t: Tables, s: Stay) {
    s.bookingId in t.bookings && !Terminal(t.bookings[s.bookingId].status)
  }

  predicate Blocks(t: Tables, s: Stay, item: Item) {
    s.roomId == Key(item.roomId) && Active(t, s) && s.checkIn < item.checkOut && s.checkOut > item.checkIn
  }

  predicate Conflict(t: Tables, item: Item) {
    exists i :: 0 <= i < |t.stays| && Blocks(t, t.stays[i], item)
  }

  // ---- creating a booking ------------------------------------------------------------------

  /** Local midnight of the current day in milliseconds; a date string is midnight UTC. */
  function DateRefusal(item: Item, today: int): Option<Refusal> {
    if item.checkIn * MS_PER_DAY < today then Some(CheckInInPast)
    else if item.checkOut <= item.checkIn then Some(CheckOutNotAfterCheckIn)
    else None
  }

  function RoomRefusal(t: Tables, item: Item): Option<Refusal> {
    if Key(item.roomId) !in t.rooms then Some(RoomNotFound)
    else if Conflict(t, item) then Some(RoomTaken)
    else
      var room, rateOptionId := t.rooms[Key(item.roomId)], Key(item.rateOptionId);
      if !(rateOptionId in t.rateOptions && t.rateOptions[rateOptionId].roomTypeId == room.roomTypeId) then
        Some(RateOptionNotFound)
      else if item.guestCount > room.maxOccupancy then Some(TooManyGuests)
      else None
  }

  function RoomIds(items: seq<Item>): seq<Id> {
    seq(|items|, i requires 0 <= i < |items| => items[i].roomId)
  }

  function FirstDateRefusal(items: seq<Item>, today: int): (r: Option<Refusal>)
    ensures r == None <==> forall i :: 0 <= i < |items| ==> DateRefusal(items[i], today) == None
  {
    if items == [] then None
    else if DateRefusal(items[0], today) != None then DateRefusal(items[0], today)
    else FirstDateRefusal(items[1..], today)
  }

  function FirstRoomRefusal(t: Tables, items: seq<Item>): (r: Option<Refusal>)
    ensures r == None <==> forall i :: 0 <= i < |items| ==> RoomRefusal(t, items[i]) == None
  {
    if items == [] then None
    else if RoomRefusal(t, items[0]) != None then RoomRefusal(t, items[0])
    else FirstRoomRefusal(t, items[1..])
  }

  /** Why a create request is turned down, if it is. The date checks of all rooms run before any of
      the lookups answers. */
  function CreateRefusal(t: Tables, items: seq<Item>, today: int): Option<Refusal> {
    if items == [] then Some(EmptyRequest)
    else if Repeats(RoomIds(items)) != [] then Some(DuplicateRooms(Repeats(RoomIds(items))))
    else if FirstDateRefusal(items, today) != None then FirstDateRefusal(items, today)
    else FirstRoomRefusal(t, items)
  }

  predicate Priced(t: Tables, items: seq<Item>) {
    forall i :: 0 <= i < |items| ==> Key(items[i].rateOptionId) in t.rateOptions
  }

  function LineOf(t: Tables, item: Item): Line
    requires Key(item.rateOptionId) in t.rateOptions
  {
    Line(t.rateOptions[Key(item.rateOptionId)].pricePerNight, item.checkOut - item.checkIn)
  }

  function Lines(t: Tables, items: seq<Item>): seq<Line>
    requires Priced(t, items)
  {
    seq(|items|, i requires 0 <= i < |items| => LineOf(t, items[i]))
  }

  function StayOf(t: Tables, f: Fpu, bookingId: Id, item: Item): Stay
    requires Key(item.rateOptionId) in t.rateOptions
  {
    var line := LineOf(t, item);
    Stay(bookingId, Key(item.roomId), Key(item.rateOptionId), item.checkIn, item.checkOut, item.guestCount,
         StoreDecimal(f, ParseFloat(f, line.price)), StoreDecimal(f, RoomTotal(f, line.price, line.nights)))
  }

  function NewStays(t: Tables, f: Fpu, bookingId: Id, items: seq<Item>): seq<Stay>
    requires Priced(t, items)
  {
    seq(|items|, i requires 0 <= i < |items| => StayOf(t, f, bookingId, items[i]))
  }

  function TotalGuests(items: seq<Item>): int {
    if items == [] then 0 else TotalGuests(items[..|items| - 1]) + items[|items| - 1].guestCount
  }

  predicate FitsColumn(c: Cents) {
    -MAX_CENTS < c < MAX_CENTS
  }

  predicate ReferenceTaken(t: Tables, reference: string) {
    exists b :: b in t.bookings && t.bookings[b].reference == reference
  }

  /** The insert transaction goes through: a fresh primary key, a new reference, a stored user, and values
      that fit their columns. */
  predicate Storable(t: Tables, bookingId: Id, booking: Booking, stays: seq<Stay>) {
    bookingId !in t.bookings && !ReferenceTaken(t, booking.reference) && booking.userId in t.users &&
    FitsColumn(booking.totalPrice) &&
    forall i :: 0 <= i < |stays| ==> FitsColumn(stays[i].totalPrice) && FitsColumn(stays[i].pricePerNight)
  }

  function NewBooking(t: Tables, f: Fpu, head: Header, items: seq<Item>): Booking
    requires Priced(t, items)
  {
    Booking(head.reference, head.userId, Pending, StoreDecimal(f, RunningTotal(f, Lines(t, items))), USD,
            TotalGuests(items))
  }

  function Insert(t: Tables, f: Fpu, bookingId: Id, head: Header, items: seq<Item>): Tables
    requires Priced(t, items)
  {
    t.(bookings := t.bookings[bookingId := NewBooking(t, f, head, items)],
       stays := t.stays + NewStays(t, f, bookingId, items))
  }

  /** A table change and why it was refused, if it was. */
  datatype Reply = Reply(after: Tables, refusal: Option<Refusal>)

  function Create(t: Tables, f: Fpu, bookingId: Id, head: Header, items: seq<Item>, today: int): (r: Reply)
    ensures r.refusal != None ==> r.after == t
  {
    var refusal := CreateRefusal(t, items, today);
    if refusal != None then Reply(t, refusal)
    else
      assert Priced(t, items) by {
        forall i | 0 <= i < |items| ensures Key(items[i].rateOptionId) in t.rateOptions {
          assert RoomRefusal(t, items[i]) == None;
        }
      }
      if !Storable(t, bookingId, NewBooking(t, f, head, items), NewStays(t, f, bookingId, items)) then
        Reply(t, Some(StorageFailed))
      else Reply(Insert(t, f, bookingId, head, items), None)
  }

  // ---- changing a booking's status ---------------------------------------------------------

  function WithStatus(t: Tables, bookingId: Id, status: BookingStatus): Tables
    requires bookingId in t.bookings
  {
    t.(bookings := t.bookings[bookingId := t.bookings[bookingId].(status := status)])
  }

  predicate RoomOf(t: Tables, bookingId: Id, roomId: Id) {
    exists i :: 0 <= i < |t.stays| && t.stays[i].bookingId == bookingId && t.stays[i].roomId == roomId
  }

  function WithRooms(t: Tables, bookingId: Id, status: RoomStatus): Tables {
    t.(rooms := map r | r in t.rooms ::
      if RoomOf(t, bookingId, r) then t.rooms[r].(status := status) else t.rooms[r])
  }

  function RoomsFollow(t: Tables, bookingId: Id, next: BookingStatus): Tables {
    if next == CheckedIn then WithRooms(t, bookingId, Occupied)
    else if Terminal(next) then WithRooms(t, bookingId, Available)
    else t
  }

  predicate Visible(t: Tables, bookingId: Id, actor: Actor) {
    bookingId in t.bookings && (actor.isAdmin || t.bookings[bookingId].userId == actor.id)
  }

  function Patch(t: Tables, bookingId: Id, next: BookingStatus, actor: Actor): (r: Reply)
    ensures r.refusal != None ==> r.after == t
  {
    if !Visible(t, bookingId, actor) then Reply(t, Some(BookingNotFound))
    else
      var refusal := TransitionRefusal(t.bookings[bookingId].status, next, actor.isAdmin);
      if refusal != None then Reply(t, refusal)
      else Reply(RoomsFollow(WithStatus(t, bookingId, next), bookingId, next), None)
  }

  // ---- payments ----------------------------------------------------------------------------

  predicate HasAwaiting(t: Tables, bookingId: Id) {
    exists k :: k in t.payments && t.payments[k].bookingId == bookingId && t.payments[k].status == Awaiting
  }

  function PaymentFor(b: Booking, bookingId: Id, payer: Id, status: PaymentStatus): Payment {
    Payment(bookingId, payer, b.totalPrice, b.currency, status)
  }

  /** `intent` is the id the gateway answered with, or None when its call failed. The payer is the caller,
      whose id must be a user's for the row to be stored. */
  function CreateIntent(t: Tables, bookingId: Id, actor: Actor, intent: Option<string>): (r: Reply)
    ensures r.refusal != None ==> r.after == t
  {
    if bookingId !in t.bookings then Reply(t, Some(BookingNotFound))
    else
      var b := t.bookings[bookingId];
      if !actor.isAdmin && b.userId != actor.id then Reply(t, Some(NotYourBooking))
      else if b.status != Pending then Reply(t, Some(BookingNotPending))
      else if HasAwaiting(t, bookingId) then Reply(t, Some(PendingPaymentExists))
      else if intent == None then Reply(t, Some(GatewayFailed))
      else if intent.value in t.payments || actor.id !in t.users then Reply(t, Some(StorageFailed))
      else Reply(t.(payments := t.payments[intent.value := PaymentFor(b, bookingId, actor.id, Awaiting)]), None)
  }

  function WithPayment(t: Tables, intent: string, status: PaymentStatus): Tables
    requires intent in t.payments
  {
    t.(payments := t.payments[intent := t.payments[intent].(status := status)])
  }

  /** `UPDATE bookings SET status = CONFIRMED WHERE id = ... AND status = PENDING`. */
  function ConfirmIfPending(t: Tables, bookingId: Id): Tables {
    if bookingId in t.bookings && t.bookings[bookingId].status == Pending then WithStatus(t, bookingId, Confirmed)
    else t
  }

  function Succeeded(t: Tables, intent: string): Tables {
    if intent !in t.payments || t.payments[intent].status == Completed then t
    else ConfirmIfPending(WithPayment(t, intent, Completed), t.payments[intent].bookingId)
  }

  function FailedEvent(t: Tables, intent: string): Tables {
    if intent !in t.payments then t else WithPayment(t, intent, Failed)
  }

  function Digits(n: nat): (s: string)
    ensures |s| > 0
    ensures forall i :: 0 <= i < |s| ==> '0' <= s[i] <= '9'
  {
    if n < 10 then ['0' + n as char] else Digits(n / 10) + ['0' + (n % 10) as char]
  }

  const CASH_PREFIX := "cash_"

  function CashIntentId(bookingId: Id, now: nat): string {
    CASH_PREFIX + bookingId + "_" + Digits(now)
  }

  function ConfirmCash(t: Tables, bookingId: Id, now: nat): (r: Reply)
    ensures r.refusal != None ==> r.after == t
  {
    if bookingId !in t.bookings then Reply(t, Some(BookingNotFound))
    else
      var b := t.bookings[bookingId];
      if b.status != Pending then Reply(t, Some(BookingNotPending))
      else if CashIntentId(bookingId, now) in t.payments || b.userId !in t.users then Reply(t, Some(StorageFailed))
      else
        var payment := PaymentFor(b, bookingId, b.userId, Completed);
        var paid := t.(payments := t.payments[CashIntentId(bookingId, now) := payment]);
        Reply(WithStatus(paid, bookingId, Confirmed), None)
  }
}

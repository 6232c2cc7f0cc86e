/** The payment service over the shared tables, with the payment list cache that each of its writes
    invalidates. */
module PaymentService {
  import opened SequenceFacts
  import opened Money
  import opened Ids
  import opened CacheKeys
  import opened QueryCache
  import opened BookingModel
  import opened BookingService

  datatype PaymentPage = PaymentPage(items: seq<(string, Payment)>, total: nat)

  type PaymentTable = map<string, Payment>

  datatype Event = PaymentSucceeded(intent: string) | PaymentFailed(intent: string) | OtherEvent

  function PaymentStatusText(s: PaymentStatus): string {
    match s
    case Awaiting => "PENDING"
    case Completed => "COMPLETED"
    case Failed => "FAILED"
    case Refunded => "REFUNDED"
    case RefundPending => "REFUND_PENDING"
    case RefundFailed => "REFUND_FAILED"
  }

  /** Customers see their own payments; admins may filter by user. */
  predicate PaymentMatches(p: Payment, actor: Actor, fields: Fields) {
    && (if actor.isAdmin then MatchesId(fields, "userId", p.userId) else p.userId == actor.id)
    && MatchesText(fields, "status", PaymentStatusText(p.status))
    && MatchesId(fields, "bookingId", p.bookingId)
  }

  /** `browse` stands for the order and page of the query. */
  function ListPayments(payments: PaymentTable, browse: (PaymentTable, Fields) -> PaymentPage, actor: Actor,
                        fields: Fields): PaymentPage {
    browse(map k | k in payments && PaymentMatches(payments[k], actor, fields) :: payments[k], fields)
  }

  function CallerOf(q: ListQuery): Actor {
    if q.PaymentList? then Actor(q.userId, q.isAdmin) else Actor("", false)
  }

  function PaymentAnswers(payments: PaymentTable,
                          browse: (PaymentTable, Fields) -> PaymentPage): ListQuery -> PaymentPage {
    (q: ListQuery) => ListPayments(payments, browse, CallerOf(q), FieldsOf(q.filter))
  }

  lemma PaymentAnswersAreOfQuery(payments: PaymentTable, browse: (PaymentTable, Fields) -> PaymentPage)
    ensures OfQuery(PaymentAnswers(payments, browse))
  {
  }

  // ---- what a page shows -------------------------------------------------------------------

  /** A page shows rows of the query, and all of them when asked for everything. */
  ghost predicate ShowsRows(browse: (PaymentTable, Fields) -> PaymentPage) {
    && (forall rows, fields, item :: item in browse(rows, fields).items ==> item in rows.Items)
    && (forall rows, fields :: GetsAll(fields) ==> Elements(browse(rows, fields).items) == rows.Items)
  }

  /** What a caller may see and the filter asks for. */
  ghost predicate Wanted(p: Payment, actor: Actor, fields: Fields) {
    && (!actor.isAdmin ==> p.userId == actor.id)
    && (forall text :: actor.isAdmin && LooksFor(fields, "userId", text) ==> p.userId == Key(text))
    && (forall text :: LooksFor(fields, "bookingId", text) ==> p.bookingId == Key(text))
    && (forall text :: LooksFor(fields, "status", text) ==> StatusIs(p.status, text))
  }

  ghost predicate StatusIs(status: PaymentStatus, text: string) {
    || (status == Awaiting && text == "PENDING") || (status == Completed && text == "COMPLETED")
    || (status == Failed && text == "FAILED") || (status == Refunded && text == "REFUNDED")
    || (status == RefundPending && text == "REFUND_PENDING") || (status == RefundFailed && text == "REFUND_FAILED")
  }

  lemma MatchesIffWanted(p: Payment, actor: Actor, fields: Fields)
    ensures PaymentMatches(p, actor, fields) <==> Wanted(p, actor, fields)
  {
    forall name | name in fields && fields[name].Str? && fields[name].s != ""
      ensures LooksFor(fields, name, fields[name].s)
    {
    }
  }

  /** Every stored payment that the page shows is one that the caller may see and the filter asks for: a customer is
      shown no one else's. Asked for everything, it shows all of these. */
  ghost predicate ShowsWanted(page: PaymentPage, payments: PaymentTable, actor: Actor, fields: Fields) {
    && (forall k, p :: (k, p) in page.items ==> k in payments && payments[k] == p && Wanted(p, actor, fields))
    && (GetsAll(fields) ==> forall k :: k in payments && Wanted(payments[k], actor, fields) ==>
        (k, payments[k]) in page.items)
  }

  lemma ListShowsWanted(payments: PaymentTable, browse: (PaymentTable, Fields) -> PaymentPage, actor: Actor,
                        fields: Fields)
    requires ShowsRows(browse)
    ensures ShowsWanted(ListPayments(payments, browse, actor, fields), payments, actor, fields)
  {
    var rows := map k | k in payments && PaymentMatches(payments[k], actor, fields) :: payments[k];
    var page := browse(rows, fields);
    assert page == ListPayments(payments, browse, actor, fields);
    forall k, p | (k, p) in page.items ensures k in payments && payments[k] == p && Wanted(p, actor, fields) {
      assert (k, p) in rows.Items;
      MatchesIffWanted(p, actor, fields);
    }
    forall k | GetsAll(fields) && k in payments && Wanted(payments[k], actor, fields)
      ensures (k, payments[k]) in page.items
    {
      MatchesIffWanted(payments[k], actor, fields);
      assert (k, rows[k]) in rows.Items;
    }
  }

  lemma WriteKeepsCoherent(c: Entries<PaymentPage>, before: ListQuery -> PaymentPage, after: ListQuery -> PaymentPage)
    requires Coherent(c, Payments, before)
    ensures Coherent(Invalidated(c, PAYMENT_REGISTRY), Payments, after)
  {
  }

  class PaymentService {
    const db: Database
    const fpu: Fpu
    const browse: (PaymentTable, Fields) -> PaymentPage
    const cache: KeyedCache<PaymentPage>

    ghost predicate Valid()
      reads db, cache
    {
      Coherent(cache.entries, Payments, PaymentAnswers(db.payments, browse))
    }

    constructor (db: Database, fpu: Fpu, browse: (PaymentTable, Fields) -> PaymentPage)
      ensures Valid() && fresh(cache) && this.db == db && this.fpu == fpu && this.browse == browse
    {
      this.db := db;
      this.fpu := fpu;
      this.browse := browse;
      this.cache := new KeyedCache();
    }

    /** Saves the payment rows and deletes every cached payment list. */
    method SavePayments(payments: PaymentTable)
      requires Valid()
      modifies db`payments, cache
      ensures Valid() && db.payments == payments
    {
      ghost var before := PaymentAnswers(db.payments, browse);
      db.payments := payments;
      WriteKeepsCoherent(cache.entries, before, PaymentAnswers(db.payments, browse));
      cache.InvalidateLists(PAYMENT_REGISTRY);
    }

    /** `asked` is the number of cents the gateway was called with, if it was called. */
    method CreatePaymentIntent(bookingId: Id, actor: Actor, intent: Option<string>)
      returns (refusal: Option<Refusal>, asked: Option<int>)
      requires Valid()
      modifies db`payments, cache
      ensures Valid()
      ensures db.View() == CreateIntent(old(db.View()), bookingId, actor, intent).after
      ensures refusal == CreateIntent(old(db.View()), bookingId, actor, intent).refusal
      ensures asked.Some? ==>
                bookingId in db.bookings && asked.value == ToStripeAmount(fpu, db.bookings[bookingId].totalPrice)
      ensures asked.Some? <==>
                refusal == None || refusal == Some(GatewayFailed) || refusal == Some(StorageFailed)
    {
      asked := None;
      if bookingId !in db.bookings { return Some(BookingNotFound), asked; }
      var booking := db.bookings[bookingId];
      if !actor.isAdmin && booking.userId != actor.id { return Some(NotYourBooking), asked; }
      if booking.status != Pending { return Some(BookingNotPending), asked; }
      if HasAwaiting(db.View(), bookingId) { return Some(PendingPaymentExists), asked; }
      asked := Some(ToStripeAmount(fpu, booking.totalPrice));
      if intent == None { return Some(GatewayFailed), asked; }
      if intent.value in db.payments || actor.id !in db.users { return Some(StorageFailed), asked; }
      var payment := Payment(bookingId, actor.id, booking.totalPrice, booking.currency, Awaiting);
      SavePayments(db.payments[intent.value := payment]);
      return None, asked;
    }

    method HandleStripeWebhook(event: Event)
      requires Valid()
      modifies db`payments, db`bookings, cache
      ensures Valid()
      ensures db.View() == match event
                           case PaymentSucceeded(intent) => Succeeded(old(db.View()), intent)
                           case PaymentFailed(intent) => FailedEvent(old(db.View()), intent)
                           case OtherEvent => old(db.View())
    {
      match event {
        case PaymentSucceeded(intent) => HandlePaymentSuccess(intent);
        case PaymentFailed(intent) => HandlePaymentFailure(intent);
        case OtherEvent =>
      }
    }

    method HandlePaymentSuccess(intent: string)
      requires Valid()
      modifies db`payments, db`bookings, cache
      ensures Valid() && db.View() == Succeeded(old(db.View()), intent)
    {
      if intent !in db.payments { return; }
      var payment := db.payments[intent];
      if payment.status == Completed { return; }
      payment := payment.(status := Completed);
      SavePayments(db.payments[intent := payment]);
      if payment.bookingId in db.bookings && db.bookings[payment.bookingId].status == Pending {
        db.bookings := db.bookings[payment.bookingId := db.bookings[payment.bookingId].(status := Confirmed)];
      }
    }

    method HandlePaymentFailure(intent: string)
      requires Valid()
      modifies db`payments, cache
      ensures Valid() && db.View() == FailedEvent(old(db.View()), intent)
    {
      if intent !in db.payments { return; }
      SavePayments(db.payments[intent := db.payments[intent].(status := Failed)]);
    }

    method ConfirmCashPayment(bookingId: Id, now: nat) returns (refusal: Option<Refusal>)
      requires Valid()
      modifies db`payments, db`bookings, cache
      ensures Valid()
      ensures db.View() == ConfirmCash(old(db.View()), bookingId, now).after
      ensures refusal == ConfirmCash(old(db.View()), bookingId, now).refusal
    {
      if bookingId !in db.bookings { return Some(BookingNotFound); }
      var booking := db.bookings[bookingId];
      if booking.status != Pending { return Some(BookingNotPending); }
      var intent := CashIntentId(bookingId, now);
      if intent in db.payments || booking.userId !in db.users { return Some(StorageFailed); }
      var payment := Payment(bookingId, booking.userId, booking.totalPrice, booking.currency, Completed);
      SavePayments(db.payments[intent := payment]);
      db.bookings := db.bookings[bookingId := booking.(status := Confirmed)];
      return None;
    }

    /** The page is what the database would give, from the cache or not. */
    method FindAll(filter: seq<Prop>, actor: Actor) returns (r: PaymentPage)
      requires Valid() && IsObject(filter) && NoColon(actor.id)
      modifies cache
      ensures Valid() && r == ListPayments(db.payments, browse, actor, FieldsOf(filter))
      ensures ShowsRows(browse) ==> ShowsWanted(r, db.payments, actor, FieldsOf(filter))
    {
      if ShowsRows(browse) {
        ListShowsWanted(db.payments, browse, actor, FieldsOf(filter));
      }
      var q := PaymentList(filter, actor.isAdmin, actor.id);
      ghost var answer := PaymentAnswers(db.payments, browse);
      if KeyOf(q) in cache.entries {
        assert cache.entries[KeyOf(q)] == Answer(answer(q));
        return cache.entries[KeyOf(q)].value;
      }
      r := ListPayments(db.payments, browse, actor, FieldsOf(filter));
      assert r == answer(q);
      PaymentAnswersAreOfQuery(db.payments, browse);
      FillKeepsCoherent(cache.entries, q, answer);
      cache.Fill(q, r);
    }
  }
}

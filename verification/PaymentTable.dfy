/** What the payment table keeps in every run: at most one pending and at most one cash payment per
    booking, amounts that never drift from their booking, a status that follows the gateway's last
    word, and money that is exact from the create request to the gateway call. */
module PaymentTable {
  import opened SequenceFacts
  import opened Money
  import opened BookingModel
  import opened BookingRuns

  predicate IsCash(intent: string) {
    CASH_PREFIX <= intent
  }

  lemma UnderscoreSeparates(b: string, digits: string, b': string, digits': string)
    requires '_' !in digits && |b| < |b'|
    ensures b + "_" + digits != b' + "_" + digits'
  {
    var s, s' := b + "_" + digits, b' + "_" + digits';
    if |s| == |s'| {
      assert s[|b'|] == digits[|b'| - |b| - 1];
      assert s'[|b'|] == '_';
    }
  }

  /** The id of a cash payment determines its booking: no digit is an underscore, so the booking id
      ends at the last one. */
  lemma CashIdDeterminesBooking(b: Id, n: nat, b': Id, n': nat)
    requires CashIntentId(b, n) == CashIntentId(b', n')
    ensures b == b'
  {
    var tail, tail' := b + "_" + Digits(n), b' + "_" + Digits(n');
    assert CashIntentId(b, n)[|CASH_PREFIX|..] == tail && CashIntentId(b', n')[|CASH_PREFIX|..] == tail';
    if |b| < |b'| {
      UnderscoreSeparates(b, Digits(n), b', Digits(n'));
    } else if |b'| < |b| {
      UnderscoreSeparates(b', Digits(n'), b, Digits(n));
    }
    assert b == tail[..|b|] && b' == tail'[..|b'|];
  }

  /** The number that decimal digits stand for. */
  function NumberOf(digits: string): int {
    if digits == "" then 0 else NumberOf(digits[..|digits| - 1]) * 10 + (digits[|digits| - 1] as int - '0' as int)
  }

  lemma {:induction false} DigitsStandFor(n: nat)
    ensures NumberOf(Digits(n)) == n
  {
    if n < 10 {
      assert Digits(n)[..0] == "";
    } else {
      DigitsStandFor(n / 10);
      assert Digits(n)[..|Digits(n)| - 1] == Digits(n / 10);
    }
  }

  /** The id of a cash payment spells out the booking and the millisecond. */
  lemma CashIdText(b: Id, now: nat) returns (digits: string)
    ensures CashIntentId(b, now) == "cash_" + b + "_" + digits && NumberOf(digits) == now
    ensures forall i :: 0 <= i < |digits| ==> '0' <= digits[i] <= '9'
  {
    digits := Digits(now);
    DigitsStandFor(now);
  }

  ghost predicate AmountsMatch(t: Tables) {
    forall p :: p in t.payments ==>
      var pay := t.payments[p];
      pay.bookingId in t.bookings && pay.amount == t.bookings[pay.bookingId].totalPrice &&
      pay.currency == t.bookings[pay.bookingId].currency
  }

  predicate IsAwaiting(t: Tables, p: string) {
    p in t.payments && t.payments[p].status == Awaiting
  }

  ghost predicate OneAwaiting(t: Tables) {
    forall p, q :: IsAwaiting(t, p) && IsAwaiting(t, q) && p != q ==>
      t.payments[p].bookingId != t.payments[q].bookingId
  }

  ghost predicate IsCashOf(intent: string, b: Id) {
    exists now: nat :: intent == CashIntentId(b, now)
  }

  ghost predicate CashIsFinal(t: Tables) {
    forall p :: p in t.payments && IsCash(p) ==>
      var b := t.payments[p].bookingId;
      IsCashOf(p, b) && b in t.bookings && t.bookings[b].status != Pending
  }

  ghost predicate OneCash(t: Tables) {
    forall p, q :: p in t.payments && q in t.payments && p != q && IsCash(p) && IsCash(q) ==>
      t.payments[p].bookingId != t.payments[q].bookingId
  }

  ghost predicate Sound(t: Tables) {
    AmountsMatch(t) && OneAwaiting(t) && CashIsFinal(t) && OneCash(t)
  }

  /** Payments may change status, but none becomes pending again. */
  ghost predicate Settles(t: Tables, u: Tables) {
    && u.payments.Keys == t.payments.Keys
    && forall p :: p in t.payments ==>
         u.payments[p] == t.payments[p].(status := u.payments[p].status) &&
         (u.payments[p].status == Awaiting ==> t.payments[p].status == Awaiting)
  }

  lemma SettlingKeepsSound(t: Tables, u: Tables)
    requires Sound(t) && Settles(t, u) && BookingsFollow(t, u)
    ensures Sound(u)
  {
  }

  lemma IntentKeepsSound(t: Tables, b: Id, actor: Actor, answer: Option<string>)
    requires Sound(t) && (answer.Some? ==> !IsCash(answer.value))
    ensures Sound(CreateIntent(t, b, actor, answer).after)
  {
  }

  /** A cash id that could clash would belong to the same booking, which is then no longer PENDING. */
  lemma CashIdIsFresh(t: Tables, b: Id, now: nat)
    requires CashIsFinal(t) && b in t.bookings && t.bookings[b].status == Pending
    ensures CashIntentId(b, now) !in t.payments
  {
    var id := CashIntentId(b, now);
    if id in t.payments {
      var now' :| id == CashIntentId(t.payments[id].bookingId, now');
      CashIdDeterminesBooking(b, now, t.payments[id].bookingId, now');
    }
  }

  lemma CashKeepsSound(t: Tables, b: Id, now: nat)
    requires Sound(t)
    ensures Sound(ConfirmCash(t, b, now).after)
  {
    var u := ConfirmCash(t, b, now).after;
    if b in t.bookings && t.bookings[b].status == Pending {
      var id := CashIntentId(b, now);
      CashIdIsFresh(t, b, now);
      assert IsCashOf(id, b);
      forall p | p in t.payments && IsCash(p) ensures t.payments[p].bookingId != b {
      }
    }
  }

  /** The gateway never hands out an id of the form the service makes up for cash. */
  ghost predicate GatewayIds(step: Step) {
    step.IntentStep? && step.answer.Some? ==> !IsCash(step.answer.value)
  }

  lemma RequestsSettle(m: Machine, step: Step)
    requires step.CreateStep? || step.PatchStep? || step.UserStep? || step.CatalogueStep?
    ensures Settles(m.t, Next(m, step).t)
  {
  }

  lemma SavingSettles(t: Tables, intent: string, status: PaymentStatus)
    requires intent in t.payments && status != Awaiting
    ensures Settles(t, WithPayment(t, intent, status))
  {
  }

  lemma SuccessSettles(t: Tables, intent: string)
    ensures Settles(t, Succeeded(t, intent))
  {
  }

  lemma HandlerSettles(m: Machine, step: Step)
    requires step.LoadStep? || step.SaveStep? || step.ConfirmStep?
    ensures Settles(m.t, Next(m, step).t)
  {
    if step.SaveStep? && step.handler in m.handlers && m.handlers[step.handler].intent in m.t.payments {
      SavingSettles(m.t, m.handlers[step.handler].intent, Completed);
    } else {
      assert Next(m, step).t.payments == m.t.payments;
    }
  }

  lemma OtherStepsSettle(m: Machine, step: Step)
    requires !step.IntentStep? && !step.CashStep?
    ensures Settles(m.t, Next(m, step).t)
  {
    match step {
      case SucceededStep(intent) => SuccessSettles(m.t, intent);
      case FailedStep(intent) => if intent in m.t.payments { SavingSettles(m.t, intent, Failed); }
      case LoadStep(_, _) => HandlerSettles(m, step);
      case SaveStep(_) => HandlerSettles(m, step);
      case ConfirmStep(_) => HandlerSettles(m, step);
      case _ => RequestsSettle(m, step);
    }
  }

  lemma StepKeepsSound(m: Machine, step: Step)
    requires Sound(m.t) && GatewayIds(step)
    ensures Sound(Next(m, step).t)
  {
    match step {
      case IntentStep(b, actor, answer) => IntentKeepsSound(m.t, b, actor, answer);
      case CashStep(b, now) => CashKeepsSound(m.t, b, now);
      case _ =>
        StepMoves(m, step);
        OtherStepsSettle(m, step);
        SettlingKeepsSound(m.t, Next(m, step).t);
    }
  }

  /** In every state of every run: one pending and one cash payment per booking at most, and every
      payment carries its booking's amount and currency. */
  lemma {:induction false} AlwaysSound(steps: seq<Step>, n: nat)
    requires n <= |steps| && forall i :: 0 <= i < |steps| ==> GatewayIds(steps[i])
    ensures Sound(At(steps, n).t)
  {
    if n > 0 {
      AlwaysSound(steps, n - 1);
      AtNext(steps, n - 1);
      StepKeepsSound(At(steps, n - 1), steps[n - 1]);
    }
  }

  /** So a cash payment is recorded, and confirms the booking, exactly while the booking is PENDING: its
      made-up id never clashes. */
  lemma CashAcceptedIff(steps: seq<Step>, n: nat, b: Id, now: nat)
    requires n <= |steps| && forall i :: 0 <= i < |steps| ==> GatewayIds(steps[i])
    ensures var t, r := At(steps, n).t, ConfirmCash(At(steps, n).t, b, now);
            && (r.refusal == None <==> b in t.bookings && t.bookings[b].status == Pending)
            && (r.refusal == None ==>
                  && r.after.bookings == t.bookings[b := t.bookings[b].(status := Confirmed)]
                  && r.after.payments.Keys == t.payments.Keys + {CashIntentId(b, now)}
                  && (forall p :: p in t.payments ==> r.after.payments[p] == t.payments[p])
                  && CashIntentId(b, now) !in t.payments
                  && r.after.payments[CashIntentId(b, now)] ==
                     Payment(b, t.bookings[b].userId, t.bookings[b].totalPrice, t.bookings[b].currency, Completed)
                  && r.after.stays == t.stays && r.after.rooms == t.rooms && r.after.users == t.users)
  {
    var t := At(steps, n).t;
    AlwaysSound(steps, n);
    AlwaysKeyed(steps, n);
    if b in t.bookings && t.bookings[b].status == Pending {
      CashIdIsFresh(t, b, now);
    }
  }

  // ---- the last event wins -----------------------------------------------------------------

  /** What a step says about the intent: a success or failure event, or the save of a success handler that
      has loaded its payment. */
  function Verdict(m: Machine, step: Step, intent: string): Option<PaymentStatus> {
    match step
    case SucceededStep(p) => if p == intent then Some(Completed) else None
    case FailedStep(p) => if p == intent then Some(Failed) else None
    case SaveStep(h) =>
      if h in m.handlers && m.handlers[h].Loaded? && m.handlers[h].intent == intent then Some(Completed) else None
    case _ => None
  }

  function LastVerdict(m: Machine, steps: seq<Step>, intent: string): Option<PaymentStatus> {
    if steps == [] then None
    else
      var init := steps[..|steps| - 1];
      var last := Verdict(Run(m, init), steps[|steps| - 1], intent);
      if last.Some? then last else LastVerdict(m, init, intent)
  }

  lemma RequestsKeepStatus(m: Machine, step: Step, intent: string)
    requires intent in m.t.payments && (step.CreateStep? || step.PatchStep? || step.IntentStep? || step.CashStep?)
    ensures intent in Next(m, step).t.payments
    ensures Next(m, step).t.payments[intent].status == m.t.payments[intent].status
  {
  }

  lemma StepVerdict(m: Machine, step: Step, intent: string)
    requires intent in m.t.payments
    ensures intent in Next(m, step).t.payments
    ensures Next(m, step).t.payments[intent].status == Or(Verdict(m, step, intent), m.t.payments[intent].status)
  {
    if step.CreateStep? || step.PatchStep? || step.IntentStep? || step.CashStep? {
      RequestsKeepStatus(m, step, intent);
    }
  }

  /** Events that are duplicated, reordered, split at their awaits or mixed with any requests and other
      handlers: a payment has the status of the event that was saved last. */
  lemma {:induction false} LastEventWins(m: Machine, steps: seq<Step>, intent: string)
    requires intent in m.t.payments
    ensures intent in Run(m, steps).t.payments
    ensures Run(m, steps).t.payments[intent].status == Or(LastVerdict(m, steps, intent), m.t.payments[intent].status)
  {
    if steps != [] {
      LastEventWins(m, steps[..|steps| - 1], intent);
      StepVerdict(Run(m, steps[..|steps| - 1]), steps[|steps| - 1], intent);
    }
  }

  // ---- exact money, end to end -------------------------------------------------------------

  function SumOfRooms(stays: seq<Stay>): Cents {
    if stays == [] then 0 else SumOfRooms(stays[..|stays| - 1]) + stays[|stays| - 1].totalPrice
  }

  lemma {:induction false} LineIsNoMoreThanTotal(lines: seq<Line>, k: nat)
    requires Sellable(lines) && k < |lines|
    ensures 0 <= lines[k].price * lines[k].nights <= ExactTotal(lines)
  {
    var init := lines[..|lines| - 1];
    ExactTotalIsMonotone(lines);
    if k < |init| {
      LineIsNoMoreThanTotal(init, k);
    } else {
      assert 0 <= lines[k].price * lines[k].nights;
    }
  }

  /** Each stored row of the request is exact. */
  ghost predicate ExactRows(t: Tables, items: seq<Item>, stays: seq<Stay>)
    requires Priced(t, items)
  {
    |stays| == |items| &&
    forall k :: 0 <= k < |items| ==>
      var line := LineOf(t, items[k]);
      stays[k].pricePerNight == line.price && stays[k].totalPrice == line.price * line.nights
  }

  lemma {:induction false} ExactRowsAddUp(t: Tables, items: seq<Item>, stays: seq<Stay>)
    requires Priced(t, items) && ExactRows(t, items, stays)
    ensures SumOfRooms(stays) == ExactTotal(Lines(t, items))
  {
    if items != [] {
      var n := |items| - 1;
      ExactRowsAddUp(t, items[..n], stays[..n]);
      assert Lines(t, items)[..n] == Lines(t, items[..n]);
    }
  }

  /** The prices of a request's rate options are not negative, its dates are in order, and it names
      at most 4000 rooms. */
  ghost predicate Chargeable(t: Tables, items: seq<Item>) {
    Priced(t, items) && Sellable(Lines(t, items)) && |items| <= 4000 && ExactTotal(Lines(t, items)) <= MOST
  }

  /** An accepted request stores price, price x nights and their sum without losing a cent. */
  lemma AcceptedBookingIsExact(t: Tables, f: Fpu, newId: Id, head: Header, items: seq<Item>)
    requires Faithful(f) && Chargeable(t, items)
    requires Storable(t, newId, NewBooking(t, f, head, items), NewStays(t, f, newId, items))
    ensures ExactRows(t, items, NewStays(t, f, newId, items))
    ensures NewBooking(t, f, head, items).totalPrice == SumOfRooms(NewStays(t, f, newId, items)) ==
            ExactTotal(Lines(t, items))
    ensures 0 <= NewBooking(t, f, head, items).totalPrice < MAX_CENTS
  {
    var lines, stays := Lines(t, items), NewStays(t, f, newId, items);
    ExactTotalIsMonotone(lines);
    AcceptedTotalFits(f, lines);
    HalfCentUpTo(|lines|, ExactTotal(lines));
    StoredTotalIsExact(f, lines);
    forall k | 0 <= k < |items|
      ensures stays[k].pricePerNight == lines[k].price && stays[k].totalPrice == lines[k].price * lines[k].nights
    {
      LineIsNoMoreThanTotal(lines, k);
      HalfCentUpTo(0, lines[k].price * lines[k].nights);
      StoredRoomIsExact(f, lines[k]);
    }
    ExactRowsAddUp(t, items, stays);
  }

  /** From the request to the gateway: whatever happens after a booking was accepted, its total, the
      amount of each of its payments, and the number of cents the gateway is asked for are the exact
      sum of price x nights. */
  lemma ExactToTheGateway(steps: seq<Step>, i: nat, n: nat, f: Fpu, p: string)
    requires i < n <= |steps| && forall k :: 0 <= k < |steps| ==> GatewayIds(steps[k])
    requires steps[i].CreateStep? && Faithful(steps[i].f) && Faithful(f)
    requires var t, s := At(steps, i).t, steps[i];
             Create(t, s.f, s.newId, s.head, s.items, s.today).refusal == None && Chargeable(t, s.items)
    requires p in At(steps, n).t.payments && At(steps, n).t.payments[p].bookingId == steps[i].newId
    ensures var exact := ExactTotal(Lines(At(steps, i).t, steps[i].items));
            && steps[i].newId in At(steps, n).t.bookings
            && At(steps, n).t.bookings[steps[i].newId].totalPrice == exact
            && At(steps, n).t.payments[p].amount == exact
            && ToStripeAmount(f, At(steps, n).t.payments[p].amount) == exact
  {
    var t, s := At(steps, i).t, steps[i];
    AcceptedBookingIsExact(t, s.f, s.newId, s.head, s.items);
    AtNext(steps, i);
    BookingPersists(steps, i + 1, n, s.newId);
    AlwaysSound(steps, n);
    HalfCentUpTo(0, ExactTotal(Lines(t, s.items)));
    StripeAmountIsExact(f, ExactTotal(Lines(t, s.items)));
  }
}

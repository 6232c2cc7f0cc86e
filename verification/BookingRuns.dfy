/** Runs of the booking and payment services: any sequence of requests and gateway events, with the
    success handler either whole or split at its awaits. Every theorem is about each state of each
    run. */
module BookingRuns {
  import opened SequenceFacts
  import opened Money
  import opened BookingModel

  /** A success handler between its awaits: it has read its payment, or it has also saved it. */
  datatype Handler = Loaded(intent: string, bookingId: Id) | Saved(intent: string, bookingId: Id)

  datatype Machine = Machine(t: Tables, handlers: map<nat, Handler>)

  datatype Step =
    | CreateStep(f: Fpu, newId: Id, head: Header, items: seq<Item>, today: int)
    | PatchStep(bookingId: Id, next: BookingStatus, actor: Actor)
    | IntentStep(bookingId: Id, actor: Actor, answer: Option<string>)
    | CashStep(bookingId: Id, now: nat)
    | SucceededStep(intent: string)
    | FailedStep(intent: string)
    | LoadStep(handler: nat, intent: string)
    | SaveStep(handler: nat)
    | ConfirmStep(handler: nat)
    | UserStep(userId: Id)
    | CatalogueStep(rooms: map<Id, Room>, rateOptions: map<Id, RateOption>)

  function LoadPayment(m: Machine, h: nat, intent: string): Machine {
    if h in m.handlers || intent !in m.t.payments || m.t.payments[intent].status == Completed then m
    else m.(handlers := m.handlers[h := Loaded(intent, m.t.payments[intent].bookingId)])
  }

  function SavePayment(m: Machine, h: nat): Machine {
    if h in m.handlers && m.handlers[h].Loaded? && m.handlers[h].intent in m.t.payments then
      var loaded := m.handlers[h];
      Machine(WithPayment(m.t, loaded.intent, Completed), m.handlers[h := Saved(loaded.intent, loaded.bookingId)])
    else m
  }

  function ConfirmBooking(m: Machine, h: nat): Machine {
    if h in m.handlers && m.handlers[h].Saved? then
      Machine(ConfirmIfPending(m.t, m.handlers[h].bookingId), m.handlers - {h})
    else m
  }

  function Next(m: Machine, step: Step): Machine {
    match step
    case CreateStep(f, newId, head, items, today) => m.(t := Create(m.t, f, newId, head, items, today).after)
    case PatchStep(id, next, actor) => m.(t := Patch(m.t, id, next, actor).after)
    case IntentStep(id, actor, answer) => m.(t := CreateIntent(m.t, id, actor, answer).after)
    case CashStep(id, now) => m.(t := ConfirmCash(m.t, id, now).after)
    case SucceededStep(intent) => m.(t := Succeeded(m.t, intent))
    case FailedStep(intent) => m.(t := FailedEvent(m.t, intent))
    case LoadStep(h, intent) => LoadPayment(m, h, intent)
    case SaveStep(h) => SavePayment(m, h)
    case ConfirmStep(h) => ConfirmBooking(m, h)
    case UserStep(userId) => m.(t := m.t.(users := m.t.users + {userId}))
    case CatalogueStep(rooms, rateOptions) => m.(t := m.t.(rooms := rooms, rateOptions := rateOptions))
  }

  function Run(m: Machine, steps: seq<Step>): Machine {
    if steps == [] then m else Next(Run(m, steps[..|steps| - 1]), steps[|steps| - 1])
  }

  function Start(rooms: map<Id, Room>, rateOptions: map<Id, RateOption>): Machine {
    Machine(Tables(map[], [], map[], rooms, rateOptions, {}), map[])
  }

  /** The machine after the first `n` steps of a run from empty tables. */
  function At(steps: seq<Step>, n: nat): Machine
    requires n <= |steps|
  {
    Run(Start(map[], map[]), steps[..n])
  }

  lemma AtNext(steps: seq<Step>, n: nat)
    requires n < |steps|
    ensures At(steps, n + 1) == Next(At(steps, n), steps[n])
  {
    assert steps[..n + 1][..n] == steps[..n];
  }

  /** Splitting the success handler changes nothing when no other step runs in between. */
  lemma SplitHandlerIsWhole(m: Machine, h: nat, intent: string)
    requires h !in m.handlers
    ensures Next(Next(Next(m, LoadStep(h, intent)), SaveStep(h)), ConfirmStep(h)) == Next(m, SucceededStep(intent))
  {
  }

  // ---- how one step moves bookings ---------------------------------------------------------

  ghost predicate Edge(a: BookingStatus, b: BookingStatus) {
    || (a == Pending && (b == Confirmed || b == Cancelled))
    || (a == Confirmed && (b == CheckedIn || b == Cancelled))
    || (a == CheckedIn && b == CheckedOut)
  }

  ghost predicate Follows(before: Booking, after: Booking) {
    after == before.(status := after.status) && (after.status == before.status || Edge(before.status, after.status))
  }

  ghost predicate BookingsFollow(t: Tables, u: Tables) {
    && (forall b :: b in t.bookings ==> b in u.bookings && Follows(t.bookings[b], u.bookings[b]))
    && (forall b :: b in u.bookings && b !in t.bookings ==> u.bookings[b].status == Pending)
    && t.stays <= u.stays
  }

  /** Bookings and stays neither appear nor disappear; only statuses move along edges. */
  ghost predicate OnlyMoves(t: Tables, u: Tables) {
    BookingsFollow(t, u) && u.bookings.Keys == t.bookings.Keys && u.stays == t.stays
  }

  lemma CreateMoves(t: Tables, f: Fpu, newId: Id, head: Header, items: seq<Item>, today: int)
    ensures BookingsFollow(t, Create(t, f, newId, head, items, today).after)
  {
  }

  lemma PatchMoves(t: Tables, id: Id, next: BookingStatus, actor: Actor)
    ensures OnlyMoves(t, Patch(t, id, next, actor).after)
  {
  }

  lemma ConfirmMoves(t: Tables, id: Id)
    ensures OnlyMoves(t, ConfirmIfPending(t, id))
  {
  }

  lemma SucceededMoves(t: Tables, intent: string)
    ensures OnlyMoves(t, Succeeded(t, intent))
  {
  }

  lemma CashMoves(t: Tables, id: Id, now: nat)
    ensures OnlyMoves(t, ConfirmCash(t, id, now).after)
  {
  }

  lemma StepMoves(m: Machine, step: Step)
    ensures BookingsFollow(m.t, Next(m, step).t)
    ensures !step.CreateStep? ==> OnlyMoves(m.t, Next(m, step).t)
  {
    match step {
      case CreateStep(f, newId, head, items, today) => CreateMoves(m.t, f, newId, head, items, today);
      case PatchStep(id, next, actor) => PatchMoves(m.t, id, next, actor);
      case CashStep(id, now) => CashMoves(m.t, id, now);
      case SucceededStep(intent) => SucceededMoves(m.t, intent);
      case ConfirmStep(h) =>
        if h in m.handlers {
          ConfirmMoves(m.t, m.handlers[h].bookingId);
        }
      case _ =>
    }
  }

  lemma RunMoves(steps: seq<Step>, n: nat)
    requires n < |steps|
    ensures BookingsFollow(At(steps, n).t, At(steps, n + 1).t)
  {
    AtNext(steps, n);
    StepMoves(At(steps, n), steps[n]);
  }

  /** A gateway event, whole or in parts, moves a booking from PENDING to CONFIRMED or not at all. */
  lemma EventsOnlyConfirm(m: Machine, step: Step, b: Id)
    requires step.SucceededStep? || step.FailedStep? || step.LoadStep? || step.SaveStep? || step.ConfirmStep?
    requires b in m.t.bookings
    ensures b in Next(m, step).t.bookings
    ensures var before, after := m.t.bookings[b].status, Next(m, step).t.bookings[b].status;
            after == before || (before == Pending && after == Confirmed)
    ensures step.FailedStep? ==> Next(m, step).t.bookings == m.t.bookings
  {
  }

  // ---- the history of one booking ----------------------------------------------------------

  /** A booking stays in the table with everything but its status, and so do all stays. */
  ghost predicate Persists(t: Tables, u: Tables, b: Id) {
    && b in t.bookings && b in u.bookings && u.bookings[b] == t.bookings[b].(status := u.bookings[b].status)
    && t.stays <= u.stays
  }

  lemma PersistsOn(t: Tables, u: Tables, v: Tables, b: Id)
    requires Persists(t, u, b) && BookingsFollow(u, v)
    ensures Persists(t, v, b)
  {
  }

  lemma {:induction false} BookingPersists(steps: seq<Step>, i: nat, j: nat, b: Id)
    requires i <= j <= |steps| && b in At(steps, i).t.bookings
    ensures Persists(At(steps, i).t, At(steps, j).t, b)
    decreases j
  {
    if i < j {
      BookingPersists(steps, i, j - 1, b);
      RunMoves(steps, j - 1);
      PersistsOn(At(steps, i).t, At(steps, j - 1).t, At(steps, j).t, b);
    }
  }

  function Height(s: BookingStatus): nat {
    match s
    case Pending => 3
    case Confirmed => 2
    case CheckedIn => 1
    case _ => 0
  }

  /** The status a booking has after `n` steps. */
  function StatusAt(steps: seq<Step>, n: nat, b: Id): Option<BookingStatus>
    requires n <= |steps|
  {
    if b in At(steps, n).t.bookings then Some(At(steps, n).t.bookings[b].status) else None
  }

  /** How often the booking's status changed in the first `n` steps. */
  function Changes(steps: seq<Step>, n: nat, b: Id): nat
    requires n <= |steps|
  {
    if n == 0 then 0
    else
      var before, after := StatusAt(steps, n - 1, b), StatusAt(steps, n, b);
      Changes(steps, n - 1, b) + if before.Some? && before != after then 1 else 0
  }

  /** How often it became CONFIRMED. */
  function Confirmations(steps: seq<Step>, n: nat, b: Id): nat
    requires n <= |steps|
  {
    if n == 0 then 0
    else
      var before, after := StatusAt(steps, n - 1, b), StatusAt(steps, n, b);
      Confirmations(steps, n - 1, b) + if before != Some(Confirmed) && after == Some(Confirmed) then 1 else 0
  }

  ghost predicate StatusFollows(before: Option<BookingStatus>, after: Option<BookingStatus>) {
    match (before, after)
    case (None, Some(s)) => s == Pending
    case (Some(s), Some(s')) => s == s' || Edge(s, s')
    case (None, None) => true
    case (Some(_), None) => false
  }

  /** Every booking starts PENDING, and each change of its status follows an edge. */
  lemma StatusFollowsEdges(steps: seq<Step>, n: nat, b: Id)
    requires n < |steps|
    ensures StatusFollows(StatusAt(steps, n, b), StatusAt(steps, n + 1, b))
  {
    RunMoves(steps, n);
    var t, u := At(steps, n).t, At(steps, n + 1).t;
    if b in t.bookings {
      assert Follows(t.bookings[b], u.bookings[b]);
    }
  }

  /** Changes of status use up height, so there are at most three; and a booking is confirmed at most
      once: after leaving PENDING never again. */
  lemma {:induction false} BookingHistory(steps: seq<Step>, n: nat, b: Id)
    requires n <= |steps|
    ensures StatusAt(steps, n, b) == None ==> Changes(steps, n, b) == 0 && Confirmations(steps, n, b) == 0
    ensures StatusAt(steps, n, b).Some? ==>
              var s := StatusAt(steps, n, b).value;
              Changes(steps, n, b) + Height(s) <= 3 &&
              Confirmations(steps, n, b) + (if s == Pending then 1 else 0) <= 1
  {
    if n > 0 {
      BookingHistory(steps, n - 1, b);
      StatusFollowsEdges(steps, n - 1, b);
    }
  }

  // ---- keys --------------------------------------------------------------------------------

  /** Bookings and payments belong to stored users, and no reference is used twice. */
  ghost predicate Keyed(t: Tables) {
    && (forall b :: b in t.bookings ==> t.bookings[b].userId in t.users)
    && (forall p :: p in t.payments ==> t.payments[p].userId in t.users)
    && (forall a, b :: a in t.bookings && b in t.bookings && a != b ==>
        t.bookings[a].reference != t.bookings[b].reference)
  }

  lemma CreateKeepsKeyed(t: Tables, f: Fpu, newId: Id, head: Header, items: seq<Item>, today: int)
    requires Keyed(t)
    ensures Keyed(Create(t, f, newId, head, items, today).after)
  {
    var u := Create(t, f, newId, head, items, today).after;
    if u.bookings != t.bookings {
      assert !ReferenceTaken(t, head.reference);
      assert u.bookings == t.bookings[newId := NewBooking(t, f, head, items)];
    }
  }

  /** What the steps that store no payer leave of the keys. */
  ghost predicate SameKeys(t: Tables, u: Tables) {
    && t.users <= u.users && u.payments.Keys == t.payments.Keys && PaymentsKept(t, u) && OnlyMoves(t, u)
  }

  lemma SameKeysKeyed(t: Tables, u: Tables)
    requires Keyed(t) && SameKeys(t, u)
    ensures Keyed(u)
  {
    forall b | b in t.bookings
      ensures b in u.bookings && u.bookings[b] == t.bookings[b].(status := u.bookings[b].status)
    {
      assert Follows(t.bookings[b], u.bookings[b]);
    }
  }

  lemma OtherStepsKeepKeys(m: Machine, step: Step)
    requires !step.CreateStep? && !step.IntentStep? && !step.CashStep?
    ensures m.t.users <= Next(m, step).t.users && Next(m, step).t.payments.Keys == m.t.payments.Keys
  {
  }

  lemma IntentKeepsKeyed(t: Tables, id: Id, actor: Actor, answer: Option<string>)
    requires Keyed(t)
    ensures Keyed(CreateIntent(t, id, actor, answer).after)
  {
    assert CreateIntent(t, id, actor, answer).after.bookings == t.bookings;
  }

  lemma CashKeepsKeyed(t: Tables, id: Id, now: nat)
    requires Keyed(t)
    ensures Keyed(ConfirmCash(t, id, now).after)
  {
    var u := ConfirmCash(t, id, now).after;
    assert u.bookings == t.bookings || u.bookings == t.bookings[id := t.bookings[id].(status := Confirmed)];
  }

  lemma StepKeepsKeyed(m: Machine, step: Step)
    requires Keyed(m.t)
    ensures Keyed(Next(m, step).t)
  {
    if step.CreateStep? {
      CreateKeepsKeyed(m.t, step.f, step.newId, step.head, step.items, step.today);
    } else if step.IntentStep? {
      IntentKeepsKeyed(m.t, step.bookingId, step.actor, step.answer);
    } else if step.CashStep? {
      CashKeepsKeyed(m.t, step.bookingId, step.now);
    } else {
      StepMoves(m, step);
      PaymentsPersist(m, step);
      OtherStepsKeepKeys(m, step);
      SameKeysKeyed(m.t, Next(m, step).t);
    }
  }

  /** In every state of every run each booking and each payment belongs to a stored user, and references
      are unique. */
  lemma {:induction false} AlwaysKeyed(steps: seq<Step>, n: nat)
    requires n <= |steps|
    ensures Keyed(At(steps, n).t)
  {
    if n > 0 {
      AlwaysKeyed(steps, n - 1);
      AtNext(steps, n - 1);
      StepKeepsKeyed(At(steps, n - 1), steps[n - 1]);
    }
  }

  // ---- a confirmed booking has been paid ---------------------------------------------------

  ghost predicate PaidIn(t: Tables, p: string, b: Id) {
    p in t.payments && t.payments[p].bookingId == b && t.payments[p].status == Completed
  }

  /** Some payment of the booking was COMPLETED after one of the first `n` steps. */
  ghost predicate EverPaid(steps: seq<Step>, n: nat, b: Id)
    requires n <= |steps|
  {
    exists k, p :: 0 <= k <= n && PaidIn(At(steps, k).t, p, b)
  }

  /** A handler's payment stays in the table with the booking it was read with. */
  ghost predicate HandlersMatch(m: Machine) {
    forall h :: h in m.handlers ==>
      m.handlers[h].intent in m.t.payments && m.t.payments[m.handlers[h].intent].bookingId == m.handlers[h].bookingId
  }

  /** Payments stay in the table and keep everything but their status. */
  ghost predicate PaymentsKept(t: Tables, u: Tables) {
    forall p :: p in t.payments ==> p in u.payments && u.payments[p] == t.payments[p].(status := u.payments[p].status)
  }

  lemma RequestsKeepPayments(m: Machine, step: Step)
    requires step.CreateStep? || step.PatchStep? || step.IntentStep? || step.CashStep?
    ensures PaymentsKept(m.t, Next(m, step).t)
  {
  }

  lemma EventsKeepPayments(m: Machine, step: Step)
    requires !step.CreateStep? && !step.PatchStep? && !step.IntentStep? && !step.CashStep?
    ensures PaymentsKept(m.t, Next(m, step).t)
  {
  }

  lemma PaymentsPersist(m: Machine, step: Step)
    ensures PaymentsKept(m.t, Next(m, step).t)
  {
    if step.CreateStep? || step.PatchStep? || step.IntentStep? || step.CashStep? {
      RequestsKeepPayments(m, step);
    } else {
      EventsKeepPayments(m, step);
    }
  }

  lemma StepMatchesHandlers(m: Machine, step: Step)
    requires HandlersMatch(m)
    ensures HandlersMatch(Next(m, step))
  {
    PaymentsPersist(m, step);
    if !step.LoadStep? && !step.SaveStep? && !step.ConfirmStep? {
      assert Next(m, step).handlers == m.handlers;
    }
  }

  lemma {:induction false} HandlersMatchAlways(steps: seq<Step>, n: nat)
    requires n <= |steps|
    ensures HandlersMatch(At(steps, n))
  {
    if n > 0 {
      HandlersMatchAlways(steps, n - 1);
      AtNext(steps, n - 1);
      StepMatchesHandlers(At(steps, n - 1), steps[n - 1]);
    }
  }

  ghost predicate Paying(t: Tables, b: Id) {
    b in t.bookings &&
    (t.bookings[b].status == Confirmed || t.bookings[b].status == CheckedIn || t.bookings[b].status == CheckedOut)
  }

  ghost predicate AboutToConfirm(m: Machine, h: nat, b: Id) {
    h in m.handlers && m.handlers[h] == Saved(m.handlers[h].intent, b)
  }

  /** Neither transition table leads to CONFIRMED. */
  lemma PatchConfirmsNone(t: Tables, id: Id, next: BookingStatus, actor: Actor, b: Id)
    requires !Paying(t, b)
    ensures !Paying(Patch(t, id, next, actor).after, b)
  {
  }

  lemma OnlyPaymentConfirms(m: Machine, step: Step, b: Id)
    requires !Paying(m.t, b) && !step.CashStep? && !step.SucceededStep? && !step.ConfirmStep?
    ensures !Paying(Next(m, step).t, b)
  {
  }

  /** A step that makes a booking CONFIRMED either leaves a COMPLETED payment of that booking in the
      table or finishes a handler that has saved one. */
  lemma WhatConfirms(m: Machine, step: Step, b: Id)
    requires !Paying(m.t, b) && Paying(Next(m, step).t, b)
    ensures (exists p :: PaidIn(Next(m, step).t, p, b)) || (exists h :: AboutToConfirm(m, h, b))
  {
    if !step.CashStep? && !step.SucceededStep? && !step.ConfirmStep? {
      OnlyPaymentConfirms(m, step, b);
    }
    match step {
      case CashStep(id, now) =>
        assert PaidIn(Next(m, step).t, CashIntentId(id, now), b);
      case SucceededStep(intent) =>
        assert PaidIn(Next(m, step).t, intent, b);
      case ConfirmStep(h) =>
        assert AboutToConfirm(m, h, b);
      case _ =>
    }
  }

  lemma WhatGetsReady(m: Machine, step: Step, h: nat, b: Id)
    requires HandlersMatch(m) && AboutToConfirm(Next(m, step), h, b)
    ensures AboutToConfirm(m, h, b) || exists p :: PaidIn(Next(m, step).t, p, b)
  {
    if step == SaveStep(h) && m.handlers[h].Loaded? {
      assert PaidIn(Next(m, step).t, m.handlers[h].intent, b);
    }
  }

  /** The booking is confirmed or later, or some handler is about to confirm it. */
  ghost predicate Settled(m: Machine, b: Id) {
    Paying(m.t, b) || exists h :: AboutToConfirm(m, h, b)
  }

  ghost predicate PaidNow(t: Tables, b: Id) {
    exists p :: PaidIn(t, p, b)
  }

  lemma StepSettles(m: Machine, step: Step, b: Id)
    requires HandlersMatch(m) && Settled(Next(m, step), b)
    ensures Settled(m, b) || PaidNow(Next(m, step).t, b)
  {
    if Paying(Next(m, step).t, b) {
      if !Paying(m.t, b) { WhatConfirms(m, step, b); }
    } else {
      var h :| AboutToConfirm(Next(m, step), h, b);
      WhatGetsReady(m, step, h, b);
    }
  }

  lemma StartUnsettled(steps: seq<Step>, b: Id)
    ensures !Settled(At(steps, 0), b)
  {
  }

  lemma PaidNowIsPaid(steps: seq<Step>, n: nat, b: Id)
    requires n <= |steps| && PaidNow(At(steps, n).t, b)
    ensures EverPaid(steps, n, b)
  {
    var p :| PaidIn(At(steps, n).t, p, b);
  }

  lemma PaidStaysPaid(steps: seq<Step>, k: nat, n: nat, b: Id)
    requires k <= n <= |steps| && EverPaid(steps, k, b)
    ensures EverPaid(steps, n, b)
  {
    var j, p :| 0 <= j <= k && PaidIn(At(steps, j).t, p, b);
  }

  /** A booking that is CONFIRMED, CHECKED_IN or CHECKED_OUT had one of its own payments COMPLETED
      earlier in the run; so had the booking of every handler that is about to confirm. */
  lemma {:induction false} ConfirmedWasPaid(steps: seq<Step>, n: nat, b: Id)
    requires n <= |steps| && Settled(At(steps, n), b)
    ensures EverPaid(steps, n, b)
  {
    StartUnsettled(steps, b);
    if n > 0 {
      HandlersMatchAlways(steps, n - 1);
      AtNext(steps, n - 1);
      StepSettles(At(steps, n - 1), steps[n - 1], b);
      if PaidNow(At(steps, n).t, b) {
        PaidNowIsPaid(steps, n, b);
      } else {
        ConfirmedWasPaid(steps, n - 1, b);
        PaidStaysPaid(steps, n - 1, n, b);
      }
    }
  }
}

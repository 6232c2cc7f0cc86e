/** Runs of split requests in which something goes wrong. */
module LateScenarios {
  import opened SequenceFacts
  import opened Money
  import opened BookingModel
  import opened BookingRuns
  import opened Availability
  import opened Ids
  import opened PaymentTable
  import opened BookingRequests
  import opened BookingScenarios
  import opened LateWrites
  import opened LatePayments
  import Runs

  /** While an admin confirms a cash payment, the guest cancels and books the room again. */
  function CashAfterCancel(f: Fpu, checkIn: Day, now: nat): seq<LateStep> {
    CashAcross("booking", Cancelling(), Rebooking(f, checkIn), now)
  }

  /** A cash confirmation that two other steps interrupt. */
  function CashAcross(id: Id, a: Step, b: Step, now: nat): seq<LateStep> {
    Interrupted(id, a, b) + [SaveCash(0, now)] + [WriteCash(0)]
  }

  function Interrupted(id: Id, a: Step, b: Step): seq<LateStep> {
    [ReadCash(0, id)] + [Whole(a)] + [Whole(b)]
  }

  lemma RoomIsBookable(t: Tables, f: Fpu, checkIn: Day)
    requires Faithful(f) && t.rateOptions == RATES && t.rooms == ROOMS && t.users == {"user"} && WellFormed(t)
    requires forall b :: b in t.bookings ==>
               b != "second" && t.bookings[b].reference != "BK-2" && Terminal(t.bookings[b].status)
    ensures Create(t, f, "second", Header("user", "BK-2"), TwoNights(checkIn), checkIn * MS_PER_DAY).refusal == None
  {
    var items, today := TwoNights(checkIn), checkIn * MS_PER_DAY;
    SpellingsOfNames();
    assert RoomIds(items) == ["room"];
    NoRepeatsIffDistinct(RoomIds(items));
    assert CreateRefusal(t, items, today) == None by {
      assert RoomRefusal(t, items[0]) == None && DateRefusal(items[0], today) == None;
    }
    TwoNightsCost(t, checkIn);
    CreateStoredIff(t, f, "second", Header("user", "BK-2"), items, today);
  }

  function Cancelling(): Step {
    PatchStep("booking", Cancelled, Actor("user", false))
  }

  function Rebooking(f: Fpu, checkIn: Day): Step {
    CreateStep(f, "second", Header("user", "BK-2"), TwoNights(checkIn), checkIn * MS_PER_DAY)
  }

  lemma GuestCancels(f: Fpu, checkIn: Day)
    requires Faithful(f)
    ensures var t := At(FirstBooking(f, checkIn), 3).t;
            var u := Next(At(FirstBooking(f, checkIn), 3), Cancelling()).t;
            && "booking" in t.bookings && t.bookings["booking"].status == Pending &&
              t.bookings["booking"].userId == "user"
            && u.bookings.Keys == {"booking"} && u.bookings["booking"].status == Cancelled
            && u.bookings["booking"].reference == "BK-1" && |u.stays| == 1 && WellFormed(u)
            && u.stays[0].roomId == "room" && u.stays[0].checkIn == checkIn && u.stays[0].checkOut == checkIn + 2
            && u.rooms == ROOMS && u.rateOptions == RATES && u.users == {"user"} && u.payments == map[]
  {
    FirstBookingStored(f, checkIn);
    SpellingsOfNames();
    var t := At(FirstBooking(f, checkIn), 3).t;
    PatchAcceptedIff(t, "booking", Cancelled, Actor("user", false));
    PatchMovesRooms(t, "booking", Cancelled, Actor("user", false));
  }

  /** The tables after the guest's two steps. */
  lemma GuestRebooks(f: Fpu, checkIn: Day)
    requires Faithful(f)
    ensures var u := Next(Next(At(FirstBooking(f, checkIn), 3), Cancelling()), Rebooking(f, checkIn)).t;
            && u.payments == map[] && "user" in u.users && "booking" in u.bookings && Resells(u, "booking", 0, 1)
  {
    var t := Next(At(FirstBooking(f, checkIn), 3), Cancelling()).t;
    GuestCancels(f, checkIn);
    SpellingsOfNames();
    RoomIsBookable(t, f, checkIn);
    CreateStoresRequest(t, f, "second", Header("user", "BK-2"), TwoNights(checkIn), checkIn * MS_PER_DAY);
  }

  lemma SaveAndWrite(s: State, steps: seq<LateStep>, now: nat)
    ensures LateRun(s, steps + [SaveCash(0, now)] + [WriteCash(0)]) ==
            WrittenCash(SavedCash(LateRun(s, steps), 0, now), 0)
  {
    Runs.AfterOne(LateNext, s, steps, SaveCash(0, now));
    Runs.AfterOne(LateNext, s, steps + [SaveCash(0, now)], WriteCash(0));
  }

  lemma CashGoesThrough(s: State, p: Payment, now: nat)
    requires s.late == map[0 := Paying(p)] && p.bookingId in s.m.t.bookings && p.userId in s.m.t.users
    requires CashIntentId(p.bookingId, now) !in s.m.t.payments
    ensures WrittenCash(SavedCash(s, 0, now), 0).m.t ==
            WithStatus(s.m.t.(payments := s.m.t.payments[CashIntentId(p.bookingId, now) := p]), p.bookingId, Confirmed)
  {
  }

  lemma TwoWholeSteps(s: State, steps: seq<LateStep>, a: Step, b: Step)
    ensures var u := LateRun(s, steps);
            LateRun(s, steps + [Whole(a)] + [Whole(b)]) == u.(m := Next(Next(u.m, a), b))
  {
    Runs.AfterOne(LateNext, s, steps, Whole(a));
    Runs.AfterOne(LateNext, s, steps + [Whole(a)], Whole(b));
  }

  lemma CashIsRead(m: Machine, id: Id)
    requires id in m.t.bookings && m.t.bookings[id].status == Pending
    ensures var p := PaymentFor(m.t.bookings[id], id, m.t.bookings[id].userId, Completed);
            LateRun(State(m, map[]), [ReadCash(0, id)]) == State(m, map[0 := Paying(p)])
  {
    Runs.AfterOne(LateNext, State(m, map[]), [], ReadCash(0, id));
    assert [] + [ReadCash(0, id)] == [ReadCash(0, id)];
  }

  lemma CashWaits(m: Machine, a: Step, b: Step, id: Id)
    requires id in m.t.bookings && m.t.bookings[id].status == Pending
    ensures var p := PaymentFor(m.t.bookings[id], id, m.t.bookings[id].userId, Completed);
            LateRun(State(m, map[]), Interrupted(id, a, b)) == State(Next(Next(m, a), b), map[0 := Paying(p)])
  {
    CashIsRead(m, id);
    TwoWholeSteps(State(m, map[]), [ReadCash(0, id)], a, b);
  }

  /** The two steps leave the payment's key and payer as they are, and it goes through. */
  lemma CashAround(m: Machine, a: Step, b: Step, id: Id, now: nat)
    requires id in m.t.bookings && m.t.bookings[id].status == Pending
    requires var u := Next(Next(m, a), b).t;
             CashIntentId(id, now) !in u.payments && m.t.bookings[id].userId in u.users && id in u.bookings
    ensures var u, p := Next(Next(m, a), b).t, PaymentFor(m.t.bookings[id], id, m.t.bookings[id].userId, Completed);
            LateRun(State(m, map[]), CashAcross(id, a, b, now)).m.t ==
            WithStatus(u.(payments := u.payments[CashIntentId(id, now) := p]), id, Confirmed)
  {
    var s, p := State(m, map[]), PaymentFor(m.t.bookings[id], id, m.t.bookings[id].userId, Completed);
    var u, steps := Next(Next(m, a), b), Interrupted(id, a, b);
    CashWaits(m, a, b, id);
    SaveAndWrite(s, steps, now);
    CashGoesThrough(State(u, map[0 := Paying(p)]), p, now);
  }

  lemma OneBookingIsSafe(f: Fpu, checkIn: Day)
    requires Faithful(f)
    ensures Safe(At(FirstBooking(f, checkIn), 3).t)
  {
    TwoNightsPass(checkIn);
    FirstBookingStored(f, checkIn);
    AcceptedRequestIsProper(EMPTY_HOTEL, TwoNights(checkIn), checkIn * MS_PER_DAY);
    InsertIsSafeIff(EMPTY_HOTEL, f, "booking", BOOKER, TwoNights(checkIn));
  }

  /** It happens: the cash confirmation revives the cancelled booking, whose room has been resold. */
  lemma LateCashSellsTwice(f: Fpu, checkIn: Day, now: nat)
    requires Faithful(f)
    ensures var s := LateRun(State(Start(map[], map[]), map[]), Unsplit(FirstBooking(f, checkIn)));
            Safe(s.m.t) && !Safe(LateRun(s, CashAfterCancel(f, checkIn, now)).m.t)
  {
    var first := FirstBooking(f, checkIn);
    WholeStepsRun(Start(map[], map[]), map[], first);
    assert first[..3] == first;
    var s := State(At(first, 3), map[]);
    OneBookingIsSafe(f, checkIn);
    GuestCancels(f, checkIn);
    GuestRebooks(f, checkIn);
    CashAround(s.m, Cancelling(), Rebooking(f, checkIn), "booking", now);
    PaymentsAreNoMatter(Next(Next(s.m, Cancelling()), Rebooking(f, checkIn)).t, CashIntentId("booking", now),
                        PaymentFor(s.m.t.bookings["booking"], "booking", "user", Completed));
  }

  lemma PaymentsAreNoMatter(t: Tables, key: string, p: Payment)
    requires "booking" in t.bookings && Resells(t, "booking", 0, 1)
    ensures !Safe(WithStatus(t.(payments := t.payments[key := p]), "booking", Confirmed))
  {
    var paid := t.(payments := t.payments[key := p]);
    assert Resells(paid, "booking", 0, 1);
    RevivalIsUnsafe(paid, "booking", Confirmed, 0, 1);
  }

  // ---- two payments of one kind ------------------------------------------------------------

  lemma TwoSteps(s: State, steps: seq<LateStep>, a: LateStep, b: LateStep)
    ensures LateRun(s, steps + [a] + [b]) == LateNext(LateNext(LateRun(s, steps), a), b)
  {
    Runs.AfterOne(LateNext, s, steps, a);
    Runs.AfterOne(LateNext, s, steps + [a], b);
  }

  /** Two intents for one booking, each checked before either is saved. */
  function TwoIntents(id: Id, actor: Actor, a: string, b: string): seq<LateStep> {
    [] + [ReadIntent(0, id, actor)] + [ReadIntent(1, id, actor)] + [SaveIntent(0, Some(a))] + [SaveIntent(1, Some(b))]
  }

  lemma BothIntentsWait(s: State, id: Id, actor: Actor)
    requires s.late == map[] && IntentPasses(s.m.t, id, actor)
    ensures var p := PaymentFor(s.m.t.bookings[id], id, actor.id, Awaiting);
            LateRun(s, [] + [ReadIntent(0, id, actor)] + [ReadIntent(1, id, actor)]) ==
            State(s.m, map[0 := Asking(p), 1 := Asking(p)])
  {
    TwoSteps(s, [], ReadIntent(0, id, actor), ReadIntent(1, id, actor));
  }

  lemma IntentIsSaved(s: State, h: nat, p: Payment, key: string)
    requires h in s.late && s.late[h] == Asking(p) && p.userId in s.m.t.users && key !in s.m.t.payments
    ensures LateNext(s, SaveIntent(h, Some(key))) == State(s.m.(t := WithNewPayment(s.m.t, key, p)), s.late - {h})
  {
  }

  lemma BothIntentsSaved(s: State, p: Payment, a: string, b: string)
    requires s.late == map[0 := Asking(p), 1 := Asking(p)] && p.userId in s.m.t.users && p.status == Awaiting
    requires a != b && a !in s.m.t.payments && b !in s.m.t.payments
    ensures !PendingOnce(LateNext(LateNext(s, SaveIntent(0, Some(a))), SaveIntent(1, Some(b))))
  {
    var u := LateNext(s, SaveIntent(0, Some(a)));
    IntentIsSaved(s, 0, p, a);
    IntentIsSaved(u, 1, p, b);
    PendingTwice(s.m.t, a, b, p);
  }

  lemma PendingTwice(t: Tables, a: string, b: string, p: Payment)
    requires a != b && p.status == Awaiting
    ensures !OneAwaiting(WithNewPayment(WithNewPayment(t, a, p), b, p))
  {
    var u := WithNewPayment(WithNewPayment(t, a, p), b, p);
    assert IsAwaiting(u, a) && IsAwaiting(u, b);
  }

  /** It happens in any state in which an intent is accepted: two at a time leave two pending payments. */
  lemma TwoIntentsAreStored(s: State, id: Id, actor: Actor, a: string, b: string)
    requires s.late == map[] && IntentPasses(s.m.t, id, actor) && actor.id in s.m.t.users
    requires a != b && a !in s.m.t.payments && b !in s.m.t.payments
    ensures !PendingOnce(LateRun(s, TwoIntents(id, actor, a, b)))
  {
    var waiting := [] + [ReadIntent(0, id, actor)] + [ReadIntent(1, id, actor)];
    BothIntentsWait(s, id, actor);
    TwoSteps(s, waiting, SaveIntent(0, Some(a)), SaveIntent(1, Some(b)));
    BothIntentsSaved(LateRun(s, waiting), PaymentFor(s.m.t.bookings[id], id, actor.id, Awaiting), a, b);
  }

  /** Two cash confirmations of one booking, each checked before either is saved. */
  function TwoCashPayments(id: Id, a: nat, b: nat): seq<LateStep> {
    [] + [ReadCash(0, id)] + [ReadCash(1, id)] + [SaveCash(0, a)] + [SaveCash(1, b)]
  }

  lemma BothCashWait(s: State, id: Id)
    requires s.late == map[] && id in s.m.t.bookings && s.m.t.bookings[id].status == Pending
    ensures var p := PaymentFor(s.m.t.bookings[id], id, s.m.t.bookings[id].userId, Completed);
            LateRun(s, [] + [ReadCash(0, id)] + [ReadCash(1, id)]) == State(s.m, map[0 := Paying(p), 1 := Paying(p)])
  {
    TwoSteps(s, [], ReadCash(0, id), ReadCash(1, id));
  }

  lemma CashIsSaved(s: State, h: nat, p: Payment, now: nat)
    requires h in s.late && s.late[h] == Paying(p) && p.userId in s.m.t.users
    requires CashIntentId(p.bookingId, now) !in s.m.t.payments
    ensures LateNext(s, SaveCash(h, now)) ==
            State(s.m.(t := WithNewPayment(s.m.t, CashIntentId(p.bookingId, now), p)), s.late[h := Paid(p.bookingId)])
  {
  }

  lemma BothCashSaved(s: State, p: Payment, a: nat, b: nat)
    requires s.late == map[0 := Paying(p), 1 := Paying(p)] && p.userId in s.m.t.users
    requires CashIntentId(p.bookingId, a) != CashIntentId(p.bookingId, b)
    requires CashIntentId(p.bookingId, a) !in s.m.t.payments && CashIntentId(p.bookingId, b) !in s.m.t.payments
    ensures !CashOnce(LateNext(LateNext(s, SaveCash(0, a)), SaveCash(1, b)))
  {
    var u := LateNext(s, SaveCash(0, a));
    CashIsSaved(s, 0, p, a);
    CashIsSaved(u, 1, p, b);
    CashTwice(s.m.t, CashIntentId(p.bookingId, a), CashIntentId(p.bookingId, b), p);
  }

  lemma CashTwice(t: Tables, a: string, b: string, p: Payment)
    requires a != b && IsCash(a) && IsCash(b)
    ensures !OneCash(WithNewPayment(WithNewPayment(t, a, p), b, p))
  {
    var u := WithNewPayment(WithNewPayment(t, a, p), b, p);
    assert a in u.payments && b in u.payments;
  }

  /** Likewise two cash confirmations at a time, at different milliseconds, record the money twice. */
  lemma TwoCashPaymentsAreStored(s: State, id: Id, a: nat, b: nat)
    requires s.late == map[] && id in s.m.t.bookings && s.m.t.bookings[id].status == Pending
    requires s.m.t.bookings[id].userId in s.m.t.users && CashIntentId(id, a) != CashIntentId(id, b)
    requires CashIntentId(id, a) !in s.m.t.payments && CashIntentId(id, b) !in s.m.t.payments
    ensures !CashOnce(LateRun(s, TwoCashPayments(id, a, b)))
  {
    var waiting := [] + [ReadCash(0, id)] + [ReadCash(1, id)];
    BothCashWait(s, id);
    TwoSteps(s, waiting, SaveCash(0, a), SaveCash(1, b));
    BothCashSaved(LateRun(s, waiting), PaymentFor(s.m.t.bookings[id], id, s.m.t.bookings[id].userId, Completed), a, b);
  }
}

/** How many payments of one kind a booking can have when requests are split at their awaits: one pending payment and
    one cash payment, exactly as long as each payment that is saved finds no other of its kind for its booking. */
module LatePayments {
  import opened SequenceFacts
  import opened BookingModel
  import opened BookingRuns
  import opened PaymentTable
  import opened LateWrites
  import Runs

  datatype NewPayment = NewPayment(key: string, payment: Payment)

  /** The payment that the step stores, if it stores one. */
  function Stores(s: State, step: LateStep): Option<NewPayment> {
    match step
    case Whole(IntentStep(id, actor, answer)) =>
      if CreateIntent(s.m.t, id, actor, answer).refusal != None then None
      else Some(NewPayment(answer.value, PaymentFor(s.m.t.bookings[id], id, actor.id, Awaiting)))
    case Whole(CashStep(id, now)) =>
      if ConfirmCash(s.m.t, id, now).refusal != None then None
      else Some(NewPayment(CashIntentId(id, now),
                           PaymentFor(s.m.t.bookings[id], id, s.m.t.bookings[id].userId, Completed)))
    case SaveIntent(h, answer) =>
      if h in s.late && s.late[h].Asking? && answer.Some? && answer.value !in s.m.t.payments &&
         s.late[h].payment.userId in s.m.t.users then Some(NewPayment(answer.value, s.late[h].payment))
      else None
    case SaveCash(h, now) =>
      if h in s.late && s.late[h].Paying? && CashIntentId(s.late[h].payment.bookingId, now) !in s.m.t.payments &&
         s.late[h].payment.userId in s.m.t.users
      then Some(NewPayment(CashIntentId(s.late[h].payment.bookingId, now), s.late[h].payment))
      else None
    case _ => None
  }

  /** Bookings of stored payments stay, and none becomes pending again. */
  ghost predicate PaymentsSettle(t: Tables, u: Tables) {
    && u.payments.Keys == t.payments.Keys
    && forall p :: p in t.payments ==>
         u.payments[p].bookingId == t.payments[p].bookingId && (IsAwaiting(u, p) ==> IsAwaiting(t, p))
  }

  lemma SavingStepStores(s: State, step: Step)
    requires step.IntentStep? || step.CashStep?
    ensures var u, saved := Next(s.m, step).t, Stores(s, Whole(step));
            if saved == None then u.payments == s.m.t.payments
            else saved.value.key !in s.m.t.payments &&
                 u.payments == s.m.t.payments[saved.value.key := saved.value.payment]
  {
  }

  lemma OtherStepSettles(s: State, step: Step)
    requires !step.IntentStep? && !step.CashStep?
    ensures Stores(s, Whole(step)) == None && PaymentsSettle(s.m.t, Next(s.m, step).t)
  {
  }

  /** A step stores one payment under a new key, or only settles payments. */
  lemma StepStores(s: State, step: LateStep)
    ensures var u, saved := LateNext(s, step).m.t, Stores(s, step);
            if saved == None then PaymentsSettle(s.m.t, u)
            else saved.value.key !in s.m.t.payments &&
                 u.payments == s.m.t.payments[saved.value.key := saved.value.payment]
  {
    if step.Whole? {
      if step.step.IntentStep? || step.step.CashStep? {
        SavingStepStores(s, step.step);
      } else {
        OtherStepSettles(s, step.step);
      }
    }
  }

  // ---- one pending payment -----------------------------------------------------------------

  ghost predicate PendingOnce(s: State) {
    OneAwaiting(s.m.t)
  }

  ghost predicate FindsNonePending(s: State, step: LateStep) {
    var saved := Stores(s, step);
    saved.Some? && saved.value.payment.status == Awaiting ==> !HasAwaiting(s.m.t, saved.value.payment.bookingId)
  }

  lemma PendingStepIff(s: State, step: LateStep)
    requires PendingOnce(s)
    ensures PendingOnce(LateNext(s, step)) <==> FindsNonePending(s, step)
  {
    var t, u, saved := s.m.t, LateNext(s, step).m.t, Stores(s, step);
    StepStores(s, step);
    if saved == None {
      PendingSettled(t, u);
    } else {
      PendingAdded(t, u, saved.value.key, saved.value.payment);
    }
  }

  lemma PendingSettled(t: Tables, u: Tables)
    requires OneAwaiting(t) && PaymentsSettle(t, u)
    ensures OneAwaiting(u)
  {
  }

  lemma PendingAdded(t: Tables, u: Tables, key: string, p: Payment)
    requires OneAwaiting(t) && key !in t.payments && u.payments == t.payments[key := p]
    ensures OneAwaiting(u) <==> (p.status == Awaiting ==> !HasAwaiting(t, p.bookingId))
  {
    assert forall k :: IsAwaiting(u, k) <==> if k == key then p.status == Awaiting else IsAwaiting(t, k);
    if p.status == Awaiting && HasAwaiting(t, p.bookingId) {
      var k :| k in t.payments && t.payments[k].bookingId == p.bookingId && t.payments[k].status == Awaiting;
      assert IsAwaiting(u, k) && IsAwaiting(u, key);
    }
  }

  /** A booking has at most one pending payment throughout a run if and only if each pending payment that is saved,
      by a whole or a split intent, finds no other of its booking at that moment. */
  lemma PendingOnceIff(s: State, steps: seq<LateStep>)
    requires PendingOnce(s)
    ensures Runs.Throughout(LateNext, PendingOnce, s, steps) <==> Runs.AllHarmless(LateNext, FindsNonePending, s, steps)
  {
    forall u, step | PendingOnce(u) ensures PendingOnce(LateNext(u, step)) <==> FindsNonePending(u, step) {
      PendingStepIff(u, step);
    }
    Runs.ThroughoutIff(LateNext, PendingOnce, PendingOnce, FindsNonePending, s, steps);
  }

  // ---- one cash payment --------------------------------------------------------------------

  predicate HasCash(t: Tables, bookingId: Id) {
    exists k :: k in t.payments && IsCash(k) && t.payments[k].bookingId == bookingId
  }

  ghost predicate CashOnce(s: State) {
    OneCash(s.m.t)
  }

  ghost predicate FindsNoCash(s: State, step: LateStep) {
    var saved := Stores(s, step);
    saved.Some? && IsCash(saved.value.key) ==> !HasCash(s.m.t, saved.value.payment.bookingId)
  }

  lemma CashStepIff(s: State, step: LateStep)
    requires CashOnce(s)
    ensures CashOnce(LateNext(s, step)) <==> FindsNoCash(s, step)
  {
    var t, u, saved := s.m.t, LateNext(s, step).m.t, Stores(s, step);
    StepStores(s, step);
    if saved == None {
      CashSettled(t, u);
    } else {
      CashAdded(t, u, saved.value.key, saved.value.payment);
    }
  }

  lemma CashSettled(t: Tables, u: Tables)
    requires OneCash(t) && PaymentsSettle(t, u)
    ensures OneCash(u)
  {
  }

  lemma CashAdded(t: Tables, u: Tables, key: string, p: Payment)
    requires OneCash(t) && key !in t.payments && u.payments == t.payments[key := p]
    ensures OneCash(u) <==> (IsCash(key) ==> !HasCash(t, p.bookingId))
  {
    if IsCash(key) && HasCash(t, p.bookingId) {
      var k :| k in t.payments && IsCash(k) && t.payments[k].bookingId == p.bookingId;
      assert k in u.payments && key in u.payments && k != key;
    }
  }

  /** Likewise for cash payments: a booking is paid in cash at most once throughout a run if and only if each cash
      payment that is saved finds no other of its booking at that moment. */
  lemma CashOnceIff(s: State, steps: seq<LateStep>)
    requires CashOnce(s)
    ensures Runs.Throughout(LateNext, CashOnce, s, steps) <==> Runs.AllHarmless(LateNext, FindsNoCash, s, steps)
  {
    forall u, step | CashOnce(u) ensures CashOnce(LateNext(u, step)) <==> FindsNoCash(u, step) {
      CashStepIff(u, step);
    }
    Runs.ThroughoutIff(LateNext, CashOnce, CashOnce, FindsNoCash, s, steps);
  }
}

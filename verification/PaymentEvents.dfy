/** What gateway events and the parts of their handlers do, field by field. */
module PaymentEvents {
  import opened SequenceFacts
  import opened BookingModel
  import opened BookingRuns

  /** Everything is as it was but the payment's and the booking's status. */
  ghost predicate OnlyStatuses(t: Tables, u: Tables, intent: string, b: Id) {
    && u.stays == t.stays && u.rooms == t.rooms && u.rateOptions == t.rateOptions && u.users == t.users
    && u.payments.Keys == t.payments.Keys && u.bookings.Keys == t.bookings.Keys
    && (forall p :: p in t.payments && p != intent ==> u.payments[p] == t.payments[p])
    && (forall c :: c in t.bookings && c != b ==> u.bookings[c] == t.bookings[c])
    && (intent in t.payments ==> u.payments[intent] == t.payments[intent].(status := u.payments[intent].status))
    && (b in t.bookings ==> u.bookings[b] == t.bookings[b].(status := u.bookings[b].status))
  }

  /** A pending booking has been confirmed, and any other has the status it had. */
  ghost predicate ConfirmsPending(t: Tables, u: Tables, b: Id) {
    b in t.bookings && b in u.bookings ==>
      && (u.bookings[b].status == Confirmed <==>
            t.bookings[b].status == Pending || t.bookings[b].status == Confirmed)
      && (t.bookings[b].status != Pending ==> u.bookings[b].status == t.bookings[b].status)
  }

  /** A success event for a stored payment that is not COMPLETED completes it and confirms its booking if that is
      PENDING; for an unknown or COMPLETED payment nothing changes. */
  lemma SuccessDoes(m: Machine, intent: string)
    ensures var n, t := Next(m, SucceededStep(intent)), m.t;
            && n.handlers == m.handlers
            && (intent !in t.payments || t.payments[intent].status == Completed ==> n == m)
            && (intent in t.payments && t.payments[intent].status != Completed ==>
                  && OnlyStatuses(t, n.t, intent, t.payments[intent].bookingId)
                  && n.t.payments[intent].status == Completed
                  && ConfirmsPending(t, n.t, t.payments[intent].bookingId))
  {
  }

  /** A failure event marks a stored payment FAILED, whatever its status, and changes nothing else. */
  lemma FailureDoes(m: Machine, intent: string)
    ensures var n, t := Next(m, FailedStep(intent)), m.t;
            && n.handlers == m.handlers
            && (intent !in t.payments ==> n == m)
            && (intent in t.payments ==>
                  && n.t.bookings == t.bookings && OnlyStatuses(t, n.t, intent, t.payments[intent].bookingId)
                  && n.t.payments[intent].status == Failed)
  {
  }

  /** The split handler reads a payment only if it is stored and not COMPLETED. */
  lemma LoadDoes(m: Machine, h: nat, intent: string)
    requires h !in m.handlers
    ensures var n := Next(m, LoadStep(h, intent));
            && n.t == m.t
            && (intent in m.t.payments && m.t.payments[intent].status != Completed ==>
                  n.handlers == m.handlers[h := Loaded(intent, m.t.payments[intent].bookingId)])
            && (intent !in m.t.payments || m.t.payments[intent].status == Completed ==> n == m)
  {
  }

  /** Its save completes the payment it has read and changes no booking. */
  lemma SaveDoes(m: Machine, h: nat)
    requires h in m.handlers && m.handlers[h].Loaded? && m.handlers[h].intent in m.t.payments
    ensures var n, loaded := Next(m, SaveStep(h)), m.handlers[h];
            && n.handlers == m.handlers[h := Saved(loaded.intent, loaded.bookingId)]
            && n.t.bookings == m.t.bookings && OnlyStatuses(m.t, n.t, loaded.intent, loaded.bookingId)
            && n.t.payments[loaded.intent].status == Completed
  {
  }

  /** Its last part confirms the booking if that is PENDING at that moment, and changes no payment. */
  lemma ConfirmDoes(m: Machine, h: nat)
    requires h in m.handlers && m.handlers[h].Saved?
    ensures var n, b := Next(m, ConfirmStep(h)), m.handlers[h].bookingId;
            && n.handlers == m.handlers - {h} && n.t.payments == m.t.payments
            && OnlyStatuses(m.t, n.t, m.handlers[h].intent, b) && ConfirmsPending(m.t, n.t, b)
  {
  }

  /** Over runs: a pending booking whose payment is not yet COMPLETED is CONFIRMED right after a success event. */
  lemma SuccessConfirms(steps: seq<Step>, n: nat, intent: string)
    requires n < |steps| && steps[n] == SucceededStep(intent)
    requires var t := At(steps, n).t;
             && intent in t.payments && t.payments[intent].status != Completed
             && t.payments[intent].bookingId in t.bookings && t.bookings[t.payments[intent].bookingId].status == Pending
    ensures var b, u := At(steps, n).t.payments[intent].bookingId, At(steps, n + 1).t;
            && b in u.bookings && u.bookings[b].status == Confirmed
            && intent in u.payments && u.payments[intent].status == Completed
  {
    AtNext(steps, n);
    SuccessDoes(At(steps, n), intent);
  }
}

/** Requests that check first and write later. A create checks its rooms and then inserts its rows; a payment intent
    checks the booking and is saved when the gateway has answered; a status request and a cash confirmation read
    the booking, check its status, and then write the new one without looking again. Here the parts are steps of
    their own, with any other steps in between, and the runs in which no room is sold twice are exactly those
    whose inserts find their rooms still free and want none twice, and whose late status writes revive no booking
    that has been resold. */
module LateWrites {
  import opened SequenceFacts
  import opened Money
  import opened BookingModel
  import opened BookingRuns
  import opened Availability
  import opened Ids
  import Runs

  /** A request between its awaits: a checked and priced create, a checked status request, a payment intent before
      its payment is saved, a cash confirmation before its payment is saved, and one after that. */
  datatype Late =
    | Inserting(newId: Id, booking: Booking, stays: seq<Stay>)
    | Patching(id: Id, next: BookingStatus)
    | Asking(payment: Payment)
    | Paying(payment: Payment)
    | Paid(id: Id)

  datatype State = State(m: Machine, late: map<nat, Late>)

  datatype LateStep =
    | Whole(step: Step)
    | CheckCreate(handler: nat, f: Fpu, newId: Id, head: Header, items: seq<Item>, today: int)
    | InsertCreate(handler: nat)
    | ReadPatch(handler: nat, id: Id, next: BookingStatus, actor: Actor)
    | SavePatch(handler: nat)
    | ReadIntent(handler: nat, id: Id, actor: Actor)
    | SaveIntent(handler: nat, answer: Option<string>)
    | ReadCash(handler: nat, id: Id)
    | SaveCash(handler: nat, now: nat)
    | WriteCash(handler: nat)

  function Begin(s: State, h: nat, late: Late): State {
    if h in s.late then s else s.(late := s.late[h := late])
  }

  /** The checks, and the rows at the prices of this moment. */
  function CheckedCreate(s: State, h: nat, f: Fpu, newId: Id, head: Header, items: seq<Item>, today: int): State {
    if CreateRefusal(s.m.t, items, today) == None then
      AcceptedRequestIsProper(s.m.t, items, today);
      Begin(s, h, Inserting(newId, NewBooking(s.m.t, f, head, items), NewStays(s.m.t, f, newId, items)))
    else s
  }

  function WithRows(t: Tables, newId: Id, booking: Booking, stays: seq<Stay>): Tables {
    t.(bookings := t.bookings[newId := booking], stays := t.stays + stays)
  }

  /** The constraints of the insert, the foreign keys on rooms and rate options included. */
  predicate Insertable(t: Tables, newId: Id, booking: Booking, stays: seq<Stay>) {
    Storable(t, newId, booking, stays) &&
    forall i :: 0 <= i < |stays| ==> stays[i].roomId in t.rooms && stays[i].rateOptionId in t.rateOptions
  }

  function InsertedCreate(s: State, h: nat): State {
    if h in s.late && s.late[h].Inserting? then
      var r := s.late[h];
      if Insertable(s.m.t, r.newId, r.booking, r.stays) then
        State(s.m.(t := WithRows(s.m.t, r.newId, r.booking, r.stays)), s.late - {h})
      else s.(late := s.late - {h})
    else s
  }

  /** The status is written whatever it has become. */
  function Overwritten(t: Tables, id: Id, next: BookingStatus): Tables {
    if id in t.bookings then WithStatus(t, id, next) else t
  }

  function SavedPatch(s: State, h: nat): State {
    if h in s.late && s.late[h].Patching? then
      var id, next := s.late[h].id, s.late[h].next;
      State(s.m.(t := RoomsFollow(Overwritten(s.m.t, id, next), id, next)), s.late - {h})
    else s
  }

  /** The checks of a payment intent, after which the gateway is asked. */
  predicate IntentPasses(t: Tables, id: Id, actor: Actor) {
    id in t.bookings && (actor.isAdmin || t.bookings[id].userId == actor.id) && t.bookings[id].status == Pending &&
    !HasAwaiting(t, id)
  }

  function SavedIntent(s: State, h: nat, answer: Option<string>): State {
    if h in s.late && s.late[h].Asking? then
      var p := s.late[h].payment;
      if answer == None || answer.value in s.m.t.payments || p.userId !in s.m.t.users then s.(late := s.late - {h})
      else State(s.m.(t := WithNewPayment(s.m.t, answer.value, p)), s.late - {h})
    else s
  }

  function WithNewPayment(t: Tables, key: string, p: Payment): Tables {
    t.(payments := t.payments[key := p])
  }

  function SavedCash(s: State, h: nat, now: nat): State {
    if h in s.late && s.late[h].Paying? then
      var p := s.late[h].payment;
      var key := CashIntentId(p.bookingId, now);
      if key in s.m.t.payments || p.userId !in s.m.t.users then s.(late := s.late - {h})
      else State(s.m.(t := WithNewPayment(s.m.t, key, p)), s.late[h := Paid(p.bookingId)])
    else s
  }

  function WrittenCash(s: State, h: nat): State {
    if h in s.late && s.late[h].Paid? then
      State(s.m.(t := Overwritten(s.m.t, s.late[h].id, Confirmed)), s.late - {h})
    else s
  }

  function LateNext(s: State, step: LateStep): State {
    match step
    case Whole(whole) => s.(m := Next(s.m, whole))
    case CheckCreate(h, f, newId, head, items, today) => CheckedCreate(s, h, f, newId, head, items, today)
    case InsertCreate(h) => InsertedCreate(s, h)
    case ReadPatch(h, id, next, actor) =>
      if Visible(s.m.t, id, actor) && TransitionRefusal(s.m.t.bookings[id].status, next, actor.isAdmin) == None then
        Begin(s, h, Patching(id, next))
      else s
    case SavePatch(h) => SavedPatch(s, h)
    case ReadIntent(h, id, actor) =>
      if IntentPasses(s.m.t, id, actor) then
        Begin(s, h, Asking(PaymentFor(s.m.t.bookings[id], id, actor.id, Awaiting)))
      else s
    case SaveIntent(h, answer) => SavedIntent(s, h, answer)
    case ReadCash(h, id) =>
      if id in s.m.t.bookings && s.m.t.bookings[id].status == Pending then
        Begin(s, h, Paying(PaymentFor(s.m.t.bookings[id], id, s.m.t.bookings[id].userId, Completed)))
      else s
    case SaveCash(h, now) => SavedCash(s, h, now)
    case WriteCash(h) => WrittenCash(s, h)
  }

  function LateRun(s: State, steps: seq<LateStep>): State {
    Runs.After(LateNext, s, steps)
  }

  function Unsplit(steps: seq<Step>): seq<LateStep> {
    seq(|steps|, i requires 0 <= i < |steps| => Whole(steps[i]))
  }

  /** The runs of whole steps are among these. */
  lemma {:induction false} WholeStepsRun(m: Machine, late: map<nat, Late>, steps: seq<Step>)
    ensures LateRun(State(m, late), Unsplit(steps)) == State(Run(m, steps), late)
  {
    if steps != [] {
      WholeStepsRun(m, late, steps[..|steps| - 1]);
      assert Unsplit(steps)[..|steps| - 1] == Unsplit(steps[..|steps| - 1]);
    }
  }

  /** Splitting a request changes nothing when no other step runs in between. */
  lemma SplitCreateIsWhole(s: State, h: nat, f: Fpu, newId: Id, head: Header, items: seq<Item>, today: int)
    requires h !in s.late
    ensures LateNext(LateNext(s, CheckCreate(h, f, newId, head, items, today)), InsertCreate(h)) ==
            LateNext(s, Whole(CreateStep(f, newId, head, items, today)))
  {
  }

  lemma SplitPatchIsWhole(s: State, h: nat, id: Id, next: BookingStatus, actor: Actor)
    requires h !in s.late
    ensures LateNext(LateNext(s, ReadPatch(h, id, next, actor)), SavePatch(h)) ==
            LateNext(s, Whole(PatchStep(id, next, actor)))
  {
  }

  lemma SplitIntentIsWhole(s: State, h: nat, id: Id, actor: Actor, answer: Option<string>)
    requires h !in s.late
    ensures LateNext(LateNext(s, ReadIntent(h, id, actor)), SaveIntent(h, answer)) ==
            LateNext(s, Whole(IntentStep(id, actor, answer)))
  {
  }

  lemma SplitCashIsWhole(s: State, h: nat, id: Id, now: nat)
    requires h !in s.late
    ensures LateNext(LateNext(LateNext(s, ReadCash(h, id)), SaveCash(h, now)), WriteCash(h)) ==
            LateNext(s, Whole(CashStep(id, now)))
  {
  }

  // ---- one late insert ---------------------------------------------------------------------

  /** Rows that a check has passed: of one booking, at least a night each. */
  ghost predicate ProperRows(newId: Id, booking: Booking, stays: seq<Stay>) {
    && booking.status == Pending
    && (forall i :: 0 <= i < |stays| ==> stays[i].bookingId == newId && stays[i].checkIn < stays[i].checkOut)
  }

  ghost predicate RowsApart(stays: seq<Stay>) {
    forall i, j :: 0 <= i < j < |stays| ==> Apart(stays[i], stays[j])
  }

  ghost predicate Taken(t: Tables, i: int, stay: Stay) {
    0 <= i < |t.stays| && Active(t, t.stays[i]) && !Apart(t.stays[i], stay)
  }

  ghost predicate StillFree(t: Tables, stays: seq<Stay>) {
    forall i, k :: 0 <= k < |stays| ==> !Taken(t, i, stays[k])
  }

  lemma CheckedRowsAreProper(t: Tables, f: Fpu, newId: Id, head: Header, items: seq<Item>, today: int)
    requires CreateRefusal(t, items, today) == None
    ensures Priced(t, items)
    ensures ProperRows(newId, NewBooking(t, f, head, items), NewStays(t, f, newId, items))
    ensures RowsApart(NewStays(t, f, newId, items)) <==> !SelfClash(items)
  {
    AcceptedRequestIsProper(t, items, today);
    var stays := NewStays(t, f, newId, items);
    forall i, j | 0 <= i < j < |items| ensures Apart(stays[i], stays[j]) <==> !Collides(items[i], items[j]) {
    }
  }

  /** Row `i` after the insert. */
  lemma RowAfterInsert(t: Tables, newId: Id, booking: Booking, stays: seq<Stay>, i: nat)
    requires WellFormed(t) && newId !in t.bookings && ProperRows(newId, booking, stays) && i < |t.stays| + |stays|
    ensures var u, n := WithRows(t, newId, booking, stays), |t.stays|;
            && |u.stays| == n + |stays| && u.stays[i] == (if i < n then t.stays[i] else stays[i - n])
            && u.stays[i].bookingId in u.bookings && u.stays[i].checkIn < u.stays[i].checkOut
            && (Active(u, u.stays[i]) <==> i < n ==> Active(t, t.stays[i]))
            && (u.stays[i].bookingId == newId <==> n <= i)
  {
  }

  lemma NewRowsApart(t: Tables, newId: Id, booking: Booking, stays: seq<Stay>, i: nat, j: nat)
    requires Safe(t) && newId !in t.bookings && ProperRows(newId, booking, stays)
    requires StillFree(t, stays) && RowsApart(stays)
    requires i < j < |t.stays| + |stays|
    ensures var u := WithRows(t, newId, booking, stays);
            |u.stays| == |t.stays| + |stays| &&
            (Active(u, u.stays[i]) && Active(u, u.stays[j]) ==> Apart(u.stays[i], u.stays[j]))
  {
    RowAfterInsert(t, newId, booking, stays, i);
    RowAfterInsert(t, newId, booking, stays, j);
    if i < |t.stays| <= j {
      assert !Taken(t, i, stays[j - |t.stays|]);
    }
  }

  lemma TakenRowClashes(t: Tables, newId: Id, booking: Booking, stays: seq<Stay>, i: nat, k: nat)
    requires WellFormed(t) && newId !in t.bookings && ProperRows(newId, booking, stays)
    requires k < |stays| && Taken(t, i, stays[k])
    ensures !Safe(WithRows(t, newId, booking, stays))
  {
    RowAfterInsert(t, newId, booking, stays, i);
    RowAfterInsert(t, newId, booking, stays, |t.stays| + k);
  }

  lemma ClashingRowsClash(t: Tables, newId: Id, booking: Booking, stays: seq<Stay>, i: nat, j: nat)
    requires WellFormed(t) && newId !in t.bookings && ProperRows(newId, booking, stays)
    requires i < j < |stays| && !Apart(stays[i], stays[j])
    ensures !Safe(WithRows(t, newId, booking, stays))
  {
    RowAfterInsert(t, newId, booking, stays, |t.stays| + i);
    RowAfterInsert(t, newId, booking, stays, |t.stays| + j);
  }

  /** Inserting checked rows is safe exactly when no active stay has taken a night of theirs meanwhile and they
      take no night twice themselves. */
  lemma RowsAreSafeIff(t: Tables, newId: Id, booking: Booking, stays: seq<Stay>)
    requires Safe(t) && newId !in t.bookings && ProperRows(newId, booking, stays)
    ensures Safe(WithRows(t, newId, booking, stays)) <==> StillFree(t, stays) && RowsApart(stays)
  {
    if i, k :| 0 <= k < |stays| && Taken(t, i, stays[k]) {
      TakenRowClashes(t, newId, booking, stays, i, k);
    } else if i, j :| 0 <= i < j < |stays| && !Apart(stays[i], stays[j]) {
      ClashingRowsClash(t, newId, booking, stays, i, j);
    } else {
      forall i: nat | i < |t.stays| + |stays|
        ensures var u := WithRows(t, newId, booking, stays);
                u.stays[i].bookingId in u.bookings && u.stays[i].checkIn < u.stays[i].checkOut
      {
        RowAfterInsert(t, newId, booking, stays, i);
      }
      forall i: nat, j: nat | i < j < |t.stays| + |stays|
        ensures var u := WithRows(t, newId, booking, stays);
                Active(u, u.stays[i]) && Active(u, u.stays[j]) ==> Apart(u.stays[i], u.stays[j])
      {
        NewRowsApart(t, newId, booking, stays, i, j);
      }
    }
  }

  // ---- one late status write ---------------------------------------------------------------

  /** The stays of one booking are apart, ended or not. */
  ghost predicate OwnApart(t: Tables) {
    forall i, j :: 0 <= i < j < |t.stays| && t.stays[i].bookingId == t.stays[j].bookingId ==>
      Apart(t.stays[i], t.stays[j])
  }

  ghost predicate Resells(t: Tables, id: Id, i: int, j: int) {
    0 <= i < |t.stays| && 0 <= j < |t.stays| && t.stays[i].bookingId == id && t.stays[j].bookingId != id &&
    Active(t, t.stays[j]) && !Apart(t.stays[i], t.stays[j])
  }

  /** Another booking holds a room of this one for some of its nights. */
  ghost predicate Resold(t: Tables, id: Id) {
    exists i, j :: Resells(t, id, i, j)
  }

  /** The write ends the booking, or finds it not ended, or finds its rooms still free. */
  ghost predicate Harmless(t: Tables, id: Id, next: BookingStatus) {
    id in t.bookings ==> Terminal(next) || !Terminal(t.bookings[id].status) || !Resold(t, id)
  }

  lemma RevivalIsUnsafe(t: Tables, id: Id, next: BookingStatus, i: int, j: int)
    requires id in t.bookings && !Terminal(next) && Resells(t, id, i, j)
    ensures !NoDoubleBooking(WithStatus(t, id, next))
  {
    var u := WithStatus(t, id, next);
    assert Active(u, u.stays[i]) && Active(u, u.stays[j]);
    var low, high := if i < j then i else j, if i < j then j else i;
    assert !Apart(u.stays[low], u.stays[high]);
  }

  lemma HarmlessWriteIsSafe(t: Tables, id: Id, next: BookingStatus)
    requires Safe(t) && OwnApart(t) && id in t.bookings && Harmless(t, id, next)
    ensures Safe(WithStatus(t, id, next))
  {
    var u := WithStatus(t, id, next);
    forall i, j | 0 <= i < j < |u.stays| && Active(u, u.stays[i]) && Active(u, u.stays[j])
      ensures Apart(u.stays[i], u.stays[j])
    {
      if !(Active(t, t.stays[i]) && Active(t, t.stays[j])) {
        assert !Resells(t, id, i, j) && !Resells(t, id, j, i);
      }
    }
  }

  /** Writing a status without looking again is safe exactly when it is harmless. */
  lemma WriteIsSafeIff(t: Tables, id: Id, next: BookingStatus)
    requires Safe(t) && OwnApart(t)
    ensures Safe(Overwritten(t, id, next)) <==> Harmless(t, id, next)
  {
    if id in t.bookings {
      if Harmless(t, id, next) {
        HarmlessWriteIsSafe(t, id, next);
      } else {
        var i, j :| Resells(t, id, i, j);
        RevivalIsUnsafe(t, id, next, i, j);
      }
    }
  }

  // ---- whole runs --------------------------------------------------------------------------

  lemma InsertKeepsOwnApart(t: Tables, newId: Id, booking: Booking, stays: seq<Stay>)
    requires WellFormed(t) && OwnApart(t) && newId !in t.bookings && ProperRows(newId, booking, stays)
    requires RowsApart(stays)
    ensures OwnApart(WithRows(t, newId, booking, stays))
  {
    var u := WithRows(t, newId, booking, stays);
    forall i, j | 0 <= i < j < |u.stays| && u.stays[i].bookingId == u.stays[j].bookingId
      ensures Apart(u.stays[i], u.stays[j])
    {
      RowAfterInsert(t, newId, booking, stays, i);
      RowAfterInsert(t, newId, booking, stays, j);
    }
  }

  lemma StepKeepsOwnApart(m: Machine, step: Step)
    requires Safe(m.t) && OwnApart(m.t) && !ClashesWithItself(m.t, step)
    ensures OwnApart(Next(m, step).t)
  {
    StepMoves(m, step);
    if step.CreateStep? && Create(m.t, step.f, step.newId, step.head, step.items, step.today).refusal == None {
      CheckedRowsAreProper(m.t, step.f, step.newId, step.head, step.items, step.today);
      InsertKeepsOwnApart(m.t, step.newId, NewBooking(m.t, step.f, step.head, step.items),
                           NewStays(m.t, step.f, step.newId, step.items));
    }
  }

  lemma RoomStatusIsNoMatter(t: Tables, id: Id, next: BookingStatus)
    ensures Safe(RoomsFollow(t, id, next)) <==> Safe(t)
    ensures RoomsFollow(t, id, next).stays == t.stays
  {
  }

  /** Whatever is waiting to be inserted has passed its checks. */
  ghost predicate Checked(s: State) {
    forall h :: h in s.late && s.late[h].Inserting? ==> ProperRows(s.late[h].newId, s.late[h].booking, s.late[h].stays)
  }

  /** A create wants no room twice for a night, and what the step writes late, if it does, goes well. */
  ghost predicate HarmlessStep(s: State, step: LateStep) {
    match step
    case Whole(whole) => !ClashesWithItself(s.m.t, whole)
    case InsertCreate(h) =>
      h in s.late && s.late[h].Inserting? && Insertable(s.m.t, s.late[h].newId, s.late[h].booking, s.late[h].stays) ==>
        StillFree(s.m.t, s.late[h].stays) && RowsApart(s.late[h].stays)
    case SavePatch(h) => h in s.late && s.late[h].Patching? ==> Harmless(s.m.t, s.late[h].id, s.late[h].next)
    case WriteCash(h) => h in s.late && s.late[h].Paid? ==> Harmless(s.m.t, s.late[h].id, Confirmed)
    case _ => true
  }

  ghost predicate SafeState(s: State) {
    Safe(s.m.t)
  }

  ghost predicate Sound(s: State) {
    Safe(s.m.t) && OwnApart(s.m.t) && Checked(s)
  }

  lemma InsertStepSafeIff(s: State, h: nat)
    requires Sound(s)
    ensures Safe(InsertedCreate(s, h).m.t) <==> HarmlessStep(s, InsertCreate(h))
    ensures HarmlessStep(s, InsertCreate(h)) ==> OwnApart(InsertedCreate(s, h).m.t)
  {
    if h in s.late && s.late[h].Inserting? && Insertable(s.m.t, s.late[h].newId, s.late[h].booking, s.late[h].stays) {
      RowsAreSafeIff(s.m.t, s.late[h].newId, s.late[h].booking, s.late[h].stays);
      if RowsApart(s.late[h].stays) {
        InsertKeepsOwnApart(s.m.t, s.late[h].newId, s.late[h].booking, s.late[h].stays);
      }
    }
  }

  lemma OverwriteSafeIff(t: Tables, id: Id, next: BookingStatus)
    requires Safe(t) && OwnApart(t)
    ensures Safe(RoomsFollow(Overwritten(t, id, next), id, next)) <==> Harmless(t, id, next)
    ensures Safe(Overwritten(t, id, next)) <==> Harmless(t, id, next)
    ensures OwnApart(RoomsFollow(Overwritten(t, id, next), id, next)) && OwnApart(Overwritten(t, id, next))
  {
    WriteIsSafeIff(t, id, next);
    RoomStatusIsNoMatter(Overwritten(t, id, next), id, next);
  }

  lemma StepKeepsChecked(s: State, step: LateStep)
    requires Checked(s)
    ensures Checked(LateNext(s, step))
  {
    if step.CheckCreate? && CreateRefusal(s.m.t, step.items, step.today) == None {
      CheckedRowsAreProper(s.m.t, step.f, step.newId, step.head, step.items, step.today);
    }
  }

  lemma LateStepSafeIff(s: State, step: LateStep)
    requires Sound(s)
    ensures Safe(LateNext(s, step).m.t) <==> HarmlessStep(s, step)
    ensures HarmlessStep(s, step) ==> Sound(LateNext(s, step))
  {
    StepKeepsChecked(s, step);
    match step {
      case Whole(whole) =>
        StepIsSafeIff(s.m, whole);
        if !ClashesWithItself(s.m.t, whole) {
          StepKeepsOwnApart(s.m, whole);
        }
      case InsertCreate(h) => InsertStepSafeIff(s, h);
      case SavePatch(h) =>
        if h in s.late && s.late[h].Patching? {
          OverwriteSafeIff(s.m.t, s.late[h].id, s.late[h].next);
        }
      case WriteCash(h) =>
        if h in s.late && s.late[h].Paid? {
          OverwriteSafeIff(s.m.t, s.late[h].id, Confirmed);
        }
      case _ =>
    }
  }

  /** From any sound state, no run of whole and split requests ever sells a room twice exactly when each create
      wants no room twice for a night, each insert finds its rooms still free, and each late status write ends its
      booking, or finds it not ended, or finds its rooms not resold. */
  lemma LateRunSafeIff(s: State, steps: seq<LateStep>)
    requires Sound(s)
    ensures Runs.Throughout(LateNext, SafeState, s, steps) <==> Runs.AllHarmless(LateNext, HarmlessStep, s, steps)
  {
    forall u, step | Sound(u)
      ensures SafeState(LateNext(u, step)) <==> HarmlessStep(u, step)
      ensures HarmlessStep(u, step) ==> Sound(LateNext(u, step))
    {
      LateStepSafeIff(u, step);
    }
    Runs.ThroughoutIff(LateNext, Sound, SafeState, HarmlessStep, s, steps);
  }
}

/** When no room is sold twice for a night, and what follows from that: the availability test means what it
    should, a passed check survives everything but another insert, and the nights sold in a window do not exceed
    the window. The one thing the checks miss is a request that spells one room in two ways. */
module Availability {
  import opened SequenceFacts
  import opened Money
  import opened BookingModel
  import opened BookingRuns
  import opened Ids

  predicate Covers(s: Stay, room: Id, night: Day) {
    s.roomId == room && s.checkIn <= night < s.checkOut
  }

  /** The SQL overlap test on two half-open stays is true exactly when they share a night. */
  lemma OverlapIffSharedNight(a: Stay, b: Item)
    requires a.checkIn < a.checkOut && b.checkIn < b.checkOut
    ensures (a.checkIn < b.checkOut && a.checkOut > b.checkIn) <==>
            exists night :: Covers(a, a.roomId, night) && b.checkIn <= night < b.checkOut
  {
    if a.checkIn < b.checkOut && a.checkOut > b.checkIn {
      assert Covers(a, a.roomId, if a.checkIn < b.checkIn then b.checkIn else a.checkIn);
    }
  }

  /** The booking of the stay is neither cancelled nor checked out. */
  predicate Holding(t: Tables, s: Stay) {
    s.bookingId in t.bookings && t.bookings[s.bookingId].status in {Pending, Confirmed, CheckedIn}
  }

  ghost predicate Apart(a: Stay, b: Stay) {
    a.roomId == b.roomId ==> a.checkOut <= b.checkIn || b.checkOut <= a.checkIn
  }

  ghost predicate NoDoubleBooking(t: Tables) {
    forall i, j :: 0 <= i < j < |t.stays| && Active(t, t.stays[i]) && Active(t, t.stays[j]) ==>
      Apart(t.stays[i], t.stays[j])
  }

  /** Every stay belongs to a booking and lasts at least one night. */
  ghost predicate WellFormed(t: Tables) {
    forall i :: 0 <= i < |t.stays| ==> t.stays[i].bookingId in t.bookings && t.stays[i].checkIn < t.stays[i].checkOut
  }

  ghost predicate Safe(t: Tables) {
    WellFormed(t) && NoDoubleBooking(t)
  }

  /** What any number of steps that insert no stay can do: bookings keep all but their status, and
      no terminal booking is revived. */
  ghost predicate Shrinks(t: Tables, u: Tables) {
    && u.stays == t.stays && u.bookings.Keys == t.bookings.Keys
    && forall b :: b in t.bookings ==>
         u.bookings[b] == t.bookings[b].(status := u.bookings[b].status) &&
         (Terminal(t.bookings[b].status) ==> Terminal(u.bookings[b].status))
  }

  lemma MovesShrink(t: Tables, u: Tables)
    requires OnlyMoves(t, u)
    ensures Shrinks(t, u)
  {
  }

  lemma ShrinkingKeepsSafe(t: Tables, u: Tables)
    requires Safe(t) && Shrinks(t, u)
    ensures Safe(u)
  {
  }

  // ---- the insert --------------------------------------------------------------------------

  /** What the date checks establish. */
  ghost predicate Ordered(items: seq<Item>) {
    forall i :: 0 <= i < |items| ==> items[i].checkIn < items[i].checkOut
  }

  predicate Collides(x: Item, y: Item) {
    Key(x.roomId) == Key(y.roomId) && x.checkIn < y.checkOut && x.checkOut > y.checkIn
  }

  /** The request wants one room twice for a night, however it spells the room. */
  ghost predicate SelfClash(items: seq<Item>) {
    exists i, j :: 0 <= i < j < |items| && Collides(items[i], items[j])
  }

  ghost predicate AllFree(t: Tables, items: seq<Item>) {
    forall i :: 0 <= i < |items| ==> !Conflict(t, items[i])
  }

  /** The checks compare spellings: they leave it open whether two items mean the same room. */
  lemma AcceptedRequestIsProper(t: Tables, items: seq<Item>, today: int)
    requires CreateRefusal(t, items, today) == None
    ensures Distinct(RoomIds(items)) && Ordered(items) && AllFree(t, items) && Priced(t, items)
  {
    NoRepeatsIffDistinct(RoomIds(items));
    forall i | 0 <= i < |items|
      ensures items[i].checkIn < items[i].checkOut && !Conflict(t, items[i])
      ensures Key(items[i].rateOptionId) in t.rateOptions
    {
      assert DateRefusal(items[i], today) == None;
      assert RoomRefusal(t, items[i]) == None;
    }
  }

  lemma InsertedStays(t: Tables, f: Fpu, newId: Id, head: Header, items: seq<Item>)
    requires WellFormed(t) && Priced(t, items) && newId !in t.bookings
    ensures var u := Insert(t, f, newId, head, items);
            && |u.stays| == |t.stays| + |items|
            && (forall i :: 0 <= i < |t.stays| ==>
                u.stays[i] == t.stays[i] && (Active(u, u.stays[i]) <==> Active(t, t.stays[i])))
            && (forall i :: |t.stays| <= i < |u.stays| ==>
                  var item := items[i - |t.stays|];
                  u.stays[i].bookingId == newId && u.stays[i].roomId == Key(item.roomId) &&
                  u.stays[i].checkIn == item.checkIn && u.stays[i].checkOut == item.checkOut && Active(u, u.stays[i]))
  {
  }

  lemma InsertOfFreeIsSafe(t: Tables, f: Fpu, newId: Id, head: Header, items: seq<Item>)
    requires Safe(t) && Priced(t, items) && newId !in t.bookings
    requires Ordered(items) && AllFree(t, items) && !SelfClash(items)
    ensures Safe(Insert(t, f, newId, head, items))
  {
    var u, n := Insert(t, f, newId, head, items), |t.stays|;
    InsertedStays(t, f, newId, head, items);
    forall i, j | 0 <= i < j < |u.stays| && Active(u, u.stays[i]) && Active(u, u.stays[j])
      ensures Apart(u.stays[i], u.stays[j])
    {
      if n <= i {
        assert !Collides(items[i - n], items[j - n]);
      } else if n <= j {
        assert !Conflict(t, items[j - n]);
        assert !Blocks(t, t.stays[i], items[j - n]);
      }
    }
  }

  lemma InsertOfTakenIsUnsafe(t: Tables, f: Fpu, newId: Id, head: Header, items: seq<Item>, k: nat)
    requires WellFormed(t) && Priced(t, items) && newId !in t.bookings && Ordered(items)
    requires k < |items| && Conflict(t, items[k])
    ensures !Safe(Insert(t, f, newId, head, items))
  {
    var u, n := Insert(t, f, newId, head, items), |t.stays|;
    InsertedStays(t, f, newId, head, items);
    var i :| 0 <= i < n && Blocks(t, t.stays[i], items[k]);
    assert Active(u, u.stays[i]) && Active(u, u.stays[n + k]);
    assert !Apart(u.stays[i], u.stays[n + k]);
  }

  lemma InsertOfClashIsUnsafe(t: Tables, f: Fpu, newId: Id, head: Header, items: seq<Item>, i: nat, j: nat)
    requires WellFormed(t) && Priced(t, items) && newId !in t.bookings && Ordered(items)
    requires i < j < |items| && Collides(items[i], items[j])
    ensures !Safe(Insert(t, f, newId, head, items))
  {
    var u, n := Insert(t, f, newId, head, items), |t.stays|;
    InsertedStays(t, f, newId, head, items);
    assert Active(u, u.stays[n + i]) && Active(u, u.stays[n + j]);
    assert !Apart(u.stays[n + i], u.stays[n + j]);
  }

  /** Inserting a request is safe if and only if its rooms are still free at the moment of the insert and it
      wants no room twice for a night. */
  lemma InsertIsSafeIff(t: Tables, f: Fpu, newId: Id, head: Header, items: seq<Item>)
    requires Safe(t) && Priced(t, items) && newId !in t.bookings && Ordered(items)
    ensures Safe(Insert(t, f, newId, head, items)) <==> AllFree(t, items) && !SelfClash(items)
  {
    if k :| 0 <= k < |items| && Conflict(t, items[k]) {
      InsertOfTakenIsUnsafe(t, f, newId, head, items, k);
    } else if i, j :| 0 <= i < j < |items| && Collides(items[i], items[j]) {
      InsertOfClashIsUnsafe(t, f, newId, head, items, i, j);
    } else {
      InsertOfFreeIsSafe(t, f, newId, head, items);
    }
  }

  lemma InsertKeepsUnsafe(t: Tables, f: Fpu, newId: Id, head: Header, items: seq<Item>)
    requires WellFormed(t) && !NoDoubleBooking(t) && Priced(t, items) && newId !in t.bookings
    ensures !Safe(Insert(t, f, newId, head, items))
  {
    var u := Insert(t, f, newId, head, items);
    InsertedStays(t, f, newId, head, items);
    var i, j :| 0 <= i < j < |t.stays| && Active(t, t.stays[i]) && Active(t, t.stays[j])
                && !Apart(t.stays[i], t.stays[j]);
    assert Active(u, u.stays[i]) && Active(u, u.stays[j]) && !Apart(u.stays[i], u.stays[j]);
  }

  lemma InsertKeepsWellFormed(t: Tables, f: Fpu, newId: Id, head: Header, items: seq<Item>)
    requires WellFormed(t) && Priced(t, items) && newId !in t.bookings && Ordered(items)
    ensures WellFormed(Insert(t, f, newId, head, items))
  {
    var u, n := Insert(t, f, newId, head, items), |t.stays|;
    InsertedStays(t, f, newId, head, items);
    forall i | n <= i < |u.stays|
      ensures u.stays[i].bookingId in u.bookings && u.stays[i].checkIn < u.stays[i].checkOut
    {
      assert items[i - n].checkIn < items[i - n].checkOut;
    }
  }

  // ---- whole runs --------------------------------------------------------------------------

  /** The step stores a request that wants a room twice for a night. */
  ghost predicate ClashesWithItself(t: Tables, step: Step) {
    step.CreateStep? && Create(t, step.f, step.newId, step.head, step.items, step.today).refusal == None &&
    SelfClash(step.items)
  }

  lemma StepKeepsWellFormed(m: Machine, step: Step)
    requires WellFormed(m.t)
    ensures WellFormed(Next(m, step).t)
  {
    StepMoves(m, step);
    if step.CreateStep? && Create(m.t, step.f, step.newId, step.head, step.items, step.today).refusal == None {
      AcceptedRequestIsProper(m.t, step.items, step.today);
      InsertKeepsWellFormed(m.t, step.f, step.newId, step.head, step.items);
    }
  }

  lemma StepIsSafeIff(m: Machine, step: Step)
    requires Safe(m.t)
    ensures Safe(Next(m, step).t) <==> !ClashesWithItself(m.t, step)
  {
    StepMoves(m, step);
    if !step.CreateStep? {
      MovesShrink(m.t, Next(m, step).t);
      ShrinkingKeepsSafe(m.t, Next(m, step).t);
    } else if Create(m.t, step.f, step.newId, step.head, step.items, step.today).refusal == None {
      AcceptedRequestIsProper(m.t, step.items, step.today);
      InsertIsSafeIff(m.t, step.f, step.newId, step.head, step.items);
    }
  }

  lemma {:induction false} AlwaysWellFormed(steps: seq<Step>, n: nat)
    requires n <= |steps|
    ensures WellFormed(At(steps, n).t)
  {
    if n > 0 {
      AlwaysWellFormed(steps, n - 1);
      AtNext(steps, n - 1);
      StepKeepsWellFormed(At(steps, n - 1), steps[n - 1]);
    }
  }

  ghost predicate SafeUntil(steps: seq<Step>, n: nat)
    requires n <= |steps|
  {
    forall k :: 0 <= k <= n ==> Safe(At(steps, k).t)
  }

  ghost predicate NoSelfClash(steps: seq<Step>, n: nat)
    requires n <= |steps|
  {
    forall k :: 0 <= k < n ==> !ClashesWithItself(At(steps, k).t, steps[k])
  }

  lemma SafeUntilLonger(steps: seq<Step>, n: nat)
    requires 0 < n <= |steps|
    ensures SafeUntil(steps, n) <==> SafeUntil(steps, n - 1) && Safe(At(steps, n).t)
  {
  }

  lemma NoSelfClashLonger(steps: seq<Step>, n: nat)
    requires 0 < n <= |steps|
    ensures NoSelfClash(steps, n) <==>
              NoSelfClash(steps, n - 1) && !ClashesWithItself(At(steps, n - 1).t, steps[n - 1])
  {
  }

  lemma RunStepIsSafeIff(steps: seq<Step>, n: nat)
    requires 0 < n <= |steps| && Safe(At(steps, n - 1).t)
    ensures Safe(At(steps, n).t) <==> !ClashesWithItself(At(steps, n - 1).t, steps[n - 1])
  {
    AtNext(steps, n - 1);
    StepIsSafeIff(At(steps, n - 1), steps[n - 1]);
  }

  /** In every state of a run active stays of a room are pairwise apart if and only if no stored request wanted
      a room twice for a night. */
  lemma {:induction false} AlwaysSafeIff(steps: seq<Step>, n: nat)
    requires n <= |steps|
    ensures SafeUntil(steps, n) <==> NoSelfClash(steps, n)
  {
    if n > 0 {
      AlwaysSafeIff(steps, n - 1);
      SafeUntilLonger(steps, n);
      NoSelfClashLonger(steps, n);
      if SafeUntil(steps, n - 1) {
        RunStepIsSafeIff(steps, n);
      }
    } else {
      assert Safe(At(steps, 0).t);
    }
  }

  /** At most one active stay covers the night in the room. */
  ghost predicate SoldOnce(t: Tables, room: Id, night: Day) {
    forall i, j :: 0 <= i < j < |t.stays| && Holding(t, t.stays[i]) && Holding(t, t.stays[j]) ==>
      !(Covers(t.stays[i], room, night) && Covers(t.stays[j], room, night))
  }

  lemma ApartIffSoldOnce(t: Tables)
    requires WellFormed(t)
    ensures NoDoubleBooking(t) <==> forall room, night :: SoldOnce(t, room, night)
  {
    if i, j :| 0 <= i < j < |t.stays| && Active(t, t.stays[i]) && Active(t, t.stays[j]) &&
               !Apart(t.stays[i], t.stays[j]) {
      var night := Max(t.stays[i].checkIn, t.stays[j].checkIn);
      assert Covers(t.stays[i], t.stays[i].roomId, night) && Covers(t.stays[j], t.stays[i].roomId, night);
      assert !SoldOnce(t, t.stays[i].roomId, night);
    }
  }

  /** No state of a run sells any night of any room to two stays that are neither cancelled nor checked out, if
      and only if no stored request wanted a room twice for a night. */
  lemma NoNightIsSoldTwiceIff(steps: seq<Step>)
    ensures (forall n, room, night :: 0 <= n <= |steps| ==> SoldOnce(At(steps, n).t, room, night)) <==>
            NoSelfClash(steps, |steps|)
  {
    AlwaysSafeIff(steps, |steps|);
    forall n | 0 <= n <= |steps|
      ensures Safe(At(steps, n).t) <==> forall room, night :: SoldOnce(At(steps, n).t, room, night)
    {
      AlwaysWellFormed(steps, n);
      ApartIffSoldOnce(At(steps, n).t);
    }
    if SafeUntil(steps, |steps|) {
      forall n, room, night | 0 <= n <= |steps| ensures SoldOnce(At(steps, n).t, room, night) {
        assert Safe(At(steps, n).t);
      }
    }
  }

  // ---- the gap between the check and the insert --------------------------------------------

  /** A passed availability check stays valid under any steps other than another create. */
  lemma {:induction false} CheckStaysValid(m: Machine, steps: seq<Step>, items: seq<Item>)
    requires AllFree(m.t, items) && forall i :: 0 <= i < |steps| ==> !steps[i].CreateStep?
    ensures AllFree(Run(m, steps).t, items) && Shrinks(m.t, Run(m, steps).t)
  {
    if steps != [] {
      var before := steps[..|steps| - 1];
      CheckStaysValid(m, before, items);
      StepMoves(Run(m, before), steps[|steps| - 1]);
      MovesShrink(Run(m, before).t, Run(m, steps).t);
      ShrinkingCompose(m.t, Run(m, before).t, Run(m, steps).t);
      ShrinkingKeepsFree(m.t, Run(m, steps).t, items);
    }
  }

  lemma ShrinkingCompose(t: Tables, u: Tables, v: Tables)
    requires Shrinks(t, u) && Shrinks(u, v)
    ensures Shrinks(t, v)
  {
  }

  lemma ShrinkingKeepsFree(t: Tables, u: Tables, items: seq<Item>)
    requires Shrinks(t, u) && AllFree(t, items)
    ensures AllFree(u, items)
  {
  }

  /** Check, any other requests, insert: with no other create in between it is safe exactly when the request
      wants no room twice for a night. */
  lemma SerialisedInsertIsSafeIff(m: Machine, steps: seq<Step>, f: Fpu, newId: Id, head: Header, items: seq<Item>,
                               today: int)
    requires Safe(m.t) && CreateRefusal(m.t, items, today) == None
    requires forall i :: 0 <= i < |steps| ==> !steps[i].CreateStep?
    requires var u := Run(m, steps).t; newId !in u.bookings && Priced(u, items)
    ensures Safe(Insert(Run(m, steps).t, f, newId, head, items)) <==> !SelfClash(items)
  {
    var u := Run(m, steps).t;
    AcceptedRequestIsProper(m.t, items, today);
    CheckStaysValid(m, steps, items);
    ShrinkingKeepsSafe(m.t, u);
    InsertIsSafeIff(u, f, newId, head, items);
  }

  ghost predicate CommonNight(x: Item, y: Item, night: Day) {
    Key(x.roomId) == Key(y.roomId) && Between(x.checkIn, night, x.checkOut) && Between(y.checkIn, night, y.checkOut)
  }

  /** The two requests want a common room for a common night. */
  ghost predicate ShareNight(a: seq<Item>, b: seq<Item>) {
    exists i, j, night :: 0 <= i < |a| && 0 <= j < |b| && CommonNight(a[i], b[j], night)
  }

  lemma CollidesIffCommonNight(x: Item, y: Item)
    requires x.checkIn < x.checkOut && y.checkIn < y.checkOut
    ensures Collides(x, y) <==> exists night :: CommonNight(x, y, night)
  {
    if Collides(x, y) {
      assert CommonNight(x, y, if x.checkIn < y.checkIn then y.checkIn else x.checkIn);
    }
  }

  lemma BlockersAfterInsert(t: Tables, f: Fpu, id1: Id, head1: Header, a: seq<Item>, item: Item, k: nat)
    requires WellFormed(t) && Priced(t, a) && id1 !in t.bookings && k < |t.stays| + |a|
    ensures var u, n := Insert(t, f, id1, head1, a), |t.stays|;
            |u.stays| == n + |a| &&
            (Blocks(u, u.stays[k], item) <==> if k < n then Blocks(t, t.stays[k], item) else Collides(a[k - n], item))
  {
    InsertedStays(t, f, id1, head1, a);
  }

  /** After an insert a room is taken exactly if it was, or if the inserted request collides with it. */
  lemma ConflictAfterInsert(t: Tables, f: Fpu, id1: Id, head1: Header, a: seq<Item>, item: Item)
    requires WellFormed(t) && Priced(t, a) && id1 !in t.bookings
    ensures Conflict(Insert(t, f, id1, head1, a), item) <==>
            Conflict(t, item) || exists i :: 0 <= i < |a| && Collides(a[i], item)
  {
    var u, n := Insert(t, f, id1, head1, a), |t.stays|;
    if Conflict(u, item) {
      var k :| 0 <= k < |u.stays| && Blocks(u, u.stays[k], item);
      BlockersAfterInsert(t, f, id1, head1, a, item, k);
    }
    if k :| 0 <= k < n && Blocks(t, t.stays[k], item) {
      BlockersAfterInsert(t, f, id1, head1, a, item, k);
    }
    if i :| 0 <= i < |a| && Collides(a[i], item) {
      BlockersAfterInsert(t, f, id1, head1, a, item, n + i);
    }
  }

  lemma InsertTakesSharedNights(t: Tables, f: Fpu, id1: Id, head1: Header, a: seq<Item>, b: seq<Item>)
    requires WellFormed(t) && Priced(t, a) && id1 !in t.bookings && Ordered(a) && Ordered(b) && AllFree(t, b)
    ensures AllFree(Insert(t, f, id1, head1, a), b) <==> !ShareNight(a, b)
  {
    var u := Insert(t, f, id1, head1, a);
    forall i, j | 0 <= i < |a| && 0 <= j < |b|
      ensures Collides(a[i], b[j]) <==> exists night :: CommonNight(a[i], b[j], night)
    {
      CollidesIffCommonNight(a[i], b[j]);
    }
    forall j | 0 <= j < |b| ensures Conflict(u, b[j]) <==> exists i :: 0 <= i < |a| && Collides(a[i], b[j]) {
      ConflictAfterInsert(t, f, id1, head1, a, b[j]);
      assert !Conflict(t, b[j]);
    }
  }

  /** The check and the insert are not one step: two requests that are both checked before either inserts
      leave the table safe exactly when neither wants a room twice for a night, nor both of them do. */
  lemma OverlappingCreatesSafeIff(t: Tables, f: Fpu, id1: Id, id2: Id, head1: Header, head2: Header,
                                  a: seq<Item>, b: seq<Item>, today: int)
    requires Safe(t) && CreateRefusal(t, a, today) == None && CreateRefusal(t, b, today) == None
    requires id1 !in t.bookings && id2 !in t.bookings && id1 != id2
    ensures Priced(t, a) && Priced(Insert(t, f, id1, head1, a), b)
    ensures Safe(Insert(Insert(t, f, id1, head1, a), f, id2, head2, b)) <==>
              !SelfClash(a) && !SelfClash(b) && !ShareNight(a, b)
  {
    AcceptedRequestIsProper(t, a, today);
    AcceptedRequestIsProper(t, b, today);
    InsertIsSafeIff(t, f, id1, head1, a);
    InsertKeepsWellFormed(t, f, id1, head1, a);
    if SelfClash(a) {
      InsertKeepsUnsafe(Insert(t, f, id1, head1, a), f, id2, head2, b);
    } else {
      InsertTakesSharedNights(t, f, id1, head1, a, b);
      InsertIsSafeIff(Insert(t, f, id1, head1, a), f, id2, head2, b);
    }
  }

  /** So two copies of any accepted request always end in a double booking. */
  lemma OverlappingCreatesClash(t: Tables, f: Fpu, id1: Id, id2: Id, head1: Header, head2: Header, items: seq<Item>,
                                today: int)
    requires Safe(t) && CreateRefusal(t, items, today) == None
    requires id1 !in t.bookings && id2 !in t.bookings && id1 != id2
    ensures Priced(t, items)
    ensures var u := Insert(t, f, id1, head1, items);
            Priced(u, items) && !Safe(Insert(u, f, id2, head2, items))
  {
    AcceptedRequestIsProper(t, items, today);
    OverlappingCreatesSafeIff(t, f, id1, id2, head1, head2, items, items, today);
    assert CommonNight(items[0], items[0], items[0].checkIn);
  }

  // ---- capacity of a window ----------------------------------------------------------------

  function Max(a: int, b: int): int { if a < b then b else a }
  function Min(a: int, b: int): int { if a < b then a else b }

  /** The nights of a stay that fall into the window [from, to). */
  function ClippedNights(s: Stay, from: Day, to: Day): nat {
    Max(0, Min(s.checkOut, to) - Max(s.checkIn, from))
  }

  predicate Sold(t: Tables, s: Stay, room: Id) {
    s.roomId == room && Holding(t, s)
  }

  /** The nights sold in the window by the first `n` stays. */
  function NightsSold(t: Tables, n: nat, room: Id, from: Day, to: Day): nat
    requires n <= |t.stays|
  {
    if n == 0 then 0
    else
      var s := t.stays[n - 1];
      NightsSold(t, n - 1, room, from, to) + if Sold(t, s, room) then ClippedNights(s, from, to) else 0
  }

  predicate CoveredBy(t: Tables, n: nat, room: Id, night: Day)
    requires n <= |t.stays|
  {
    exists i :: 0 <= i < n && Sold(t, t.stays[i], room) && Covers(t.stays[i], room, night)
  }

  function SoldSet(t: Tables, n: nat, room: Id, from: Day, to: Day): (r: set<Day>)
    requires n <= |t.stays|
    ensures forall x :: x in r <==> x in Range(from, to) && CoveredBy(t, n, room, x)
  {
    set x | x in Range(from, to) && CoveredBy(t, n, room, x)
  }

  lemma ClippedIsRange(s: Stay, from: Day, to: Day) returns (nights: set<Day>)
    ensures |nights| == ClippedNights(s, from, to)
    ensures forall x :: x in nights <==> x in Range(from, to) && s.checkIn <= x < s.checkOut
  {
    var lo := Max(s.checkIn, from);
    var hi := Max(lo, Min(s.checkOut, to));
    RangeSize(lo, hi);
    nights := Range(lo, hi);
  }

  lemma LastStayIsApart(t: Tables, n: nat, room: Id, x: Day)
    requires NoDoubleBooking(t) && 0 < n <= |t.stays| && Sold(t, t.stays[n - 1], room)
    ensures Covers(t.stays[n - 1], room, x) ==> !CoveredBy(t, n - 1, room, x)
  {
  }

  lemma CoverageGrows(t: Tables, n: nat, room: Id, x: Day)
    requires 0 < n <= |t.stays|
    ensures CoveredBy(t, n, room, x) <==>
            CoveredBy(t, n - 1, room, x) || (Sold(t, t.stays[n - 1], room) && Covers(t.stays[n - 1], room, x))
  {
  }

  lemma SoldSetGrows(t: Tables, n: nat, room: Id, from: Day, to: Day)
    requires NoDoubleBooking(t) && 0 < n <= |t.stays|
    ensures |SoldSet(t, n, room, from, to)| == |SoldSet(t, n - 1, room, from, to)| +
                                               if !Sold(t, t.stays[n - 1], room) then 0
                                               else ClippedNights(t.stays[n - 1], from, to)
  {
    var s := t.stays[n - 1];
    var sold := Sold(t, s, room);
    var before, after := SoldSet(t, n - 1, room, from, to), SoldSet(t, n, room, from, to);
    forall x ensures CoveredBy(t, n, room, x) <==> CoveredBy(t, n - 1, room, x) || (sold && Covers(s, room, x)) {
      CoverageGrows(t, n, room, x);
    }
    if sold {
      var added := ClippedIsRange(s, from, to);
      forall x ensures !(x in added && x in before) {
        LastStayIsApart(t, n, room, x);
      }
      DisjointSizes(before, added, after);
    } else {
      assert after == before;
    }
  }

  lemma DisjointSizes<T(!new)>(a: set<T>, b: set<T>, c: set<T>)
    requires forall x :: x in c <==> x in a || x in b
    requires forall x :: !(x in b && x in a)
    ensures |c| == |a| + |b|
  {
    assert c == a + b && a !! b;
  }

  /** Sold nights are counted without overlap, so counting them is counting a set of nights. */
  lemma {:induction false} SoldNightsAreASet(t: Tables, n: nat, room: Id, from: Day, to: Day)
    requires NoDoubleBooking(t) && n <= |t.stays|
    ensures NightsSold(t, n, room, from, to) == |SoldSet(t, n, room, from, to)|
  {
    if n == 0 {
      assert SoldSet(t, 0, room, from, to) == {};
    } else {
      SoldNightsAreASet(t, n - 1, room, from, to);
      SoldSetGrows(t, n, room, from, to);
    }
  }

  lemma RoomCapacity(t: Tables, room: Id, from: Day, to: Day)
    requires NoDoubleBooking(t) && from <= to
    ensures NightsSold(t, |t.stays|, room, from, to) <= to - from
  {
    SoldNightsAreASet(t, |t.stays|, room, from, to);
    SubsetSize(SoldSet(t, |t.stays|, room, from, to), Range(from, to));
    RangeSize(from, to);
  }

  function NightsSoldIn(t: Tables, rooms: seq<Id>, from: Day, to: Day): nat {
    if rooms == [] then 0
    else NightsSoldIn(t, rooms[1..], from, to) + NightsSold(t, |t.stays|, rooms[0], from, to)
  }

  lemma OneMore(n: nat, width: int)
    ensures (n + 1) * width == n * width + width
  {
  }

  lemma {:induction false} RoomsCapacity(t: Tables, rooms: seq<Id>, from: Day, to: Day)
    requires forall r :: NightsSold(t, |t.stays|, r, from, to) <= to - from
    ensures NightsSoldIn(t, rooms, from, to) <= |rooms| * (to - from)
  {
    if rooms != [] {
      RoomsCapacity(t, rooms[1..], from, to);
      OneMore(|rooms[1..]|, to - from);
    }
  }

  lemma {:induction false} SoldNightCounts(t: Tables, n: nat, i: nat, room: Id, night: Day)
    requires i < n <= |t.stays| && Sold(t, t.stays[i], room) && Covers(t.stays[i], room, night)
    ensures NightsSold(t, n, room, night, night + 1) >= 1
  {
    if i < n - 1 {
      SoldNightCounts(t, n - 1, i, room, night);
    }
  }

  lemma {:induction false} NightSoldTwiceCounts(t: Tables, n: nat, i: nat, j: nat, room: Id, night: Day)
    requires i < j < n <= |t.stays|
    requires Sold(t, t.stays[i], room) && Covers(t.stays[i], room, night)
    requires Sold(t, t.stays[j], room) && Covers(t.stays[j], room, night)
    ensures NightsSold(t, n, room, night, night + 1) >= 2
  {
    if j < n - 1 {
      NightSoldTwiceCounts(t, n - 1, i, j, room, night);
    } else {
      SoldNightCounts(t, n - 1, i, room, night);
    }
  }

  /** In any window [from, to) the active stays of any rooms sell at most the rooms times its length. */
  ghost predicate WithinCapacity(t: Tables) {
    forall rooms, from, to :: from <= to ==> NightsSoldIn(t, rooms, from, to) <= |rooms| * (to - from)
  }

  lemma CapacityIff(t: Tables)
    requires WellFormed(t)
    ensures WithinCapacity(t) <==> NoDoubleBooking(t)
  {
    if NoDoubleBooking(t) {
      forall rooms: seq<Id>, from: Day, to: Day | from <= to
        ensures NightsSoldIn(t, rooms, from, to) <= |rooms| * (to - from)
      {
        forall r ensures NightsSold(t, |t.stays|, r, from, to) <= to - from {
          RoomCapacity(t, r, from, to);
        }
        RoomsCapacity(t, rooms, from, to);
      }
    } else {
      var i, j :| 0 <= i < j < |t.stays| && Active(t, t.stays[i]) && Active(t, t.stays[j])
                  && !Apart(t.stays[i], t.stays[j]);
      var room, night := t.stays[i].roomId, Max(t.stays[i].checkIn, t.stays[j].checkIn);
      NightSoldTwiceCounts(t, |t.stays|, i, j, room, night);
      assert [room][1..] == [];
      assert NightsSoldIn(t, [room], night, night + 1) >= 2;
    }
  }

  /** No state of a run sells more nights than rooms times days, in any window and for any rooms, if and only if
      no stored request wanted a room twice for a night. */
  lemma WindowCapacityIff(steps: seq<Step>)
    ensures (forall n :: 0 <= n <= |steps| ==> WithinCapacity(At(steps, n).t)) <==> NoSelfClash(steps, |steps|)
  {
    AlwaysSafeIff(steps, |steps|);
    forall n | 0 <= n <= |steps| ensures WithinCapacity(At(steps, n).t) <==> Safe(At(steps, n).t) {
      AlwaysWellFormed(steps, n);
      CapacityIff(At(steps, n).t);
    }
  }
}

/** Prices as the service computes them: decimal text is read into a double, multiplied by the
    nights, summed, written back as text and stored in a `decimal(12,2)` column; the gateway amount
    is read from that column again. A double is a real number here, and every float operation and
    every number-to-text step returns a real within relative error 2^-53 of the exact result
    (section 4.3.1 of IEEE 754-2019). */
module Money {

  type Cents = int

  /** `round` is the rounding of an arithmetic result to a double; `show` is the decimal value of
      the text that a double is written as. */
  datatype Fpu = Fpu(round: real -> real, show: real -> real)

  const ULP: real := 1.0 / 9007199254740992.0  // 2^-53
  const WIDE: real := ULP * 1.000001           // absorbs products of errors
  const MAX_CENTS: int := 1_000_000_000_000    // decimal(12,2) holds less than 10^10

  ghost predicate Near(exact: real, got: real) {
    -(ULP * exact) <= got - exact <= ULP * exact
  }

  /** The magnitudes for which the error bound is assumed: zero, or well inside the normal range. */
  ghost predicate Normal(x: real) {
    x == 0.0 || 0.001 <= x <= 100000000000000000000000000000000.0
  }

  ghost predicate Faithful(f: Fpu) {
    && (forall x :: Normal(x) ==> Near(x, f.round(x)))
    && (forall x :: Normal(x) ==> Near(x, f.show(x)))
  }

  function ParseFloat(f: Fpu, stored: Cents): real {
    f.round(stored as real / 100.0)
  }

  function TimesNights(perNight: real, nights: int): real {
    perNight * nights as real
  }

  function RoomTotal(f: Fpu, price: Cents, nights: int): real {
    f.round(TimesNights(ParseFloat(f, price), nights))
  }

  /** One room of a booking: its nightly price and the number of nights. */
  datatype Line = Line(price: Cents, nights: int)

  /** `totalPrice += roomTotal` over the rooms in order. */
  function RunningTotal(f: Fpu, lines: seq<Line>): real {
    if lines == [] then 0.0
    else
      var last := lines[|lines| - 1];
      f.round(RunningTotal(f, lines[..|lines| - 1]) + RoomTotal(f, last.price, last.nights))
  }

  /** What a `decimal(_,2)` column keeps of the text of `x`: nearest cent, halves away from zero. */
  function StoreDecimal(f: Fpu, x: real): Cents {
    var v := f.show(x) * 100.0;
    if v >= 0.0 then (v + 0.5).Floor else -((0.5 - v).Floor)
  }

  /** JavaScript's `Math.round`. */
  function MathRound(x: real): int {
    (x + 0.5).Floor
  }

  function ToStripeAmount(f: Fpu, stored: Cents): int {
    MathRound(f.round(ParseFloat(f, stored) * 100.0))
  }

  function ExactTotal(lines: seq<Line>): Cents {
    if lines == [] then 0
    else
      var last := lines[|lines| - 1];
      ExactTotal(lines[..|lines| - 1]) + last.price * last.nights
  }

  ghost predicate Sellable(lines: seq<Line>) {
    forall i :: 0 <= i < |lines| ==> lines[i].price >= 0 && lines[i].nights >= 1
  }

  // ---- error analysis ----------------------------------------------------------------------

  ghost predicate Within(exact: real, got: real, slack: real) {
    exact >= 0.0 && -slack <= got - exact <= slack
  }

  /** The absolute error that `ops` roundings of an exact value can build up. */
  function Slack(ops: nat, exact: real): real {
    if ops == 0 then 0.0 else Slack(ops - 1, exact) + WIDE * exact
  }

  const MAX_OPS: int := 1_000_000_000

  lemma {:induction false} SlackIsProduct(ops: nat, exact: real)
    ensures Slack(ops, exact) == ops as real * (WIDE * exact)
  {
    if ops > 0 {
      SlackIsProduct(ops - 1, exact);
    }
  }

  lemma TimesMonotone(a: real, b: real, c: real)
    requires a <= b && c >= 0.0
    ensures a * c <= b * c
  {
  }

  lemma SlackIsSmall(ops: nat, exact: real)
    requires exact >= 0.0 && ops <= MAX_OPS
    ensures 0.0 <= Slack(ops, exact) <= 0.000001 * exact
  {
    SlackIsProduct(ops, exact);
    TimesMonotone(ops as real, 1000000000.0, WIDE * exact);
  }

  lemma {:induction false} SlackOfSum(ops: nat, e1: real, e2: real)
    ensures Slack(ops, e1 + e2) == Slack(ops, e1) + Slack(ops, e2)
  {
    if ops > 0 {
      SlackOfSum(ops - 1, e1, e2);
    }
  }

  lemma {:induction false} SlackIsMonotone(ops: nat, more: nat, exact: real)
    requires exact >= 0.0 && ops <= more
    ensures Slack(ops, exact) <= Slack(more, exact)
    decreases more
  {
    if ops < more {
      SlackIsMonotone(ops, more - 1, exact);
    }
  }

  /** Exact amounts are whole cents of a size that a float step can carry. */
  ghost predicate Amount(exact: real) {
    exact == 0.0 || 0.01 <= exact <= 1000000000000000000000000000000.0
  }

  lemma OneMoreRounding(exact: real, got: real, rounded: real, ops: nat)
    requires Amount(exact) && Within(exact, got, Slack(ops, exact)) && ops < MAX_OPS
    requires Normal(got) ==> Near(got, rounded)
    ensures Normal(got) && Within(exact, rounded, Slack(ops + 1, exact))
  {
    SlackIsSmall(ops, exact);
    if exact == 0.0 {
      assert got == 0.0;
    } else {
      assert 0.001 <= got <= 100000000000000000000000000000000.0;
      TimesMonotone(got, 1.000001 * exact, ULP);
    }
  }

  function Units(c: Cents): real { c as real / 100.0 }

  const MOST: Cents := 1_000_000_000_000_000_000_000_000_000_000

  lemma ParsedIsClose(f: Fpu, price: Cents)
    requires Faithful(f) && 0 <= price <= MOST
    ensures Within(Units(price), ParseFloat(f, price), Slack(1, Units(price)))
  {
  }

  lemma ScaledWithin(exact: real, got: real, factor: real, scaled: real)
    requires Within(exact, got, WIDE * exact) && factor >= 0.0 && scaled == exact * factor
    ensures Within(scaled, got * factor, WIDE * scaled)
  {
  }

  lemma OneNightCostsNoMore(price: Cents, nights: int)
    requires 0 <= price && 1 <= nights
    ensures price <= price * nights
  {
  }

  lemma UnitsOfProduct(price: Cents, nights: int)
    ensures Units(price * nights) == Units(price) * nights as real
  {
  }

  lemma ScaledAndRounded(exact: real, got: real, factor: real, scaled: real, product: real, rounded: real)
    requires Within(exact, got, WIDE * exact) && factor >= 0.0 && scaled == exact * factor && product == got * factor
    requires Amount(scaled) && (Normal(product) ==> Near(product, rounded))
    ensures Within(scaled, rounded, Slack(2, scaled))
  {
    ScaledWithin(exact, got, factor, scaled);
    RoundedOnce(scaled, product, rounded);
  }

  lemma RoundedOnce(exact: real, got: real, rounded: real)
    requires Amount(exact) && Within(exact, got, WIDE * exact) && (Normal(got) ==> Near(got, rounded))
    ensures Within(exact, rounded, Slack(2, exact))
  {
    assert Slack(1, exact) == WIDE * exact;
    OneMoreRounding(exact, got, rounded, 1);
  }

  lemma TimesNightsIsClose(price: Cents, parsed: real, nights: int, room: Cents, rounded: real)
    requires 0 <= room <= MOST && nights >= 0 && Units(room) == Units(price) * nights as real
    requires Within(Units(price), parsed, WIDE * Units(price))
    requires Normal(TimesNights(parsed, nights)) ==> Near(TimesNights(parsed, nights), rounded)
    ensures Within(Units(room), rounded, Slack(2, Units(room)))
  {
    ScaledAndRounded(Units(price), parsed, nights as real, Units(room), TimesNights(parsed, nights), rounded);
  }

  lemma RoomTotalIsClose(f: Fpu, price: Cents, nights: int, room: Cents)
    requires Faithful(f) && 0 <= price && 1 <= nights && room == price * nights <= MOST
    ensures Within(Units(room), RoomTotal(f, price, nights), Slack(2, Units(room)))
  {
    OneNightCostsNoMore(price, nights);
    ParsedIsClose(f, price);
    UnitsOfProduct(price, nights);
    assert Slack(1, Units(price)) == WIDE * Units(price);
    TimesNightsIsClose(price, ParseFloat(f, price), nights, room, RoomTotal(f, price, nights));
  }

  lemma {:induction false} ExactTotalIsMonotone(lines: seq<Line>)
    requires Sellable(lines)
    ensures 0 <= ExactTotal(lines)
    ensures lines != [] ==> 0 <= ExactTotal(lines[..|lines| - 1]) <= ExactTotal(lines)
  {
    if lines != [] {
      ExactTotalIsMonotone(lines[..|lines| - 1]);
      var last := lines[|lines| - 1];
      assert 0 <= last.price * last.nights;
    }
  }

  lemma AddOneRoom(f: Fpu, before: Cents, total: real, room: Cents, roomTotal: real, rooms: nat)
    requires Faithful(f) && rooms + 3 < MAX_OPS && 0 <= before && 0 <= room && before + room <= MOST
    requires Within(Units(before), total, Slack(rooms + 2, Units(before)))
    requires Within(Units(room), roomTotal, Slack(2, Units(room)))
    ensures Within(Units(before + room), f.round(total + roomTotal), Slack(rooms + 3, Units(before + room)))
  {
    SlackIsMonotone(2, rooms + 2, Units(room));
    SlackOfSum(rooms + 2, Units(before), Units(room));
    assert Units(before) + Units(room) == Units(before + room);
    OneMoreRounding(Units(before + room), total + roomTotal, f.round(total + roomTotal), rooms + 2);
  }

  lemma {:induction false} RunningTotalIsClose(f: Fpu, lines: seq<Line>)
    requires Faithful(f) && Sellable(lines) && |lines| + 3 <= MAX_OPS && ExactTotal(lines) <= MOST
    ensures Within(Units(ExactTotal(lines)), RunningTotal(f, lines), Slack(|lines| + 2, Units(ExactTotal(lines))))
  {
    if lines == [] {
      SlackIsSmall(2, 0.0);
    } else {
      var init, last := lines[..|lines| - 1], lines[|lines| - 1];
      ExactTotalIsMonotone(lines);
      RunningTotalIsClose(f, init);
      var room := last.price * last.nights;
      RoomTotalIsClose(f, last.price, last.nights, room);
      AddOneRoom(f, ExactTotal(init), RunningTotal(f, init), room, RoomTotal(f, last.price, last.nights), |init|);
    }
  }

  /** The half-cent condition, from which everything below is exact. */
  ghost predicate Exact(rooms: nat, total: Cents) {
    rooms + 3 < MAX_OPS && 0 <= total <= MOST && Slack(rooms + 3, total as real) < 0.5
  }

  lemma {:induction false} SlackOfUnits(ops: nat, c: Cents)
    ensures Slack(ops, Units(c)) * 100.0 == Slack(ops, c as real)
  {
    if ops > 0 {
      SlackOfUnits(ops - 1, c);
    }
  }

  lemma {:induction false} SlackGrowsWithAmount(ops: nat, less: real, more: real)
    requires 0.0 <= less <= more
    ensures Slack(ops, less) <= Slack(ops, more)
  {
    if ops > 0 {
      SlackGrowsWithAmount(ops - 1, less, more);
    }
  }

  /** Less than half a cent of error disappears when the column rounds to whole cents. */
  lemma StoreRecovers(f: Fpu, c: Cents, x: real, ops: nat, rooms: nat, total: Cents)
    requires Faithful(f) && 0 <= c <= total && Exact(rooms, total) && ops + 1 <= rooms + 3
    requires Within(Units(c), x, Slack(ops, Units(c)))
    ensures StoreDecimal(f, x) == c
  {
    OneMoreRounding(Units(c), x, f.show(x), ops);
    SlackOfUnits(ops + 1, c);
    SlackIsMonotone(ops + 1, rooms + 3, c as real);
    SlackGrowsWithAmount(rooms + 3, c as real, total as real);
    var v := f.show(x) * 100.0;
    assert -0.5 < v - c as real < 0.5;
  }

  /** Storing the float totals keeps exactly the sum of price x nights for the booking. */
  lemma StoredTotalIsExact(f: Fpu, lines: seq<Line>)
    requires Faithful(f) && Sellable(lines) && Exact(|lines|, ExactTotal(lines))
    ensures StoreDecimal(f, RunningTotal(f, lines)) == ExactTotal(lines)
  {
    ExactTotalIsMonotone(lines);
    RunningTotalIsClose(f, lines);
    StoreRecovers(f, ExactTotal(lines), RunningTotal(f, lines), |lines| + 2, |lines|, ExactTotal(lines));
  }

  /** Storing the floats of one room keeps exactly its price and price x nights. */
  lemma StoredRoomIsExact(f: Fpu, line: Line)
    requires Faithful(f) && 0 <= line.price && 1 <= line.nights && Exact(0, line.price * line.nights)
    ensures StoreDecimal(f, RoomTotal(f, line.price, line.nights)) == line.price * line.nights
    ensures StoreDecimal(f, ParseFloat(f, line.price)) == line.price
  {
    var room := line.price * line.nights;
    OneNightCostsNoMore(line.price, line.nights);
    RoomTotalIsClose(f, line.price, line.nights, room);
    StoreRecovers(f, room, RoomTotal(f, line.price, line.nights), 2, 0, room);
    ParsedIsClose(f, line.price);
    StoreRecovers(f, line.price, ParseFloat(f, line.price), 1, 0, room);
  }

  /** The gateway is asked for exactly the stored number of cents. */
  lemma StripeAmountIsExact(f: Fpu, stored: Cents)
    requires Faithful(f) && Exact(0, stored)
    ensures ToStripeAmount(f, stored) == stored
  {
    ParsedIsClose(f, stored);
    assert Slack(1, Units(stored)) == WIDE * Units(stored);
    var cents := stored as real;
    assert Units(stored) * 100.0 == cents;
    ScaledWithin(Units(stored), ParseFloat(f, stored), 100.0, cents);
    assert Slack(1, cents) == WIDE * cents;
    var product := ParseFloat(f, stored) * 100.0;
    OneMoreRounding(cents, product, f.round(product), 1);
    SlackIsMonotone(2, 3, cents);
  }

  /** Up to 4000 rooms and a little more than a `decimal(12,2)` column can hold. */
  lemma HalfCentUpTo(rooms: nat, total: Cents)
    requires rooms <= 4000 && 0 <= total <= 1_100_000_000_000
    ensures Exact(rooms, total)
  {
    var perOp := WIDE * total as real;
    assert 0.0 <= perOp <= WIDE * 1100000000000.0;
    TimesMonotone((rooms + 3) as real, 4003.0, perOp);
    assert 4003.0 * perOp < 0.5;
    SlackIsProduct(rooms + 3, total as real);
    assert Slack(rooms + 3, total as real) == (rooms + 3) as real * perOp;
  }

  /** A total that the column accepts came from an exact total below the column's bound: a larger
      one would have been stored as a larger number. */
  lemma AcceptedTotalFits(f: Fpu, lines: seq<Line>)
    requires Faithful(f) && Sellable(lines) && |lines| <= 4000 && ExactTotal(lines) <= MOST
    requires StoreDecimal(f, RunningTotal(f, lines)) < MAX_CENTS
    ensures ExactTotal(lines) < MAX_CENTS
  {
    var total := ExactTotal(lines);
    if total >= MAX_CENTS {
      ExactTotalIsMonotone(lines);
      if total <= 1_100_000_000_000 {
        HalfCentUpTo(|lines|, total);
        StoredTotalIsExact(f, lines);
      } else {
        var x := RunningTotal(f, lines);
        RunningTotalIsClose(f, lines);
        OneMoreRounding(Units(total), x, f.show(x), |lines| + 2);
        SlackIsSmall(|lines| + 3, Units(total));
      }
    }
  }
}

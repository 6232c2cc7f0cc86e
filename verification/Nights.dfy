/** Nights charged and nights stored. The body check takes any ISO date text, with or without a time of day;
    the service charges by the time between the two instants, and the `date` columns keep the two dates. */
module Nights {
  import opened SequenceFacts
  import opened Money
  import opened BookingModel
  import opened Ids

  /** A date text: the day it names, its time of day and its offset from UTC, in milliseconds. */
  datatype DateText = DateText(day: Day, timeOfDay: int, offset: int)

  /** A bare date is midnight UTC. */
  function Bare(day: Day): DateText {
    DateText(day, 0, 0)
  }

  function Instant(d: DateText): int {
    d.day * MS_PER_DAY + TimeUtc(d)
  }

  /** The time of day in UTC, counted from midnight UTC of the named day. */
  function TimeUtc(d: DateText): int {
    d.timeOfDay - d.offset
  }

  function ChargedNights(checkIn: DateText, checkOut: DateText): int {
    MathRound((Instant(checkOut) - Instant(checkIn)) as real / MS_PER_DAY as real)
  }

  function StoredNights(checkIn: DateText, checkOut: DateText): int {
    checkOut.day - checkIn.day
  }

  /** The nights charged are the nights stored exactly when the check-out time, in UTC, is at most twelve hours
      earlier and less than twelve hours later in its day than the check-in time. */
  lemma ChargedAsStoredIff(checkIn: DateText, checkOut: DateText)
    ensures ChargedNights(checkIn, checkOut) == StoredNights(checkIn, checkOut) <==>
            -MS_PER_DAY <= 2 * (TimeUtc(checkOut) - TimeUtc(checkIn)) < MS_PER_DAY
  {
  }

  /** So for bare dates they always agree, with the nights of a line and the order check of a request. */
  lemma BareDatesAgree(t: Tables, item: Item, today: int)
    requires Key(item.rateOptionId) in t.rateOptions
    ensures ChargedNights(Bare(item.checkIn), Bare(item.checkOut)) == LineOf(t, item).nights
    ensures DateRefusal(item, today) == None <==>
            today <= Instant(Bare(item.checkIn)) && Instant(Bare(item.checkIn)) < Instant(Bare(item.checkOut))
  {
  }

  /** An instant lies as much before its text's time of day as the offset is ahead of UTC: half past midnight of a
      day in Myanmar is 18:00 UTC of the day before. */
  lemma OffsetsCountBack(d: DateText, day: Day)
    ensures Instant(d) + d.offset == d.day * 86_400_000 + d.timeOfDay
    ensures Instant(DateText(day, 1_800_000, 23_400_000)) == (day - 1) * 86_400_000 + 18 * 3_600_000
  {
  }

  /** With one offset they differ by one night at most. */
  lemma OneNightApartAtMost(checkIn: DateText, checkOut: DateText)
    requires 0 <= checkIn.timeOfDay < MS_PER_DAY && 0 <= checkOut.timeOfDay < MS_PER_DAY
    requires checkIn.offset == checkOut.offset
    ensures -1 <= ChargedNights(checkIn, checkOut) - StoredNights(checkIn, checkOut) <= 1
  {
  }

  const HOUR := 3_600_000

  /** It happens, either way: two nights stored and one charged, and no night stored where one is charged. */
  lemma NightsCanDiffer(day: Day)
    ensures var late, early := DateText(day, 23 * HOUR, 0), DateText(day + 2, 1 * HOUR, 0);
            Instant(late) < Instant(early) && StoredNights(late, early) == 2 && ChargedNights(late, early) == 1
    ensures var morning, evening := DateText(day, 8 * HOUR, 0), DateText(day, 20 * HOUR, 0);
            Instant(morning) < Instant(evening) && StoredNights(morning, evening) == 0 &&
              ChargedNights(morning, evening) == 1
  {
  }
}

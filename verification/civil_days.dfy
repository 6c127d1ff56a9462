/** The proleptic Gregorian calendar by day number since 1 January 1970, counted in years that begin in March. */
module CivilDays {
  import opened CronSchedules

  const ERA := 146_097          // days of 400 years
  const TO_EPOCH := 719_468     // days from 1 March of year 0 to the epoch

  /** Days before the March of year `y` of an era; a leap day ends its year. */
  function MarchOf(y: nat): nat {
    365 * y + y / 4 - y / 100 + y / 400
  }

  lemma Quarters(y: nat)
    ensures (y + 1) / 4 == y / 4 + if (y + 1) % 4 == 0 then 1 else 0
  {
  }

  lemma Centuries(y: nat)
    ensures (y + 1) / 100 == y / 100 + if (y + 1) % 100 == 0 then 1 else 0
  {
  }

  lemma Eras(y: nat)
    ensures (y + 1) / 400 == y / 400 + if (y + 1) % 400 == 0 then 1 else 0
  {
  }

  lemma Divisors(n: nat)
    ensures n % 100 == 0 ==> n % 4 == 0
    ensures n % 400 == 0 ==> n % 100 == 0
  {
    if n % 100 == 0 { assert n == 4 * (25 * (n / 100)); }
    if n % 400 == 0 { assert n == 100 * (4 * (n / 400)); }
  }

  predicate Leap(y: nat) {
    y % 4 == 0 && (y % 100 != 0 || y % 400 == 0)
  }

  /** A year that ends in the February of a leap year has 366 days, any other 365. */
  lemma MarchesIncrease(y: nat)
    ensures MarchOf(y + 1) == MarchOf(y) + if Leap(y + 1) then 366 else 365
  {
    Quarters(y);
    Centuries(y);
    Eras(y);
    Divisors(y + 1);
  }

  /** The year of the era that day `d` falls into. */
  function YearFrom(d: nat, y: nat): nat
    decreases d - MarchOf(y)
  {
    MarchesIncrease(y);
    if d < MarchOf(y + 1) then y else YearFrom(d, y + 1)
  }

  /** Month and day of the month from the day of a year that begins in March. */
  function FromMarch(d: nat): Civil {
    if d < 31 then Civil(3, d + 1)
    else if d < 61 then Civil(4, d - 30)
    else if d < 92 then Civil(5, d - 60)
    else if d < 122 then Civil(6, d - 91)
    else if d < 153 then Civil(7, d - 121)
    else if d < 184 then Civil(8, d - 152)
    else if d < 214 then Civil(9, d - 183)
    else if d < 245 then Civil(10, d - 213)
    else if d < 275 then Civil(11, d - 244)
    else if d < 306 then Civil(12, d - 274)
    else if d < 337 then Civil(1, d - 305)
    else Civil(2, d - 336)
  }

  function YearDay(d: nat): int {
    d - MarchOf(YearFrom(d, 0))
  }

  lemma {:induction false} YearFound(d: nat, y: nat, from: nat)
    requires MarchOf(y) <= d < MarchOf(y + 1) && from <= y
    ensures YearFrom(d, from) == y
    decreases y - from
  {
    MarchesIncrease(from);
    if from == y {
    } else {
      MarchLater(from + 1, y);
      YearFound(d, y, from + 1);
    }
  }

  lemma {:induction false} MarchLater(a: nat, b: nat)
    requires a <= b
    ensures MarchOf(a) <= MarchOf(b)
    decreases b - a
  {
    if a == b {
    } else {
      MarchesIncrease(a);
      MarchLater(a + 1, b);
    }
  }

  lemma {:induction false} YearFromBounds(d: nat, y: nat)
    requires MarchOf(y) <= d
    ensures MarchOf(YearFrom(d, y)) <= d < MarchOf(YearFrom(d, y) + 1)
    decreases d - MarchOf(y)
  {
    MarchesIncrease(y);
    if d < MarchOf(y + 1) {
    } else {
      YearFromBounds(d, y + 1);
    }
  }

  lemma YearDayBounds(d: nat)
    ensures 0 <= YearDay(d) <= 365
  {
    YearFromBounds(d, 0);
    MarchesIncrease(YearFrom(d, 0));
  }

  function Gregorian(day: int): Civil {
    var d := (day + TO_EPOCH) % ERA;
    YearDayBounds(d);
    FromMarch(YearDay(d))
  }

  /** The calendar read off the year that holds a day; the 29th of February closes a year of 366 days. */
  lemma GregorianFacts(day: int, y: nat, d: nat)
    requires d == (day + TO_EPOCH) % ERA && MarchOf(y) <= d < MarchOf(y + 1)
    ensures Gregorian(day) == FromMarch(d - MarchOf(y))
    ensures Gregorian(day) == Civil(2, 29) <==> d - MarchOf(y) == 365
  {
    YearFound(d, y, 0);
    MarchesIncrease(y);
  }

  lemma EpochIsNewYear()
    ensures Gregorian(0) == Civil(1, 1)
  {
    GregorianFacts(0, 369, TO_EPOCH - 4 * ERA);
  }

  /** The day after: the next of the month, or the first of the next month. */
  predicate Follows(today: Civil, tomorrow: Civil) {
    || tomorrow == Civil(today.month, today.dom + 1)
    || (tomorrow == Civil(today.month % 12 + 1, 1)
        && if today.month == 2 then today.dom in {28, 29}
           else today.dom == if today.month in {4, 6, 9, 11} then 30 else 31)
  }

  lemma DaysOfYearFollow(d: nat)
    ensures d < 365 ==> Follows(FromMarch(d), FromMarch(d + 1))
    ensures d == 364 || d == 365 ==> Follows(FromMarch(d), FromMarch(0))
  {
  }

  lemma NextInEra(z: int)
    ensures (z + 1) % ERA == if z % ERA == ERA - 1 then 0 else z % ERA + 1
  {
  }

  /** Every date is followed by the next one of the civil calendar. */
  lemma DaysFollow(day: int)
    ensures Follows(Gregorian(day), Gregorian(day + 1))
  {
    var d := (day + TO_EPOCH) % ERA;
    var y := YearFrom(d, 0);
    YearFromBounds(d, 0);
    MarchesIncrease(y);
    GregorianFacts(day, y, d);
    NextInEra(day + TO_EPOCH);
    DaysOfYearFollow(d - MarchOf(y));
    if d + 1 == ERA {
      YearOfLastDay(y);
      GregorianFacts(day + 1, 0, 0);
    } else if d + 1 < MarchOf(y + 1) {
      GregorianFacts(day + 1, y, d + 1);
    } else {
      MarchesIncrease(y + 1);
      GregorianFacts(day + 1, y + 1, d + 1);
    }
  }

  lemma YearOfLastDay(y: nat)
    requires MarchOf(y) <= ERA - 1 < MarchOf(y + 1)
    ensures y == 399
  {
    assert MarchOf(399) == 145_731 && MarchOf(400) == ERA;
    if y < 399 { MarchLater(y + 1, 399); }
    if y > 399 { MarchLater(400, y); }
  }

  /** 29 February 2096 is a leap day, and 2100 has none. */
  const LAST_LEAP_DAY := 46_080

  lemma NoLeapDayAfter(day: int)
    requires LAST_LEAP_DAY < day <= LAST_LEAP_DAY + 1830
    ensures Gregorian(day) != Civil(2, 29)
  {
    var d := day + TO_EPOCH - 5 * ERA;
    assert d == (day + TO_EPOCH) % ERA;
    assert MarchOf(96) == 35_064 && MarchOf(97) == 35_429 && MarchOf(98) == 35_794 && MarchOf(99) == 36_159;
    assert MarchOf(100) == 36_524 && MarchOf(101) == 36_889 && MarchOf(102) == 37_254;
    var y := if d < 35_429 then 96 else if d < 35_794 then 97 else if d < 36_159 then 98
             else if d < 36_524 then 99 else if d < 36_889 then 100 else 101;
    GregorianFacts(day, y, d);
  }

  lemma LeapDayOf2096()
    ensures Gregorian(LAST_LEAP_DAY) == Civil(2, 29)
  {
    GregorianFacts(LAST_LEAP_DAY, 95, LAST_LEAP_DAY + TO_EPOCH - 5 * ERA);
  }
}

/** Congestion estimation: historical lookups turned into a level 1..4, the
    advisory "best car" for subway legs, and the keys (day type, half-hour)
    under which subway observations are looked up. A lookup result is an
    `Option<real>`: `None` stands for a missing table, a missing or NaN mean,
    or any error raised while looking up. */
module Crowd {
  import opened Wrappers

  /** Subway congestion percentage to level: below 70, 100, 150 give 1, 2, 3; else 4. */
  function PctToLevel(pct: real): (lvl: int)
    ensures 1 <= lvl <= 4
    ensures lvl == 1 <==> pct < 70.0
    ensures lvl <= 2 <==> pct < 100.0
    ensures lvl <= 3 <==> pct < 150.0
  {
    if pct < 70.0 then 1
    else if pct < 100.0 then 2
    else if pct < 150.0 then 3
    else 4
  }

  lemma PctToLevelMonotone(a: real, b: real)
    requires a <= b
    ensures PctToLevel(a) <= PctToLevel(b)
  {
  }

  /** The level of a subway leg: the observed percentage's level, or 2 without one. */
  function SubwayLevel(pct: Option<real>): (lvl: int)
    ensures 1 <= lvl <= 4
    ensures pct.None? ==> lvl == 2
    ensures pct.Some? ==> lvl == PctToLevel(pct.value)
  {
    match pct
    case None => 2
    case Some(p) => PctToLevel(p)
  }

  /** The level of a bus leg from its mean boarding count: below 10, 25, 40
      give 1, 2, 3; else 4; 2 without an observation. */
  function BusLevel(boardings: Option<real>): (lvl: int)
    ensures 1 <= lvl <= 4
    ensures boardings.None? ==> lvl == 2
    ensures boardings.Some? ==>
      && (lvl == 1 <==> boardings.value < 10.0)
      && (lvl <= 2 <==> boardings.value < 25.0)
      && (lvl <= 3 <==> boardings.value < 40.0)
  {
    match boardings
    case None => 2
    case Some(b) =>
      if b < 10.0 then 1
      else if b < 25.0 then 2
      else if b < 40.0 then 3
      else 4
  }

  lemma BusLevelMonotone(a: real, b: real)
    requires a <= b
    ensures BusLevel(Some(a)) <= BusLevel(Some(b))
  {
  }

  /** The cars the heuristic may recommend at a level: an end car when crowded,
      a car next to an end at level 2, any of the ten otherwise. */
  function AllowedCars(lvl: int): (cars: set<int>)
    ensures cars != {}
    ensures forall c :: c in cars ==> 1 <= c <= 10
    ensures lvl >= 3 ==> cars == {1, 10}
    ensures lvl == 2 ==> cars == {2, 9}
    ensures lvl < 2 ==> forall c :: 1 <= c <= 10 ==> c in cars
  {
    if lvl >= 3 then {1, 10}
    else if lvl == 2 then {2, 9}
    else {1, 2, 3, 4, 5, 6, 7, 8, 9, 10}
  }

  /** `subway_crowd_level` given the lookup's outcome: the level, and a best car
      drawn at random among those the level allows. */
  method SubwayCrowdLevel(pct: Option<real>) returns (lvl: int, best: int)
    ensures lvl == SubwayLevel(pct)
    ensures best in AllowedCars(lvl)
  {
    lvl := if pct.Some? then PctToLevel(pct.value) else 2;
    if lvl >= 3 {
      best :| best in {1, 10};
    } else if lvl == 2 {
      best :| best in {2, 9};
    } else {
      best :| 1 <= best <= 10;
    }
  }

  /** Calendar fields of a timestamp, as `datetime` guarantees them. */
  type Weekday = d: int | 0 <= d <= 6
  type Hour = h: int | 0 <= h <= 23
  type Minute = m: int | 0 <= m <= 59

  datatype Instant = Instant(weekday: Weekday, hour: Hour, minute: Minute)

  /** DAY_TYPE: Monday..Friday are day type 1, Saturday 2, Sunday 3. */
  const DayTypes: map<Weekday, int> := map[0 := 1, 1 := 1, 2 := 1, 3 := 1, 4 := 1, 5 := 2, 6 := 3]

  function DayType(d: Weekday): (t: int)
    ensures t == 1 <==> d <= 4
    ensures t == 2 <==> d == 5
    ensures t == 3 <==> d == 6
  {
    DayTypes[d]
  }

  /** The minute a timestamp is rounded down to: the hour or the half hour. */
  function HalfHour(m: Minute): (b: Minute)
    ensures b == 0 || b == 30
    ensures b <= m < b + 30
  {
    if m < 30 then 0 else 30
  }

  function Digit(d: int): (c: char)
    requires 0 <= d <= 9
  {
    (48 + d) as char
  }

  /** `%02d` of a number below 100. */
  function TwoDigits(n: int): (s: string)
    requires 0 <= n <= 99
    ensures |s| == 2 && forall c :: c in s ==> '0' <= c <= '9'
    ensures 10 * (s[0] as int - '0' as int) + (s[1] as int - '0' as int) == n
  {
    [Digit(n / 10), Digit(n % 10)]
  }

  lemma TwoDigitsInjective(a: int, b: int)
    requires 0 <= a <= 99 && 0 <= b <= 99
    ensures TwoDigits(a) == TwoDigits(b) <==> a == b
  {
    if TwoDigits(a) == TwoDigits(b) {
      assert TwoDigits(a)[0] == TwoDigits(b)[0] && TwoDigits(a)[1] == TwoDigits(b)[1];
      assert a / 10 == b / 10 && a % 10 == b % 10;
    }
  }

  /** The "HHMM" key of a timestamp, its minutes rounded down to the half hour. */
  function Hhmm(h: Hour, m: Minute): (s: string)
    ensures |s| == 4
    ensures s[..2] == TwoDigits(h) && s[2..] == TwoDigits(HalfHour(m))
    ensures s[2..] == (if m < 30 then "00" else "30")
  {
    TwoDigits(h) + TwoDigits(HalfHour(m))
  }

  /** Two times share a subway lookup key exactly when they lie in the same half hour. */
  lemma {:induction false} HhmmKeysHalfHours(h1: Hour, m1: Minute, h2: Hour, m2: Minute)
    ensures Hhmm(h1, m1) == Hhmm(h2, m2) <==> h1 == h2 && HalfHour(m1) == HalfHour(m2)
  {
    var a1, b1 := TwoDigits(h1), TwoDigits(HalfHour(m1));
    var a2, b2 := TwoDigits(h2), TwoDigits(HalfHour(m2));
    if Hhmm(h1, m1) == Hhmm(h2, m2) {
      assert (a1 + b1)[..2] == a1 && (a2 + b2)[..2] == a2;
      assert (a1 + b1)[2..] == b1 && (a2 + b2)[2..] == b2;
      TwoDigitsInjective(h1, h2);
      TwoDigitsInjective(HalfHour(m1), HalfHour(m2));
    }
  }

  /** `subway_crowd_level`'s lookup key for a station at a time. */
  function SubwayKey(station: string, now: Instant): (key: (string, int, string))
    ensures key.0 == station && 1 <= key.1 <= 3 && |key.2| == 4
    ensures key.1 == DayType(now.weekday) && key.2 == Hhmm(now.hour, now.minute)
  {
    (station, DayType(now.weekday), Hhmm(now.hour, now.minute))
  }
}

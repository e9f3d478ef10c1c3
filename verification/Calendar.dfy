/**
 Repetition of a timer. Times are whole seconds, the civil clock has a fixed
 offset from them, and a day has 86400 seconds. A repeated timer moves forward
 day by day until it stands on a selected weekday, not before the start of the
 repetition, and is not over.
 */
module Calendar {

  const DAY := 86400

  /** tm_wday: Monday is 0. Day 0 of the epoch was a Thursday. */
  function Weekday(zone: int, t: int): (w: int)
    ensures 0 <= w < 7
  {
    ((t + zone) / DAY + 3) % 7
  }

  /** Bit d of the repetition mask. */
  predicate Selected(mask: int, d: nat)
    requires mask >= 0
  {
    if d == 0 then mask % 2 == 1 else Selected(mask / 2, d - 1)
  }

  /** Bit d of the mask is set, where the bits from 0 on mean Monday to Sunday. */
  ghost predicate HasBit(mask: int, d: int)
    requires 0 <= d < 7
  {
    mask / [1, 2, 4, 8, 16, 32, 64][d] % 2 == 1
  }

  /**
   t lies on a day of the mask: weeks of seven days are counted from the midnight, on the zone's clock, with which
   Monday, 5 January 1970 began.
   */
  ghost predicate OnMaskDay(mask: int, zone: int, t: int) {
    exists week: int, d: int {:trigger MaskDay(mask, zone, week, d)} ::
      MaskDay(mask, zone, week, d) && 0 <= t - (4 * 86400 - zone + (7 * week + d) * 86400) < 86400
  }

  ghost predicate MaskDay(mask: int, zone: int, week: int, d: int) {
    0 <= d < 7 && HasBit(mask, d)
  }

  /** Halving the mask moves its bits down by one. */
  lemma {:induction false} SelectedIsBit(mask: int, d: int)
    requires mask >= 0 && 0 <= d < 7
    ensures Selected(mask, d) <==> HasBit(mask, d)
    decreases d
  {
    if d > 0 {
      var p := [1, 2, 4, 8, 16, 32, 64];
      SelectedIsBit(mask / 2, d - 1);
      assert p[d] == 2 * p[d - 1];
      HalfThen(mask, p[d - 1]);
    }
  }

  lemma HalfThen(mask: int, p: int)
    requires p in [1, 2, 4, 8, 16, 32]
    ensures mask / 2 / p == mask / (2 * p)
  {
  }

  lemma DayOfWeek(zone: int, t: int, week: int, d: int)
    requires 0 <= d < 7
    ensures 0 <= t - (4 * 86400 - zone + (7 * week + d) * 86400) < 86400 <==> (t + zone) / DAY == 7 * week + d + 4
  {
    DayOf(t + zone, 7 * week + d + 4);
  }

  lemma DayOf(t: int, day: int)
    ensures day * 86400 <= t < day * 86400 + 86400 <==> t / DAY == day
  {
    assert t == (t / DAY) * DAY + t % DAY;
    if day * 86400 <= t < day * 86400 + 86400 {
      assert -DAY < (day - t / DAY) * DAY < DAY;
    }
  }

  /** tm_wday picks the mask's bit of the day it is. */
  lemma WeekdayMeans(mask: int, zone: int, t: int)
    requires mask >= 0
    ensures Selected(mask, Weekday(zone, t)) <==> OnMaskDay(mask, zone, t)
  {
    var day, w := (t + zone) / DAY, Weekday(zone, t);
    SelectedIsBit(mask, w);
    if Selected(mask, w) {
      var week := (day + 3) / 7 - 1;
      assert day == 7 * week + w + 4;
      DayOfWeek(zone, t, week, w);
      assert MaskDay(mask, zone, week, w);
    }
    if OnMaskDay(mask, zone, t) {
      var week: int, d: int :| MaskDay(mask, zone, week, d)
        && 0 <= t - (4 * 86400 - zone + (7 * week + d) * 86400) < 86400;
      DayOfWeek(zone, t, week, d);
      WholeWeeks(week, d);
    }
  }

  lemma WholeWeeks(week: int, d: int)
    requires 0 <= d < 7
    ensures (7 * week + d + 7) % 7 == d
  {
  }

  /** Some weekday is selected. */
  ghost predicate HasDay(mask: int) {
    mask >= 0 && exists d :: 0 <= d < 7 && Selected(mask, d)
  }

  /** What a repetition depends on. */
  datatype Repeat = Repeat(zone: int, mask: int, from: int, begin: int, end: int, now: int, findRunning: bool)

  /**
   struct_time comparison: a time reached by adding days has an unknown DST flag, which makes it the smaller of two
   equal times.
   */
  predicate Before(t: int, moved: bool, now: int) {
    t < now || (t == now && moved)
  }

  /** A timer that has been moved to begin and end, or not moved yet, has to move on. */
  predicate MustMove(r: Repeat, begin: int, end: int, moved: bool)
    requires r.mask >= 0
  {
    || !Selected(r.mask, Weekday(r.zone, begin))
    || r.from > begin
    || (if r.findRunning then Before(end, moved, r.now) else Before(begin, moved, r.now))
  }

  /** After k days the timer still has to move on. */
  predicate MoveOn(r: Repeat, k: int)
    requires r.mask >= 0
  {
    MustMove(r, r.begin + k * DAY, r.end + k * DAY, k > 0)
  }

  /** k is the first day on which the timer may stay. */
  ghost predicate IsOffset(r: Repeat, k: nat)
    requires r.mask >= 0
  {
    !MoveOn(r, k) && forall j: nat :: j < k ==> MoveOn(r, j)
  }

  lemma WeekdaysAdvance(zone: int, t: int, k: nat)
    ensures Weekday(zone, t + k * DAY) == (Weekday(zone, t) + k) % 7
  {
    assert (t + k * DAY + zone) / DAY == (t + zone) / DAY + k;
  }

  /** From any day on, every weekday comes within a week. */
  lemma WeekdayComes(zone: int, t: int, n: nat, d: int) returns (k: nat)
    requires 0 <= d < 7
    ensures n <= k < n + 7 && Weekday(zone, t + k * DAY) == d
  {
    var w := (Weekday(zone, t) + n) % 7;
    var j: nat := if d >= w then d - w else d - w + 7;
    k := n + j;
    WeekdaysAdvance(zone, t, k);
    assert (Weekday(zone, t) + n + j) % 7 == (w + j) % 7;
  }

  /** With some weekday selected, there is a day on which the timer may stay. */
  lemma SomeDayFits(r: Repeat) returns (k: nat)
    requires HasDay(r.mask)
    ensures !MoveOn(r, k)
  {
    var d :| 0 <= d < 7 && Selected(r.mask, d);
    var late := Max(Max(r.from - r.begin, r.now - r.begin), Max(r.now - r.end, 0)) + 1;
    k := WeekdayComes(r.zone, r.begin, late, d);
    assert k * DAY >= k;
  }

  /** And among such days there is a first one. */
  lemma SomeDayFitsFirst(r: Repeat) returns (k: nat)
    requires HasDay(r.mask)
    ensures IsOffset(r, k)
  {
    var last := SomeDayFits(r);
    k := 0;
    while MoveOn(r, k)
      invariant k <= last && forall j: nat :: j < k ==> MoveOn(r, j)
      decreases last - k
    {
      k := k + 1;
    }
  }

  function Max(a: int, b: int): (m: int)
    ensures m >= a && m >= b && (m == a || m == b)
  {
    if a > b then a else b
  }

  /** Without a selected weekday no day ever fits. */
  lemma NoDayNeverFits(r: Repeat, k: nat)
    requires r.mask >= 0 && !HasDay(r.mask)
    ensures MoveOn(r, k)
  {
    var w := Weekday(r.zone, r.begin + k * DAY);
    assert 0 <= w < 7;
  }

  /** Where the timer stays, asking again moves nothing. */
  lemma StaysPut(r: Repeat, k: nat)
    requires r.mask >= 0 && IsOffset(r, k)
    ensures IsOffset(r.(begin := r.begin + k * DAY, end := r.end + k * DAY), 0)
    ensures r.begin == r.end ==> IsOffset(r.(begin := r.begin + k * DAY, end := r.end + k * DAY + 1), 0)
  {
  }

  /** Asking again finds the same day, so the day is unique. */
  lemma OneOffset(r: Repeat, j: nat, k: nat)
    requires r.mask >= 0 && IsOffset(r, j) && IsOffset(r, k)
    ensures j == k
  {
  }
}

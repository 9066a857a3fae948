/** The 18:30 cutoff of Chicago and the business day a deposit belongs to
    (internal/settlement/cutoff.go:18-67, cmd/api/handlers/settlement.go:33-35).
    Instants are seconds.  The time-zone data is abstract: `wall` gives the second the clock on the
    wall shows at an instant, `instant` the instant at which it shows a given second. */
module Cutoff {
  import opened Calendar

  const HOUR := 3600
  const DAY := 86400
  const CUTOFF_HOUR := 18
  const CUTOFF_MINUTE := 30
  const CUTOFF_OF_DAY := CUTOFF_HOUR * HOUR + CUTOFF_MINUTE * 60

  datatype Zone = Zone(wall: int -> int, instant: int -> int)

  function LocalDay(z: Zone, s: int): int {
    z.wall(s) / DAY
  }

  /** What is needed of Chicago: the calendar day never goes back, the clock shows 18:30 every day, and
      it is set back by no more than one hour. */
  ghost predicate IsZone(z: Zone) {
    && (forall s, t :: s <= t ==> LocalDay(z, s) <= LocalDay(z, t))
    && (forall n :: z.wall(z.instant(n * DAY + CUTOFF_OF_DAY)) == n * DAY + CUTOFF_OF_DAY)
    && (forall s, t :: s <= t ==> z.wall(s) + (t - s) - HOUR <= z.wall(t))
  }

  /** A clock without changes is one such zone, so what is needed of Chicago can be met. */
  lemma {:induction false} FixedOffsetIsAZone(offset: int)
    ensures IsZone(Zone(s => s + offset, w => w - offset))
  {
    var z := Zone(s => s + offset, w => w - offset);
    forall s, t | s <= t ensures LocalDay(z, s) <= LocalDay(z, t) {
      assert z.wall(s) <= z.wall(t);
    }
  }

  /** t.In(CTLocation), to the day. */
  function LocalDate(z: Zone, s: int): (d: Date)
    ensures IsDate(d) && DayNumber(d) == LocalDay(z, s)
  {
    DateOf(LocalDay(z, s))
  }

  function CutoffForDate(z: Zone, d: Date): int
    requires IsDate(d)
  {
    z.instant(DayNumber(d) * DAY + CUTOFF_OF_DAY)
  }

  function CurrentCutoff(z: Zone, now: int): int {
    var today := LocalDate(z, now);
    if now < CutoffForDate(z, today) then CutoffForDate(z, today) else CutoffForDate(z, Following(today))
  }

  function BatchCutoffDate(z: Zone, s: int): (b: Date)
    ensures IsDate(b)
  {
    var today := LocalDate(z, s);
    if s < CutoffForDate(z, today) && IsBusinessDay(today) then today else Following(today)
  }

  /** A cutoff lies in its own day. */
  lemma {:induction false} CutoffInItsDay(z: Zone, d: Date)
    requires IsZone(z) && IsDate(d)
    ensures LocalDay(z, CutoffForDate(z, d)) == DayNumber(d)
  {
    var n := DayNumber(d);
    assert z.wall(z.instant(n * DAY + CUTOFF_OF_DAY)) == n * DAY + CUTOFF_OF_DAY;
  }

  /** An instant of an earlier day is before the cutoff, one of a later day after it. */
  lemma {:induction false} DaysOrderCutoffs(z: Zone, s: int, d: Date)
    requires IsZone(z) && IsDate(d)
    ensures LocalDay(z, s) < DayNumber(d) ==> s < CutoffForDate(z, d)
    ensures DayNumber(d) < LocalDay(z, s) ==> CutoffForDate(z, d) < s
  {
    CutoffInItsDay(z, d);
  }

  lemma {:induction false} CutoffsIncrease(z: Zone, d: Date, e: Date)
    requires IsZone(z) && IsDate(d) && IsDate(e) && DayNumber(d) < DayNumber(e)
    ensures CutoffForDate(z, d) < CutoffForDate(z, e)
  {
    CutoffInItsDay(z, d);
    DaysOrderCutoffs(z, CutoffForDate(z, d), e);
  }

  /** b is the least business day whose cutoff lies strictly after s. */
  ghost predicate IsLeastAfter(z: Zone, s: int, b: Date) {
    && IsDate(b) && IsBusinessDay(b) && s < CutoffForDate(z, b)
    && forall d :: IsDate(d) && IsBusinessDay(d) && s < CutoffForDate(z, d) ==> DayNumber(b) <= DayNumber(d)
  }

  lemma {:induction false} BatchDayIsLeast(z: Zone, s: int)
    requires IsZone(z)
    ensures IsLeastAfter(z, s, BatchCutoffDate(z, s))
  {
    var today, b := LocalDate(z, s), BatchCutoffDate(z, s);
    DaysOrderCutoffs(z, s, b);
    forall d | IsDate(d) && IsBusinessDay(d) && s < CutoffForDate(z, d) ensures DayNumber(b) <= DayNumber(d) {
      DaysOrderCutoffs(z, s, d);
      if DayNumber(d) == DayNumber(today) {
        NumbersIdentify(d, today);
      }
    }
  }

  /** The clock on the wall shows half past six in the evening of the day: the cutoff. */
  ghost predicate ShowsCutoff(z: Zone, s: int, d: Date)
    requires IsDate(d)
  {
    z.wall(s) == DayNumber(d) * (24 * 60 * 60) + (18 * 60 + 30) * 60
  }

  lemma {:induction false} CutoffIsShown(z: Zone, d: Date)
    requires IsZone(z) && IsDate(d)
    ensures ShowsCutoff(z, CutoffForDate(z, d), d)
  {
    var n := DayNumber(d);
    assert z.wall(z.instant(n * DAY + CUTOFF_OF_DAY)) == n * DAY + CUTOFF_OF_DAY;
  }

  /** The batch day in terms of the statute: the least day from Monday to Friday that is no observed federal
      holiday and at whose half past six the submission had already been made. */
  lemma {:induction false} BatchDayIsLeastWorkday(z: Zone, s: int)
    requires IsZone(z)
    ensures var b := BatchCutoffDate(z, s);
      && IsWorkday(b) && s < CutoffForDate(z, b) && ShowsCutoff(z, CutoffForDate(z, b), b)
      && forall d :: IsDate(d) && IsWorkday(d) && s < CutoffForDate(z, d) ==> DayNumber(b) <= DayNumber(d)
  {
    var b := BatchCutoffDate(z, s);
    BatchDayIsLeast(z, s);
    BusinessDaysAreWorkdays(b);
    CutoffIsShown(z, b);
    forall d | IsDate(d) && IsWorkday(d) && s < CutoffForDate(z, d) ensures DayNumber(b) <= DayNumber(d) {
      BusinessDaysAreWorkdays(d);
    }
  }

  /** Whoever submits later belongs to the same or a later day. */
  lemma {:induction false} BatchDaysAreMonotone(z: Zone, s: int, t: int)
    requires IsZone(z) && s <= t
    ensures DayNumber(BatchCutoffDate(z, s)) <= DayNumber(BatchCutoffDate(z, t))
  {
    BatchDayIsLeast(z, s);
    BatchDayIsLeast(z, t);
  }

  /** Before the cutoff of d exactly when due by d. */
  ghost predicate CutoffDecides(z: Zone, d: Date, s: int)
    requires IsDate(d)
  {
    s < CutoffForDate(z, d) <==> DayNumber(BatchCutoffDate(z, s)) <= DayNumber(d)
  }

  lemma {:induction false} DueByBusinessDay(z: Zone, d: Date, s: int)
    requires IsZone(z) && IsDate(d) && IsBusinessDay(d)
    ensures CutoffDecides(z, d, s)
  {
    var b := BatchCutoffDate(z, s);
    BatchDayIsLeast(z, s);
    if DayNumber(b) < DayNumber(d) {
      CutoffsIncrease(z, b, d);
    } else if DayNumber(b) == DayNumber(d) {
      NumbersIdentify(b, d);
    }
  }

  /** On any other day a deposit made at the cutoff of the day before is past due by mistake: the
      cutoff decides for all deposits exactly on business days. */
  lemma {:induction false} CutoffDecidesOnBusinessDays(z: Zone, d: Date)
    requires IsZone(z) && IsDate(d)
    ensures (forall s :: CutoffDecides(z, d, s)) <==> IsBusinessDay(d)
  {
    if IsBusinessDay(d) {
      forall s ensures CutoffDecides(z, d, s) {
        DueByBusinessDay(z, d, s);
      }
    } else {
      var s := LateTheDayBefore(z, d);
      assert !CutoffDecides(z, d, s);
    }
  }

  lemma {:induction false} LateTheDayBefore(z: Zone, d: Date) returns (s: int)
    requires IsZone(z) && IsDate(d) && !IsBusinessDay(d)
    ensures s == CutoffForDate(z, DayBefore(d)) && !CutoffDecides(z, d, s)
  {
    var e := DayBefore(d);
    DayBeforeNumber(d);
    CutoffsIncrease(z, e, d);
    CutoffInItsDay(z, e);
    s := CutoffForDate(z, e);
    NumbersIdentify(LocalDate(z, s), e);
    var b := BatchCutoffDate(z, s);
    if DayNumber(b) == DayNumber(d) {
      NumbersIdentify(b, d);
    }
  }

  /** The current cutoff is the cutoff of the batch a deposit made now belongs to, exactly on business
      days and after the cutoff of any day. */
  lemma {:induction false} CurrentCutoffOfTheBatch(z: Zone, now: int)
    requires IsZone(z)
    ensures var today := LocalDate(z, now);
      CurrentCutoff(z, now) == CutoffForDate(z, BatchCutoffDate(z, now))
      <==> IsBusinessDay(today) || CutoffForDate(z, today) <= now
    ensures var today := LocalDate(z, now);
      !IsBusinessDay(today) && now < CutoffForDate(z, today) ==> CurrentCutoff(z, now) == CutoffForDate(z, today)
  {
    var today := LocalDate(z, now);
    CutoffsIncrease(z, today, Following(today));
  }

  /** The handler triggers with a clock set one day ahead: every deposit made by now is then before the
      cutoff, also on the day the clock is set back. */
  lemma {:induction false} TomorrowCoversNow(z: Zone, now: int, s: int)
    requires IsZone(z) && s <= now
    ensures s < CutoffForDate(z, LocalDate(z, now + DAY))
  {
    var d := LocalDate(z, now + DAY);
    assert LocalDay(z, now) <= LocalDay(z, now + DAY);
    DaysOrderCutoffs(z, now, d);
    var c := CutoffForDate(z, d);
    CutoffInItsDay(z, d);
    assert z.wall(c) == DayNumber(d) * DAY + CUTOFF_OF_DAY;
    assert c <= now ==> z.wall(c) - HOUR <= z.wall(now);
    assert z.wall(now) + DAY - HOUR <= z.wall(now + DAY);
    assert z.wall(now + DAY) < DayNumber(d) * DAY + DAY;
  }
}

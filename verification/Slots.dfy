/** The retry scheduler (app/core/state_machine.py, `_compute_scheduled_at`,
    `_generate_legal_candidates`, `_first_salary_window_day`). */
module Slots {
  import opened Models
  import opened PeakWindows

  function CandidateHours(): seq<nat> { [0, 12, 24, 48, 72] }

  const SALARY_WINDOW_START_DAY: int := 1
  const SALARY_WINDOW_END_DAY: int := 7

  /** Day of month of a UTC day number; the calendar itself is a parameter. */
  type Calendar = int -> int

  function Max(a: int, b: int): int { if a < b then b else a }

  /** The later of the notice floor and the spacing floor. */
  function SlotFloor(cfg: Config, retriesUsed: nat, previous: Option<Instant>, now: Instant): (r: Instant)
    requires ValidConfig(cfg)
    ensures now + cfg.noticeLead <= r
  {
    var from := if previous.Some? then previous.value else now;
    Max(now + cfg.noticeLead, from + SpacingFor(cfg, retriesUsed))
  }

  // ---- Candidate slots -------------------------------------------------------------------------

  function Gathered(hours: seq<nat>, floor: Instant, latest: Instant, cfg: Config, clock: Clock): seq<Instant> {
    if hours == [] then []
    else
      var earlier := Gathered(hours[..|hours| - 1], floor, latest, cfg, clock);
      var raw := floor + ResolveDelay(clock, hours[|hours| - 1] * HOUR);
      var slot := AvoidPeak(cfg.peakWindows, raw);
      if raw <= latest && slot <= latest then earlier + [slot] else earlier
  }

  lemma GatheredMore(hours: seq<nat>, i: nat, floor: Instant, latest: Instant, cfg: Config, clock: Clock)
    requires i < |hours|
    ensures var raw := floor + ResolveDelay(clock, hours[i] * HOUR);
            var slot := AvoidPeak(cfg.peakWindows, raw);
            Gathered(hours[..i + 1], floor, latest, cfg, clock)
              == Gathered(hours[..i], floor, latest, cfg, clock)
                 + (if raw <= latest && slot <= latest then [slot] else [])
  {
    var longer := hours[..i + 1];
    assert longer[..i] == hours[..i] && longer[i] == hours[i];
    assert Gathered(hours[..i], floor, latest, cfg, clock) + [] == Gathered(hours[..i], floor, latest, cfg, clock);
  }

  /** The gathered slots, or the first slot off the peak when none fits. */
  function SlotsOrFallback(hours: seq<nat>, floor: Instant, latest: Instant, cfg: Config, clock: Clock)
    : (r: seq<Instant>)
    ensures r != []
  {
    var gathered := Gathered(hours, floor, latest, cfg, clock);
    if gathered == [] then [AvoidPeak(cfg.peakWindows, floor)] else gathered
  }

  function LegalCandidates(floor: Instant, latest: Instant, cfg: Config, clock: Clock): (r: seq<Instant>)
    ensures r != []
  {
    SlotsOrFallback(CandidateHours(), floor, latest, cfg, clock)
  }

  method GenerateLegalCandidates(floor: Instant, latest: Instant, cfg: Config, clock: Clock)
    returns (candidates: seq<Instant>)
    ensures candidates == LegalCandidates(floor, latest, cfg, clock)
  {
    var hours := CandidateHours();
    candidates := [];
    var i := 0;
    while i < |hours|
      invariant 0 <= i <= |hours|
      invariant candidates == Gathered(hours[..i], floor, latest, cfg, clock)
    {
      GatheredMore(hours, i, floor, latest, cfg, clock);
      var candidate := floor + ResolveDelay(clock, hours[i] * HOUR);
      if candidate <= latest {
        candidate := AvoidPeak(cfg.peakWindows, candidate);
        if candidate <= latest {
          candidates := candidates + [candidate];
        }
      }
      i := i + 1;
    }
    assert hours[..|hours|] == hours;
    if candidates == [] {
      candidates := [AvoidPeak(cfg.peakWindows, floor)];
    }
  }

  lemma {:induction false} GatheredLegal(hours: seq<nat>, floor: Instant, latest: Instant, cfg: Config, clock: Clock)
    requires EndsInTheClear(cfg.peakWindows)
    ensures forall c :: c in Gathered(hours, floor, latest, cfg, clock) ==>
              AvoidPeak(cfg.peakWindows, floor) <= c <= latest && !InPeak(cfg.peakWindows, c)
  {
    if hours == [] {
    } else {
      var n := |hours| - 1;
      GatheredLegal(hours[..n], floor, latest, cfg, clock);
      var raw := floor + ResolveDelay(clock, hours[n] * HOUR);
      AvoidIsMonotone(cfg.peakWindows, floor, raw);
      EscapesWhenEndsClear(cfg.peakWindows, raw);
    }
  }

  lemma {:induction false} GatheredFloorSlot(hours: seq<nat>, floor: Instant, latest: Instant, cfg: Config,
                                             clock: Clock)
    requires hours != [] && hours[0] == 0
    requires AvoidPeak(cfg.peakWindows, floor) <= latest
    ensures Gathered(hours, floor, latest, cfg, clock) != []
  {
    var n := |hours| - 1;
    if n == 0 {
      AvoidSkipsOnlyPeak(cfg.peakWindows, floor);
    } else {
      assert hours[..n][0] == 0;
      GatheredFloorSlot(hours[..n], floor, latest, cfg, clock);
    }
  }

  /** Every candidate respects the floor and the blackout. */
  lemma CandidatesLegal(hours: seq<nat>, floor: Instant, latest: Instant, cfg: Config, clock: Clock)
    requires EndsInTheClear(cfg.peakWindows)
    ensures forall c :: c in SlotsOrFallback(hours, floor, latest, cfg, clock) ==>
              floor <= c && !InPeak(cfg.peakWindows, c)
  {
    GatheredLegal(hours, floor, latest, cfg, clock);
    EscapesWhenEndsClear(cfg.peakWindows, floor);
    AvoidSkipsOnlyPeak(cfg.peakWindows, floor);
  }

  /** The slot some hours after the floor, off the peak. */
  function SlotAfter(h: nat, floor: Instant, cfg: Config, clock: Clock): Instant {
    AvoidPeak(cfg.peakWindows, floor + ResolveDelay(clock, h * HOUR))
  }

  /** Neither the raw instant nor the slot is too late. */
  predicate Fits(h: nat, floor: Instant, latest: Instant, cfg: Config, clock: Clock) {
    floor + ResolveDelay(clock, h * HOUR) <= latest && SlotAfter(h, floor, cfg, clock) <= latest
  }

  lemma {:induction false} GatheredExactly(hours: seq<nat>, floor: Instant, latest: Instant, cfg: Config,
                                           clock: Clock, c: Instant)
    ensures c in Gathered(hours, floor, latest, cfg, clock) <==>
            exists i :: 0 <= i < |hours| && Fits(hours[i], floor, latest, cfg, clock) &&
                        c == SlotAfter(hours[i], floor, cfg, clock)
  {
    if hours == [] {
    } else {
      var n := |hours| - 1;
      GatheredExactly(hours[..n], floor, latest, cfg, clock, c);
      GatheredMore(hours, n, floor, latest, cfg, clock);
      assert hours[..n + 1] == hours;
      assert forall i :: 0 <= i < n ==> hours[..n][i] == hours[i];
    }
  }

  /** The hours whose slots the scheduler may offer. */
  predicate OfferedHour(h: nat) { h == 0 || h == 12 || h == 24 || h == 48 || h == 72 }

  /** The candidates are the slots 0, 12, 24, 48 and 72 scaled hours after the floor that fit, all of them and
      no other; if none fits, the first slot off the peak. */
  lemma CandidatesExactly(floor: Instant, latest: Instant, cfg: Config, clock: Clock)
    ensures var candidates := LegalCandidates(floor, latest, cfg, clock);
            if exists h: nat :: OfferedHour(h) && Fits(h, floor, latest, cfg, clock)
            then forall c :: c in candidates <==>
                   exists h: nat :: OfferedHour(h) && Fits(h, floor, latest, cfg, clock) &&
                                    c == SlotAfter(h, floor, cfg, clock)
            else candidates == [AvoidPeak(cfg.peakWindows, floor)]
  {
    var hours := CandidateHours();
    assert hours[0] == 0 && hours[1] == 12 && hours[2] == 24 && hours[3] == 48 && hours[4] == 72;
    forall c ensures c in Gathered(hours, floor, latest, cfg, clock) <==>
                     exists h: nat :: OfferedHour(h) && Fits(h, floor, latest, cfg, clock) &&
                                      c == SlotAfter(h, floor, cfg, clock)
    {
      GatheredExactly(hours, floor, latest, cfg, clock, c);
    }
    var gathered := Gathered(hours, floor, latest, cfg, clock);
    if h: nat :| OfferedHour(h) && Fits(h, floor, latest, cfg, clock) {
      assert SlotAfter(h, floor, cfg, clock) in gathered;
    } else if gathered != [] {
      assert gathered[0] in gathered;
    }
  }

  /** So the bandit may pick any of them. */
  lemma BanditMayPick(h: nat, cfg: Config, floor: Instant, now: Instant, clock: Clock, insufficientFunds: bool,
                      calendar: Calendar)
    requires now <= floor && 0 <= cfg.maxScheduleWindow && OfferedHour(h)
    requires Fits(h, floor, floor + cfg.maxScheduleWindow, cfg, clock)
    ensures var slot := SlotAfter(h, floor, cfg, clock);
            SlotFrom(cfg, floor, now, clock, insufficientFunds, Some(slot), calendar) == Some(slot)
  {
    CandidatesExactly(floor, floor + cfg.maxScheduleWindow, cfg, clock);
  }

  /** The candidates respect the latest instant exactly when the first slot off the peak does. */
  lemma CandidatesFitExactly(hours: seq<nat>, floor: Instant, latest: Instant, cfg: Config, clock: Clock)
    requires EndsInTheClear(cfg.peakWindows) && hours != [] && hours[0] == 0
    ensures (forall c :: c in SlotsOrFallback(hours, floor, latest, cfg, clock) ==> c <= latest) <==>
            AvoidPeak(cfg.peakWindows, floor) <= latest
  {
    var gathered := Gathered(hours, floor, latest, cfg, clock);
    GatheredLegal(hours, floor, latest, cfg, clock);
    if AvoidPeak(cfg.peakWindows, floor) <= latest {
      GatheredFloorSlot(hours, floor, latest, cfg, clock);
    } else {
      var c := SlotsOrFallback(hours, floor, latest, cfg, clock)[0];
      assert c in SlotsOrFallback(hours, floor, latest, cfg, clock);
      assert gathered != [] ==> c in gathered;
    }
  }

  // ---- Salary days -----------------------------------------------------------------------------

  predicate SalaryNumber(day: int, calendar: Calendar) {
    SALARY_WINDOW_START_DAY <= calendar(day) <= SALARY_WINDOW_END_DAY
  }

  predicate SalaryDay(t: Instant, calendar: Calendar) {
    SalaryNumber(t / DAY, calendar)
  }

  function FirstSalaryDay(cursor: Instant, end: Instant, calendar: Calendar): (r: Option<Instant>)
    ensures r.Some? ==> cursor <= r.value <= end && SalaryDay(r.value, calendar)
    decreases end - cursor
  {
    if cursor > end then None
    else if SalaryDay(cursor, calendar) then Some(cursor)
    else FirstSalaryDay(cursor + DAY, end, calendar)
  }

  method FirstSalaryWindowDay(windowStart: Instant, windowEnd: Instant, calendar: Calendar)
    returns (r: Option<Instant>)
    ensures r == FirstSalaryDay(windowStart, windowEnd, calendar)
  {
    if windowEnd < windowStart {
      return None;
    }
    var cursor := windowStart;
    while cursor <= windowEnd
      invariant FirstSalaryDay(cursor, windowEnd, calendar) == FirstSalaryDay(windowStart, windowEnd, calendar)
    {
      if SalaryDay(cursor, calendar) {
        return Some(cursor);
      }
      cursor := cursor + DAY;
    }
    return None;
  }

  /** The search returns the first daily step that falls on a salary day, or proves there is none. */
  lemma {:induction false} SalarySearch(start: Instant, end: Instant, calendar: Calendar) returns (k: nat)
    ensures var r := FirstSalaryDay(start, end, calendar);
            && (r.Some? ==> r.value == start + k * DAY)
            && (r.None? ==> start + k * DAY > end)
    ensures forall j: nat :: j < k ==> start + j * DAY <= end && !SalaryDay(start + j * DAY, calendar)
    decreases end - start
  {
    if start > end || SalaryDay(start, calendar) {
      k := 0;
    } else {
      var rest := SalarySearch(start + DAY, end, calendar);
      k := rest + 1;
      forall j: nat | j < k ensures start + j * DAY <= end && !SalaryDay(start + j * DAY, calendar) {
        if j > 0 {
          assert start + j * DAY == start + DAY + (j - 1) * DAY;
        }
      }
    }
  }

  ghost predicate SalaryInstantIn(start: Instant, end: Instant, calendar: Calendar) {
    exists u :: start <= u <= end && SalaryDay(u, calendar)
  }

  /** The day the cursor never reaches: the window closes earlier in the day than it opened. */
  predicate LastDaySkipped(start: Instant, end: Instant) {
    end % DAY < start % DAY
  }

  /** The search misses a salary day of the window exactly when the only such day is the last one
      and the cursor steps over it; so it is complete on windows of whole days. */
  lemma SalarySearchMissesExactly(start: Instant, end: Instant, calendar: Calendar)
    requires start <= end
    ensures FirstSalaryDay(start, end, calendar).None? && SalaryInstantIn(start, end, calendar) <==>
            && LastDaySkipped(start, end)
            && SalaryNumber(end / DAY, calendar)
            && (forall d :: start / DAY <= d < end / DAY ==> !SalaryNumber(d, calendar))
  {
    var k := SalarySearch(start, end, calendar);
    var r := FirstSalaryDay(start, end, calendar);
    if r.None? {
      forall d | start / DAY <= d < end / DAY || (d == end / DAY && !LastDaySkipped(start, end))
        ensures !SalaryNumber(d, calendar)
      {
        StepDay(start, d - start / DAY);
      }
      if SalaryInstantIn(start, end, calendar) {
        var u :| start <= u <= end && SalaryDay(u, calendar);
        assert start / DAY <= u / DAY <= end / DAY;
      } else {
        assert !SalaryDay(end, calendar);
      }
    } else {
      StepDay(start, k);
      assert start / DAY <= r.value / DAY <= end / DAY;
      assert LastDaySkipped(start, end) ==> r.value / DAY < end / DAY;
    }
  }

  lemma StepDay(start: Instant, j: int)
    ensures (start + j * DAY) / DAY == start / DAY + j
  {
  }

  // ---- The schedule ----------------------------------------------------------------------------

  /** Without a bandit: the first salary day for insufficient funds, else the floor itself. */
  function FallbackTarget(floor: Instant, latest: Instant, insufficientFunds: bool, calendar: Calendar): (r: Instant)
    requires floor <= latest
    ensures floor <= r <= latest
  {
    var salary := if insufficientFunds then FirstSalaryDay(floor, latest, calendar) else None;
    if salary.Some? then salary.value else floor
  }

  /** The slot for a given floor; None is the failed assertion on an illegal suggestion. */
  function SlotFrom(cfg: Config, floor: Instant, now: Instant, clock: Clock, insufficientFunds: bool,
                    suggestion: Option<Instant>, calendar: Calendar): Option<Instant>
    requires now <= floor && 0 <= cfg.maxScheduleWindow
  {
    var latest := floor + cfg.maxScheduleWindow;
    if suggestion.Some? then
      if suggestion.value in LegalCandidates(floor, latest, cfg, clock) then suggestion else None
    else
      var target := FallbackTarget(floor, latest, insufficientFunds, calendar);
      Some(AvoidPeak(cfg.peakWindows, now + ResolveDelay(clock, target - now)))
  }

  function ScheduledAt(cfg: Config, retriesUsed: nat, previous: Option<Instant>, now: Instant, clock: Clock,
                       insufficientFunds: bool, suggestion: Option<Instant>, calendar: Calendar): Option<Instant>
    requires ValidConfig(cfg)
  {
    SlotFrom(cfg, SlotFloor(cfg, retriesUsed, previous, now), now, clock, insufficientFunds, suggestion, calendar)
  }

  method ChooseFallbackTarget(floorAt: Instant, latestAt: Instant, insufficientFunds: bool, calendar: Calendar)
    returns (target: Instant)
    requires floorAt <= latestAt
    ensures target == FallbackTarget(floorAt, latestAt, insufficientFunds, calendar)
  {
    if insufficientFunds {
      var salaryDay := FirstSalaryWindowDay(floorAt, latestAt, calendar);
      if salaryDay.Some? {
        return salaryDay.value;
      }
    }
    return floorAt;
  }

  method ChooseSlot(cfg: Config, floorAt: Instant, now: Instant, clock: Clock, insufficientFunds: bool,
                    suggestion: Option<Instant>, calendar: Calendar)
    returns (r: Option<Instant>)
    requires now <= floorAt && 0 <= cfg.maxScheduleWindow
    ensures r == SlotFrom(cfg, floorAt, now, clock, insufficientFunds, suggestion, calendar)
  {
    var latestAt := floorAt + cfg.maxScheduleWindow;
    var candidates := GenerateLegalCandidates(floorAt, latestAt, cfg, clock);
    if suggestion.Some? && candidates != [] {
      return if suggestion.value in candidates then suggestion else None;
    }
    var target := ChooseFallbackTarget(floorAt, latestAt, insufficientFunds, calendar);
    return Some(AvoidPeak(cfg.peakWindows, now + ResolveDelay(clock, target - now)));
  }

  method ComputeScheduledAt(cfg: Config, retriesUsed: nat, previous: Option<Instant>, now: Instant, clock: Clock,
                            insufficientFunds: bool, suggestion: Option<Instant>, calendar: Calendar)
    returns (r: Option<Instant>)
    requires ValidConfig(cfg)
    ensures r == ScheduledAt(cfg, retriesUsed, previous, now, clock, insufficientFunds, suggestion, calendar)
  {
    var spacingDelay := SpacingFor(cfg, retriesUsed);
    var byNotice := now + cfg.noticeLead;
    var bySpacing := if previous.Some? then previous.value + spacingDelay else now + spacingDelay;
    r := ChooseSlot(cfg, Max(byNotice, bySpacing), now, clock, insufficientFunds, suggestion, calendar);
  }

  /** With a bandit, whatever it suggests and whatever the clock: an illegal suggestion is refused, and
      a legal one respects the floor, the blackout and, if the window has room, the latest instant. */
  lemma BanditSlotLegality(cfg: Config, floor: Instant, now: Instant, clock: Clock,
                           insufficientFunds: bool, suggestion: Instant, calendar: Calendar)
    requires now <= floor && 0 <= cfg.maxScheduleWindow && EndsInTheClear(cfg.peakWindows)
    ensures var slot := SlotFrom(cfg, floor, now, clock, insufficientFunds, Some(suggestion), calendar);
            && (slot.Some? <==> suggestion in LegalCandidates(floor, floor + cfg.maxScheduleWindow, cfg, clock))
            && (slot.Some? ==>
                  && slot.value == suggestion
                  && floor <= suggestion
                  && !InPeak(cfg.peakWindows, suggestion)
                  && (LongestWindow(cfg.peakWindows) <= cfg.maxScheduleWindow ==>
                        suggestion <= floor + cfg.maxScheduleWindow))
  {
    var latest := floor + cfg.maxScheduleWindow;
    CandidatesLegal(CandidateHours(), floor, latest, cfg, clock);
    CandidatesFitExactly(CandidateHours(), floor, latest, cfg, clock);
    AvoidSkipsOnlyPeak(cfg.peakWindows, floor);
  }

  /** The k-th daily step from the floor lies in the window on a day from the 1st to the 7th. */
  predicate SalaryStep(cfg: Config, floor: Instant, calendar: Calendar, k: nat) {
    floor + k * DAY <= floor + cfg.maxScheduleWindow && 1 <= calendar((floor + k * DAY) / DAY) <= 7
  }

  /** Without a bandit the schedule aims at the first daily step on a salary day, for insufficient funds and
      if there is one, and else at the floor; it scales the way there and then avoids the peak. */
  lemma FallbackAimsExactly(cfg: Config, floor: Instant, now: Instant, clock: Clock,
                            insufficientFunds: bool, calendar: Calendar) returns (k: nat)
    requires now <= floor && 0 <= cfg.maxScheduleWindow
    ensures if insufficientFunds && exists j: nat :: SalaryStep(cfg, floor, calendar, j)
            then SalaryStep(cfg, floor, calendar, k) && forall j: nat :: j < k ==> !SalaryStep(cfg, floor, calendar, j)
            else k == 0
    ensures SlotFrom(cfg, floor, now, clock, insufficientFunds, None, calendar) ==
            Some(AvoidPeak(cfg.peakWindows, now + ResolveDelay(clock, floor + k * DAY - now)))
  {
    var latest := floor + cfg.maxScheduleWindow;
    var first := SalarySearch(floor, latest, calendar);
    forall j: nat | j < first ensures !SalaryStep(cfg, floor, calendar, j) {
      assert !SalaryDay(floor + j * DAY, calendar);
    }
    if insufficientFunds && FirstSalaryDay(floor, latest, calendar).Some? {
      k := first;
      assert SalaryStep(cfg, floor, calendar, k);
    } else {
      k := 0;
      forall j: nat | insufficientFunds ensures !SalaryStep(cfg, floor, calendar, j) {
        if j >= first {
          assert floor + j * DAY >= floor + first * DAY;
        }
      }
    }
  }

  /** The scaled target of a schedule without a bandit, before the blackout is looked at. */
  function FallbackRaw(cfg: Config, floor: Instant, now: Instant, clock: Clock,
                       insufficientFunds: bool, calendar: Calendar): Instant
    requires now <= floor && 0 <= cfg.maxScheduleWindow
  {
    now + ResolveDelay(clock, FallbackTarget(floor, floor + cfg.maxScheduleWindow, insufficientFunds, calendar) - now)
  }

  /** Without a bandit the blackout holds under any clock, and on the real clock the floor does, as does
      the latest instant up to one blackout. */
  lemma FallbackSlotLegality(cfg: Config, floor: Instant, now: Instant, clock: Clock,
                             insufficientFunds: bool, calendar: Calendar)
    requires now <= floor && 0 <= cfg.maxScheduleWindow && EndsInTheClear(cfg.peakWindows)
    ensures var slot := SlotFrom(cfg, floor, now, clock, insufficientFunds, None, calendar);
            && slot.Some?
            && !InPeak(cfg.peakWindows, slot.value)
            && (clock.RealClock? ==>
                  floor <= slot.value <= floor + cfg.maxScheduleWindow + LongestWindow(cfg.peakWindows))
  {
    var raw := FallbackRaw(cfg, floor, now, clock, insufficientFunds, calendar);
    EscapesWhenEndsClear(cfg.peakWindows, raw);
    AvoidSkipsOnlyPeak(cfg.peakWindows, raw);
  }

  /** Under any clock, a schedule made without a bandit respects the floor exactly when the scaled target
      does or only a blackout lies between the two. */
  lemma FallbackKeepsFloorExactly(cfg: Config, floor: Instant, now: Instant, clock: Clock,
                                  insufficientFunds: bool, calendar: Calendar)
    requires now <= floor && 0 <= cfg.maxScheduleWindow && EndsInTheClear(cfg.peakWindows)
    ensures var slot := SlotFrom(cfg, floor, now, clock, insufficientFunds, None, calendar);
            var raw := FallbackRaw(cfg, floor, now, clock, insufficientFunds, calendar);
            slot.Some? && (floor <= slot.value <==> forall u :: raw <= u < floor ==> InPeak(cfg.peakWindows, u))
  {
    var raw := FallbackRaw(cfg, floor, now, clock, insufficientFunds, calendar);
    AvoidReachesExactly(cfg.peakWindows, raw, floor);
  }

  /** At or after the floor, a slot respects the notice lead, and from the previous execution the listed
      spacing of the attempt, or the last of the list for attempts past it. */
  lemma FloorIsBothFloors(cfg: Config, retriesUsed: nat, previous: Option<Instant>, now: Instant, slot: Instant)
    requires ValidConfig(cfg)
    ensures var listed := |cfg.retrySpacing|;
            var spacing := if retriesUsed < listed then cfg.retrySpacing[retriesUsed] else cfg.retrySpacing[listed - 1];
            SlotFloor(cfg, retriesUsed, previous, now) <= slot <==>
              && now + cfg.noticeLead <= slot
              && (if previous.Some? then previous.value else now) + spacing <= slot
  {
  }

  /** As shipped: a day after the notice, and after the previous execution three days for the second attempt and
      seven for every later one. */
  lemma ShippedFloor(retriesUsed: nat, previous: Instant, now: Instant, slot: Instant)
    ensures ValidConfig(SHIPPED)
    ensures SlotFloor(SHIPPED, retriesUsed, Some(previous), now) <= slot <==>
            && now + DAY <= slot
            && previous + (if retriesUsed == 0 then 0 else if retriesUsed == 1 then 3 else 7) * DAY <= slot
  {
    FloorIsBothFloors(SHIPPED, retriesUsed, Some(previous), now, slot);
  }

  /** In the shipped demo profile (3600x) that never happens: without a bandit the schedule lands before
      the floor, whatever the time, attempt, previous execution and decline reason. */
  lemma DemoClockUndercutsFloor(retriesUsed: nat, previous: Option<Instant>, now: Instant, insufficientFunds: bool,
                                calendar: Calendar)
    ensures ValidConfig(SHIPPED)
    ensures var slot := ScheduledAt(SHIPPED, retriesUsed, previous, now, AcceleratedClock(3600), insufficientFunds,
                                    None, calendar);
            slot.Some? && slot.value < SlotFloor(SHIPPED, retriesUsed, previous, now)
  {
    var floor := SlotFloor(SHIPPED, retriesUsed, previous, now);
    var raw := FallbackRaw(SHIPPED, floor, now, AcceleratedClock(3600), insufficientFunds, calendar);
    DemoScalesDown(floor, now, insufficientFunds, calendar);
    ShippedWindowsEndClear();
    FallbackKeepsFloorExactly(SHIPPED, floor, now, AcceleratedClock(3600), insufficientFunds, calendar);
    AvoidSkipsOnlyPeak(SHIPPED.peakWindows, raw);
    ShippedBlackouts();
  }

  lemma DemoScalesDown(floor: Instant, now: Instant, insufficientFunds: bool, calendar: Calendar)
    requires now + 24 * HOUR <= floor
    ensures FallbackRaw(SHIPPED, floor, now, AcceleratedClock(3600), insufficientFunds, calendar) + 20 * HOUR <= floor
  {
    var target := FallbackTarget(floor, floor + 48 * HOUR, insufficientFunds, calendar);
    assert ResolveDelay(AcceleratedClock(3600), target - now) <= (target - now) / 3600 + 1;
  }

  lemma ShippedBlackouts()
    ensures LongestWindow(SHIPPED.peakWindows) == 270 * MINUTE
  {
    var ws := SHIPPED.peakWindows;
    assert |ws| == 2 && ws[1..] == [PeakWindow(1020, 1290)];
    assert LongestWindow(ws[1..]) == 270 * MINUTE by { assert ws[1..][1..] == []; }
  }
}

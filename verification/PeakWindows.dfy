/** Peak-hour avoidance (app/core/state_machine.py, `_avoid_peak_windows`). */
module PeakWindows {
  import opened Models

  predicate InWindow(w: PeakWindow, t: Instant) {
    w.start * MINUTE <= IstTime(t) < w.end * MINUTE
  }

  predicate InPeak(windows: seq<PeakWindow>, t: Instant) {
    exists i :: 0 <= i < |windows| && InWindow(windows[i], t)
  }

  /** The single pass: the first window that contains t moves it to that window's end, on the same
      Indian calendar day; no later window is looked at again. */
  function AvoidPeak(windows: seq<PeakWindow>, t: Instant): Instant {
    if windows == [] then t
    else if InWindow(windows[0], t) then t - IstTime(t) + windows[0].end * MINUTE
    else AvoidPeak(windows[1..], t)
  }

  function LongestWindow(windows: seq<PeakWindow>): (r: Duration)
    ensures 0 <= r
    ensures forall i :: 0 <= i < |windows| ==> (windows[i].end - windows[i].start) * MINUTE <= r
  {
    if windows == [] then 0
    else
      var rest, first := LongestWindow(windows[1..]), (windows[0].end - windows[0].start) * MINUTE;
      if first < rest then rest else first
  }

  /** The bound is one of the windows. */
  lemma {:induction false} LongestIsAWindow(windows: seq<PeakWindow>) returns (i: nat)
    requires LongestWindow(windows) > 0
    ensures i < |windows| && (windows[i].end - windows[i].start) * MINUTE == LongestWindow(windows)
  {
    if (windows[0].end - windows[0].start) * MINUTE == LongestWindow(windows) {
      i := 0;
    } else {
      var k := LongestIsAWindow(windows[1..]);
      i := k + 1;
    }
  }

  predicate CoversMinute(w: PeakWindow, m: ClockMinute) {
    w.start <= m < w.end
  }

  /** Some minute belongs to window i and to no window listed before it. */
  predicate Exposed(windows: seq<PeakWindow>, i: int)
    requires 0 <= i < |windows|
  {
    exists m: ClockMinute :: CoversMinute(windows[i], m) &&
      forall j :: 0 <= j < i ==> !CoversMinute(windows[j], m)
  }

  /** The configuration check: no exposed window ends inside a window. */
  predicate EndsInTheClear(windows: seq<PeakWindow>) {
    forall i, j :: 0 <= i < |windows| && 0 <= j < |windows| && Exposed(windows, i) ==>
      !CoversMinute(windows[j], windows[i].end)
  }

  ghost predicate AlwaysEscapes(windows: seq<PeakWindow>) {
    forall t :: !InPeak(windows, AvoidPeak(windows, t))
  }

  /** r is the earliest instant not before t that lies outside every window. */
  ghost predicate EarliestOffPeak(windows: seq<PeakWindow>, t: Instant, r: Instant) {
    t <= r && !InPeak(windows, r) && forall u :: t <= u < r ==> InPeak(windows, u)
  }

  lemma SameIndianDay(t: Instant, u: Instant)
    requires t - IstTime(t) <= u < t - IstTime(t) + DAY
    ensures IstTime(u) == u - (t - IstTime(t))
  {
  }

  lemma {:induction false} FirstMatch(windows: seq<PeakWindow>, t: Instant) returns (i: int)
    ensures -1 <= i < |windows|
    ensures i == -1 ==> !InPeak(windows, t) && AvoidPeak(windows, t) == t
    ensures i >= 0 ==> InWindow(windows[i], t) &&
                       AvoidPeak(windows, t) == t - IstTime(t) + windows[i].end * MINUTE
    ensures i >= 0 ==> forall j :: 0 <= j < i ==> !InWindow(windows[j], t)
  {
    if windows == [] {
      i := -1;
    } else if InWindow(windows[0], t) {
      i := 0;
    } else {
      var k := FirstMatch(windows[1..], t);
      i := if k == -1 then -1 else k + 1;
      assert forall j :: 1 <= j < |windows| ==> windows[j] == windows[1..][j - 1];
    }
  }

  /** With any list of windows at all, every instant skipped was a peak instant, and the move is no
      longer than the longest window. */
  lemma AvoidSkipsOnlyPeak(windows: seq<PeakWindow>, t: Instant)
    ensures t <= AvoidPeak(windows, t) <= t + LongestWindow(windows)
    ensures forall u :: t <= u < AvoidPeak(windows, t) ==> InPeak(windows, u)
    ensures !InPeak(windows, t) ==> AvoidPeak(windows, t) == t
  {
    var i := FirstMatch(windows, t);
    if i >= 0 {
      forall u | t <= u < AvoidPeak(windows, t) ensures InPeak(windows, u) {
        SameIndianDay(t, u);
        assert InWindow(windows[i], u);
      }
    }
  }

  /** The single pass is enough exactly for the configurations that pass the check. */
  lemma EscapesExactlyWhenEndsClear(windows: seq<PeakWindow>)
    ensures AlwaysEscapes(windows) <==> EndsInTheClear(windows)
  {
    if EndsInTheClear(windows) {
      forall t ensures !InPeak(windows, AvoidPeak(windows, t)) {
        EscapesWhenEndsClear(windows, t);
      }
    } else {
      var i, j :| 0 <= i < |windows| && 0 <= j < |windows| && Exposed(windows, i) &&
        CoversMinute(windows[j], windows[i].end);
      var t := TrappedInstant(windows, i, j);
    }
  }

  lemma TrappedInstant(windows: seq<PeakWindow>, i: int, j: int) returns (t: Instant)
    requires 0 <= i < |windows| && 0 <= j < |windows| && Exposed(windows, i)
    requires CoversMinute(windows[j], windows[i].end)
    ensures InPeak(windows, AvoidPeak(windows, t))
  {
    var m: ClockMinute :| CoversMinute(windows[i], m) &&
      forall k :: 0 <= k < i ==> !CoversMinute(windows[k], m);
    t := m * MINUTE - IST_OFFSET;
    assert IstTime(t) == m * MINUTE;
    var k := FirstMatch(windows, t);
    assert InWindow(windows[i], t);
    if 0 <= k < i {
      assert CoversMinute(windows[k], m);
    }
    var r := AvoidPeak(windows, t);
    SameIndianDay(t, r);
    assert InWindow(windows[j], r);
  }

  lemma EscapesWhenEndsClear(windows: seq<PeakWindow>, t: Instant)
    requires EndsInTheClear(windows)
    ensures !InPeak(windows, AvoidPeak(windows, t))
  {
    var i := FirstMatch(windows, t);
    if i >= 0 {
      var m: ClockMinute := IstTime(t) / MINUTE;
      assert CoversMinute(windows[i], m);
      forall j | 0 <= j < i ensures !CoversMinute(windows[j], m) {
        assert !InWindow(windows[j], t);
      }
      assert Exposed(windows, i);
      var r := AvoidPeak(windows, t);
      SameIndianDay(t, r);
      forall j | 0 <= j < |windows| ensures !InWindow(windows[j], r) {
        assert !CoversMinute(windows[j], windows[i].end);
      }
    }
  }

  /** Optimality, and with it idempotence and monotonicity. */
  lemma AvoidIsEarliest(windows: seq<PeakWindow>, t: Instant)
    requires EndsInTheClear(windows)
    ensures EarliestOffPeak(windows, t, AvoidPeak(windows, t))
    ensures AvoidPeak(windows, AvoidPeak(windows, t)) == AvoidPeak(windows, t)
  {
    AvoidSkipsOnlyPeak(windows, t);
    EscapesWhenEndsClear(windows, t);
    AvoidSkipsOnlyPeak(windows, AvoidPeak(windows, t));
  }

  /** The result reaches an instant exactly if only peak lies before it. */
  lemma AvoidReachesExactly(windows: seq<PeakWindow>, t: Instant, floor: Instant)
    requires EndsInTheClear(windows)
    ensures floor <= AvoidPeak(windows, t) <==> forall u :: t <= u < floor ==> InPeak(windows, u)
  {
    var slot := AvoidPeak(windows, t);
    AvoidIsEarliest(windows, t);
    assert !InPeak(windows, slot);
    if floor <= slot {
      assert forall u :: t <= u < slot ==> InPeak(windows, u);
    }
  }

  lemma AvoidIsMonotone(windows: seq<PeakWindow>, t: Instant, u: Instant)
    requires EndsInTheClear(windows) && t <= u
    ensures AvoidPeak(windows, t) <= AvoidPeak(windows, u)
  {
    AvoidIsEarliest(windows, t);
    AvoidIsEarliest(windows, u);
    assert !InPeak(windows, AvoidPeak(windows, u));
  }

  /** A window that opens after half past five in India lies within one UTC day. */
  lemma WindowInUtc(w: PeakWindow, t: Instant)
    requires 330 <= w.start <= w.end
    ensures InWindow(w, t) <==> (w.start - 330) * MINUTE <= t % DAY < (w.end - 330) * MINUTE
  {
    var u := t % DAY;
    assert IstTime(t) == if u + 330 * MINUTE < DAY then u + 330 * MINUTE else u + 330 * MINUTE - DAY;
  }

  /** The shipped blackout in UTC: from 04:30 to 07:30 and from 11:30 to 16:00 of every day. */
  lemma ShippedBlackoutInUtc(t: Instant)
    ensures InPeak(SHIPPED.peakWindows, t) <==>
            || 270 * MINUTE <= t % DAY < 450 * MINUTE
            || 690 * MINUTE <= t % DAY < 960 * MINUTE
  {
    var ws := SHIPPED.peakWindows;
    WindowInUtc(ws[0], t);
    WindowInUtc(ws[1], t);
    assert InPeak(ws, t) <==> InWindow(ws[0], t) || InWindow(ws[1], t);
  }

  lemma ShippedWindowsEndClear()
    ensures EndsInTheClear(SHIPPED.peakWindows)
    ensures LongestWindow(SHIPPED.peakWindows) <= SHIPPED.maxScheduleWindow
  {
    var ws := SHIPPED.peakWindows;
    assert |ws| == 2 && ws[1..] == [PeakWindow(1020, 1290)];
    assert LongestWindow(ws[1..]) == 270 * MINUTE by { assert ws[1..][1..] == []; }
  }

  /** Two overlapping windows defeat the single pass: 11:00 is moved to 13:00, inside the second. */
  lemma OverlapDefeatsSinglePass()
    ensures var ws := [PeakWindow(600, 780), PeakWindow(720, 840)];
            !EndsInTheClear(ws) &&
            exists t :: InPeak(ws, AvoidPeak(ws, t))
  {
    var ws := [PeakWindow(600, 780), PeakWindow(720, 840)];
    var t := 660 * MINUTE - IST_OFFSET;
    assert InWindow(ws[0], t);
    SameIndianDay(t, AvoidPeak(ws, t));
    assert InWindow(ws[1], AvoidPeak(ws, t));
    assert CoversMinute(ws[0], 660) && Exposed(ws, 0) && CoversMinute(ws[1], ws[0].end);
  }
}

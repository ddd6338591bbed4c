/** The verifier's answer on runs through the service: executions come from the endpoint alone. */
module ServedAgreement {
  import opened Models
  import opened PeakWindows
  import opened Slots
  import opened CaseMachine
  import opened TrailMonitor
  import opened CaseRuns
  import opened RunResults
  import opened Verifier
  import opened Agreement
  import opened EndpointRuns

  /** The duty of a call to the service: an execution through the endpoint, whenever the first decision is
      due, has to keep off the peak and both distances; the other calls have the duties of the machine's. */
  predicate LawfulCall(s: Sys, e: Event, cfg: Config)
    requires ValidConfig(cfg)
  {
    var m := Watch(s.trail, cfg);
    if e.call.Execute? then
      FirstDue(s, e.at) ==>
        && !InPeak(cfg.peakWindows, e.at) && FarFromLast(m, e.at, cfg)
        && (m.openNotice.Some? ==> e.at - m.openNotice.value >= cfg.noticeLead)
    else Lawful(s, m, e, cfg)
  }

  predicate LawfulService(s: Sys, events: seq<Event>, cfg: Config, calendar: Calendar)
    requires ValidConfig(cfg)
    decreases |events|
  {
    events == [] ||
    (LawfulCall(s, events[0], cfg) && LawfulService(Serve(s, events[0], cfg, calendar), events[1..], cfg, calendar))
  }

  // ---- The same moves, the same verdicts --------------------------------------------------------------

  lemma {:induction false} SameMovesWatched(xs: seq<AuditEntry>, ys: seq<AuditEntry>, cfg: Config)
    requires |cfg.retrySpacing| > 0 && SameMoves(xs, ys)
    ensures Watch(xs, cfg) == Watch(ys, cfg)
  {
    if xs == [] {
    } else {
      SameMovesWatched(xs[..|xs| - 1], ys[..|ys| - 1], cfg);
    }
  }

  lemma {:induction false} SameMovesReplayed(xs: seq<AuditEntry>, ys: seq<AuditEntry>)
    requires SameMoves(xs, ys)
    ensures ReplayOf(xs) == ReplayOf(ys)
  {
    if xs == [] {
    } else {
      SameMovesReplayed(xs[..|xs| - 1], ys[..|ys| - 1]);
    }
  }

  lemma SameMovesComply(rec: CaseRecord, xs: seq<AuditEntry>, ys: seq<AuditEntry>, cfg: Config)
    requires |cfg.retrySpacing| > 0 && SameMoves(xs, ys)
    ensures AllPassed(Report(rec, xs, cfg)) <==> AllPassed(Report(rec, ys, cfg))
    ensures RetrySeen(xs) <==> RetrySeen(ys)
  {
    SameMovesWatched(xs, ys, cfg);
    SameMovesReplayed(xs, ys);
    TrailTells(xs, cfg);
    TrailTells(ys, cfg);
    ReportIsExact(rec, xs, cfg);
    ReportIsExact(rec, ys, cfg);
  }

  /** Every rule about the trail is read off the monitor and the replay. */
  lemma TrailTells(trail: seq<AuditEntry>, cfg: Config)
    requires |cfg.retrySpacing| > 0
    ensures Unbroken(Watch(trail, cfg)) <==>
            !NoticeViolated(trail, cfg.noticeLead) && !SpacingViolated(trail, cfg) && !PeakViolated(trail, cfg)
    ensures Watch(trail, cfg).retrySeen <==> RetrySeen(trail)
    ensures BucketsConflict(trail) <==> ReplayOf(trail).treatment && ReplayOf(trail).control
  {
    UnbrokenMeans(trail, cfg);
    WatchMembers(trail, cfg);
    ReplayBuckets(trail);
  }

  // ---- Runs -----------------------------------------------------------------------------------------

  lemma CallMirrors(s: Sys, t: Sys, e: Event, cfg: Config)
    requires ValidConfig(cfg) && Mirrors(s, t) && NextIsReady(t)
    ensures LawfulCall(s, e, cfg) <==> Lawful(t, Watch(t.trail, cfg), Mirrored(s, e), cfg)
  {
    SameMovesWatched(s.trail, t.trail, cfg);
    if !e.call.Execute? {
      assert Mirrored(s, e) == e;
    } else {
      assert FirstDue(s, e.at) <==> Executes(t, Mirrored(s, e).call);
    }
  }

  lemma {:induction false} LawMirrors(s: Sys, t: Sys, events: seq<Event>, cfg: Config, calendar: Calendar)
    requires ValidConfig(cfg) && Mirrors(s, t) && Inv(t, Budget(cfg)) && FairService(s, events, cfg, calendar)
    ensures LawfulService(s, events, cfg, calendar) <==>
            LawfulRun(t, MirrorAll(s, events, cfg, calendar), cfg, calendar)
    decreases |events|
  {
    if events == [] {
    } else {
      var e, next := Mirrored(s, events[0]), Serve(s, events[0], cfg, calendar);
      InvMakesReady(t, Budget(cfg));
      CallMirrors(s, t, events[0], cfg);
      ServeMirrors(s, t, events[0], cfg, calendar);
      StepKeepsInv(t, e, cfg, calendar);
      LawMirrors(next, Step(t, e, cfg, calendar), events[1..], cfg, calendar);
      var mirror := MirrorAll(s, events, cfg, calendar);
      assert mirror[0] == e && mirror[1..] == MirrorAll(next, events[1..], cfg, calendar);
    }
  }

  /** Agreement over the service itself: the verifier passes a run through it exactly when every call did
      its duty and no case whose amount lies between the two ceilings was ever scheduled. */
  lemma ServedRunPassesExactly(f: NewFailure, openedAt: Instant, openClock: Clock, events: seq<Event>,
                               cfg: Config, calendar: Calendar)
    requires ValidConfig(cfg) && EndsInTheClear(cfg.peakWindows) && 1 <= cfg.maxRetries
    requires FairlyServed(f, openedAt, openClock, events, cfg, calendar)
    ensures var s := Served(f, openedAt, openClock, events, cfg, calendar);
            AllPassed(Report(s.rec, s.trail, cfg)) <==>
              && LawfulService(Open(f, cfg, openedAt, openClock), events, cfg, calendar)
              && !(BetweenCeilings(f, cfg) && RetrySeen(s.trail))
  {
    var s := Served(f, openedAt, openClock, events, cfg, calendar);
    var mirror := ServedRunsAreMirrored(f, openedAt, openClock, events, cfg, calendar);
    var t := Reached(f, openedAt, openClock, mirror, cfg, calendar);
    FairRunPassesExactly(f, openedAt, openClock, mirror, cfg, calendar);
    SameMovesComply(s.rec, s.trail, t.trail, cfg);
    var start := Open(f, cfg, openedAt, openClock);
    OpenKeepsInv(f, cfg, openedAt, openClock);
    LawMirrors(start, start, events, cfg, calendar);
  }
}

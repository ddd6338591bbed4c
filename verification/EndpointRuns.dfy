/** Runs of a case through the service: as CaseRuns, but every execution goes through the endpoint, which
    takes the first decision, commits its effect or rides on the commit already there (app/main.py). */
module EndpointRuns {
  import opened Models
  import opened Slots
  import opened CaseMachine
  import opened TrailMonitor
  import opened CaseRuns
  import opened RunResults
  import opened Reconciliation
  import opened Service

  /** The first decision on file is due. */
  predicate FirstDue(s: Sys, at: Instant) {
    s.rec.state == RetryScheduled && 1 in s.decisions && s.decisions[1].scheduledAt <= at
  }

  /** The endpoint on one case: approved or refused, the case ends executed. */
  function ExecuteFirst(s: Sys, at: Instant): Sys {
    if !FirstDue(s, at) then s
    else
      s.(rec := Pulled(s.rec, true), trail := s.trail + [AppliedEntry(s.rec.caseId, at)], log := s.log + {1})
  }

  function Serve(s: Sys, e: Event, cfg: Config, calendar: Calendar): Sys
    requires ValidConfig(cfg)
  {
    if e.call.Execute? then ExecuteFirst(s.(now := e.at), e.at) else Step(s, e, cfg, calendar)
  }

  function ServeAll(s: Sys, events: seq<Event>, cfg: Config, calendar: Calendar): Sys
    requires ValidConfig(cfg)
    decreases |events|
  {
    if events == [] then s else ServeAll(Serve(s, events[0], cfg, calendar), events[1..], cfg, calendar)
  }

  predicate FairService(s: Sys, events: seq<Event>, cfg: Config, calendar: Calendar)
    requires ValidConfig(cfg)
    decreases |events|
  {
    events == [] ||
    (Fair(s, events[0], cfg, calendar) &&
     FairService(Serve(s, events[0], cfg, calendar), events[1..], cfg, calendar))
  }

  // ---- The endpoint is the protocol's ---------------------------------------------------------------

  /** The stores hold this case: its record, its trail, its first decision and its commits. */
  ghost predicate Filed(sh: Shared, s: Sys) {
    var c := s.rec.caseId;
    && c in sh.cases && sh.cases[c] == s.rec && Trail(sh, c) == s.trail
    && AttemptsOf(sh.log, c, s.log)
    && (if 1 in s.decisions
        then s.decisions[1].attemptNumber == 1 && c in sh.pending && sh.pending[c] != []
             && sh.pending[c][0] == s.decisions[1]
        else c !in sh.pending || sh.pending[c] == [])
  }

  lemma RefusedServes(sh: Shared, s: Sys, at: Instant)
    requires Filed(sh, s) && FirstDue(s, at) && 1 in s.log
    ensures Filed(EndpointRun(sh, s.rec.caseId, false, at), ExecuteFirst(s, at))
  {
    var k: Key := (s.rec.caseId, 1);
    assert k in sh.log && HasCommit(sh.log, s.rec.caseId);
    assert s.log + {1} == s.log;
  }

  lemma ApprovedServes(sh: Shared, s: Sys, at: Instant)
    requires Filed(sh, s) && FirstDue(s, at) && 1 !in s.log
    ensures Filed(EndpointRun(sh, s.rec.caseId, false, at), ExecuteFirst(s, at))
  {
    var k: Key := (s.rec.caseId, 1);
    assert k !in sh.log;
  }

  lemma DistressServes(sh: Shared, s: Sys, at: Instant)
    requires Filed(sh, s) && s.rec.state == RetryScheduled
    ensures Filed(EndpointRun(sh, s.rec.caseId, true, at), Keep(s, AfterDistress(s.rec, at)))
  {
  }

  /** One call of the endpoint without interruption is one step of such a run, and the distress gate is
      the machine's. */
  lemma EndpointServes(sh: Shared, s: Sys, e: Event, cfg: Config, calendar: Calendar)
    requires ValidConfig(cfg) && Filed(sh, s)
    requires e.call.Execute? || (e.call.DistressBlock? && s.rec.state == RetryScheduled)
    ensures Filed(EndpointRun(sh, s.rec.caseId, e.call.DistressBlock?, e.at), Serve(s, e, cfg, calendar))
  {
    var now := s.(now := e.at);
    if e.call.DistressBlock? {
      DistressServes(sh, now, e.at);
    } else if FirstDue(s, e.at) && 1 in s.log {
      RefusedServes(sh, now, e.at);
    } else if FirstDue(s, e.at) {
      ApprovedServes(sh, now, e.at);
    }
  }

  // ---- Mirrored by a run of the machine -------------------------------------------------------------

  /** Entries that tell the monitor, the walk and the replay the same; the version and any rule that assigns
      no bucket may differ. */
  predicate SameMove(x: AuditEntry, y: AuditEntry) {
    && x.from == y.from && x.to == y.to && x.timestamp == y.timestamp && x.scheduledAt == y.scheduledAt
    && (x.rule == y.rule || (BucketNeutral(x.rule) && BucketNeutral(y.rule)))
  }

  predicate SameMoves(xs: seq<AuditEntry>, ys: seq<AuditEntry>) {
    |xs| == |ys| && forall i :: 0 <= i < |xs| ==> SameMove(xs[i], ys[i])
  }

  predicate SameDecisions(d: map<int, RetryDecision>, e: map<int, RetryDecision>) {
    d.Keys == e.Keys &&
    forall n :: n in d ==> d[n].scheduledAt == e[n].scheduledAt && d[n].attemptNumber == e[n].attemptNumber
  }

  predicate Mirrors(s: Sys, t: Sys) {
    && s.rec == t.rec && s.now == t.now
    && SameMoves(s.trail, t.trail) && SameDecisions(s.decisions, t.decisions)
    && s.log == if t.log == {} then {} else {1}
  }

  /** The machine executes its next decision where the endpoint executes the first one. */
  function Mirrored(s: Sys, e: Event): Event {
    if e.call.Execute? then Event(e.at, Execute(if FirstDue(s, e.at) then s.rec.retriesUsed + 1 else 0)) else e
  }

  /** Before an execution the machine has its next decision, uncommitted, and never one numbered 0. */
  predicate NextIsReady(t: Sys) {
    t.rec.state == RetryScheduled ==>
      t.rec.retriesUsed + 1 in t.decisions && t.rec.retriesUsed + 1 !in t.log && 0 !in t.decisions
  }

  lemma InvMakesReady(t: Sys, budget: nat)
    requires Inv(t, budget)
    ensures NextIsReady(t)
  {
  }

  lemma SameMovesAppend(xs: seq<AuditEntry>, ys: seq<AuditEntry>, x: AuditEntry, y: AuditEntry)
    requires SameMoves(xs, ys) && SameMove(x, y)
    ensures SameMoves(xs + [x], ys + [y])
  {
  }

  lemma ExecutionMirrors(s: Sys, t: Sys, n: int, at: Instant)
    requires Mirrors(s, t) && NextIsReady(t) && n == if FirstDue(s, at) then s.rec.retriesUsed + 1 else 0
    ensures Mirrors(ExecuteFirst(s, at), ExecuteAttempt(t, n, at))
  {
    var applied, executed := AppliedEntry(s.rec.caseId, at), AfterExecution(t.rec, at).entries[0];
    if FirstDue(s, at) {
      SameMovesAppend(s.trail, t.trail, applied, executed);
      assert n in t.log + {n} && s.log + {1} == {1};
    }
  }

  lemma NotifyMirrors(s: Sys, t: Sys, at: Instant, slot: Instant)
    requires Mirrors(s, t)
    ensures Mirrors(Notify(s, at, slot), Notify(t, at, slot))
  {
  }

  lemma KeepMirrors(s: Sys, t: Sys, o: Outcome)
    requires Mirrors(s, t)
    ensures Mirrors(Keep(s, o), Keep(t, o))
  {
  }

  lemma WebhookMirrors(s: Sys, t: Sys, e: Event, cfg: Config, calendar: Calendar)
    requires ValidConfig(cfg) && Mirrors(s, t) && (e.call.PaymentFailed? || e.call.PaymentSucceeded?)
    ensures Mirrors(Step(s, e, cfg, calendar), Step(t, e, cfg, calendar))
  {
    match e.call
    case PaymentFailed(business) =>
      KeepMirrors(s.(now := e.at), t.(now := e.at), AfterFailure(s.rec, business, cfg, e.at));
    case PaymentSucceeded(amount) =>
      KeepMirrors(s.(now := e.at), t.(now := e.at), AfterSuccess(s.rec, amount, e.at));
  }

  lemma NoticeMirrors(s: Sys, t: Sys, e: Event, cfg: Config, calendar: Calendar)
    requires ValidConfig(cfg) && Mirrors(s, t) && e.call.SendNotice? && Fair(s, e, cfg, calendar)
    ensures Mirrors(Step(s, e, cfg, calendar), Step(t, e, cfg, calendar))
  {
    if s.rec.state == NoticePending {
      var now := e.call.planAt;
      NotifyMirrors(s.(now := now), t.(now := now), e.at, Slot(s, e.call, cfg, calendar).value);
    }
  }

  lemma TriggerMirrors(s: Sys, t: Sys, e: Event, cfg: Config, calendar: Calendar)
    requires ValidConfig(cfg) && Mirrors(s, t)
    requires e.call.Throttle? || e.call.Release? || e.call.DistressBlock? || e.call.Resolve?
    ensures Mirrors(Step(s, e, cfg, calendar), Step(t, e, cfg, calendar))
  {
    var o := Kept(s, e, cfg, calendar);
    if o.Some? {
      KeepMirrors(s.(now := e.at), t.(now := e.at), o.value);
    }
  }

  lemma ExecuteMirrors(s: Sys, t: Sys, e: Event, cfg: Config, calendar: Calendar)
    requires ValidConfig(cfg) && Mirrors(s, t) && NextIsReady(t) && e.call.Execute?
    ensures Mirrors(Serve(s, e, cfg, calendar), Step(t, Mirrored(s, e), cfg, calendar))
  {
    StepExecutes(t, Mirrored(s, e), cfg, calendar);
    ExecutionMirrors(s.(now := e.at), t.(now := e.at), Mirrored(s, e).call.attempt, e.at);
  }

  lemma ServeMirrors(s: Sys, t: Sys, e: Event, cfg: Config, calendar: Calendar)
    requires ValidConfig(cfg) && Mirrors(s, t) && Inv(t, Budget(cfg)) && Fair(s, e, cfg, calendar)
    ensures Fair(t, Mirrored(s, e), cfg, calendar)
    ensures Mirrors(Serve(s, e, cfg, calendar), Step(t, Mirrored(s, e), cfg, calendar))
  {
    match e.call
    case PaymentFailed(_) | PaymentSucceeded(_) => WebhookMirrors(s, t, e, cfg, calendar);
    case SendNotice(_, _, _, _, _) => NoticeMirrors(s, t, e, cfg, calendar);
    case Execute(_) => InvMakesReady(t, Budget(cfg)); ExecuteMirrors(s, t, e, cfg, calendar);
    case _ => TriggerMirrors(s, t, e, cfg, calendar);
  }

  function MirrorAll(s: Sys, events: seq<Event>, cfg: Config, calendar: Calendar): (mirror: seq<Event>)
    requires ValidConfig(cfg)
    ensures |mirror| == |events|
    decreases |events|
  {
    if events == [] then []
    else [Mirrored(s, events[0])] + MirrorAll(Serve(s, events[0], cfg, calendar), events[1..], cfg, calendar)
  }

  lemma {:induction false} ServiceMirrors(s: Sys, t: Sys, events: seq<Event>, cfg: Config, calendar: Calendar)
    requires ValidConfig(cfg) && Mirrors(s, t) && Inv(t, Budget(cfg)) && FairService(s, events, cfg, calendar)
    ensures var mirror := MirrorAll(s, events, cfg, calendar);
            && FairRun(t, mirror, cfg, calendar)
            && Mirrors(ServeAll(s, events, cfg, calendar), Run(t, mirror, cfg, calendar))
    decreases |events|
  {
    if events == [] {
    } else {
      var e, next := Mirrored(s, events[0]), Serve(s, events[0], cfg, calendar);
      ServeMirrors(s, t, events[0], cfg, calendar);
      StepKeepsInv(t, e, cfg, calendar);
      ServiceMirrors(next, Step(t, e, cfg, calendar), events[1..], cfg, calendar);
      var mirror := MirrorAll(s, events, cfg, calendar);
      assert mirror[0] == e && mirror[1..] == MirrorAll(next, events[1..], cfg, calendar);
    }
  }

  /** The case after a first failure and any calls to the service. */
  function Served(f: NewFailure, openedAt: Instant, openClock: Clock, events: seq<Event>,
                  cfg: Config, calendar: Calendar): Sys
    requires ValidConfig(cfg)
  {
    ServeAll(Open(f, cfg, openedAt, openClock), events, cfg, calendar)
  }

  predicate FairlyServed(f: NewFailure, openedAt: Instant, openClock: Clock, events: seq<Event>,
                         cfg: Config, calendar: Calendar)
    requires ValidConfig(cfg)
  {
    FairService(Open(f, cfg, openedAt, openClock), events, cfg, calendar)
  }

  /** Every run through the service is mirrored by a run of the machine: the same record, the same moves in
      the trail, the same decisions; but however many executions it made, it has one commit. */
  lemma ServedRunsAreMirrored(f: NewFailure, openedAt: Instant, openClock: Clock, events: seq<Event>,
                              cfg: Config, calendar: Calendar)
    returns (mirror: seq<Event>)
    requires ValidConfig(cfg) && FairlyServed(f, openedAt, openClock, events, cfg, calendar)
    ensures mirror == MirrorAll(Open(f, cfg, openedAt, openClock), events, cfg, calendar)
    ensures FairHistory(f, openedAt, openClock, mirror, cfg, calendar)
    ensures Mirrors(Served(f, openedAt, openClock, events, cfg, calendar),
                    Reached(f, openedAt, openClock, mirror, cfg, calendar))
  {
    var s := Open(f, cfg, openedAt, openClock);
    OpenKeepsInv(f, cfg, openedAt, openClock);
    mirror := MirrorAll(s, events, cfg, calendar);
    ServiceMirrors(s, s, events, cfg, calendar);
  }

  lemma {:induction false} SameMovesCount(xs: seq<AuditEntry>, ys: seq<AuditEntry>)
    requires SameMoves(xs, ys)
    ensures CountExecutions(xs) == CountExecutions(ys)
  {
    if xs == [] {
    } else {
      SameMovesCount(xs[..|xs| - 1], ys[..|ys| - 1]);
    }
  }

  /** The commits of a served case: the first attempt once anything was executed, and never another. */
  lemma ServedCommits(f: NewFailure, openedAt: Instant, openClock: Clock, events: seq<Event>,
                      cfg: Config, calendar: Calendar)
    requires ValidConfig(cfg) && FairlyServed(f, openedAt, openClock, events, cfg, calendar)
    ensures var s := Served(f, openedAt, openClock, events, cfg, calendar);
            && s.log == (if CountExecutions(s.trail) == 0 then {} else {1})
            && CountExecutions(s.trail) <= Budget(cfg)
            && (s.rec.state == RetryScheduled ==> s.rec.retriesUsed == CountExecutions(s.trail))
  {
    var mirror := ServedRunsAreMirrored(f, openedAt, openClock, events, cfg, calendar);
    var s := Served(f, openedAt, openClock, events, cfg, calendar);
    var t := Reached(f, openedAt, openClock, mirror, cfg, calendar);
    ReachedInv(f, openedAt, openClock, mirror, cfg, calendar);
    ReplayCounts(t.trail);
    SameMovesCount(s.trail, t.trail);
    LogIsEmptyExactly(t.log, CountExecutions(t.trail));
  }

  lemma LogIsEmptyExactly(log: set<int>, e: nat)
    requires forall n :: n in log <==> 1 <= n <= e
    ensures log == {} <==> e == 0
  {
    if e == 0 {
      assert forall n :: n !in log;
    } else {
      assert 1 in log;
    }
  }

  // ---- What a restart does to a served case ---------------------------------------------------------

  /** A restart of a service that lost nothing leaves a case alone exactly when no retry of it was ever
      executed or one is awaiting its outcome; every other executed case is dragged back. The documented
      intent would leave every one alone. */
  lemma RestartDragsBackExactly(f: NewFailure, openedAt: Instant, openClock: Clock, events: seq<Event>,
                                cfg: Config, calendar: Calendar, sh: Shared, scan: seq<Effect>, now: Instant)
    requires ValidConfig(cfg) && FairlyServed(f, openedAt, openClock, events, cfg, calendar)
    requires WellFiled(sh) && IsScan(scan, sh.log)
    requires Filed(sh, Served(f, openedAt, openClock, events, cfg, calendar))
    ensures var s := Served(f, openedAt, openClock, events, cfg, calendar);
            var t := HealAll(sh, scan, now);
            && s.rec.caseId in t.cases
            && (t.cases[s.rec.caseId] == s.rec <==> CountExecutions(s.trail) == 0 || s.rec.state == RetryExecuted)
            && Healed(s.rec, s.log) == s.rec
  {
    var s := Served(f, openedAt, openClock, events, cfg, calendar);
    ServedCommits(f, openedAt, openClock, events, cfg, calendar);
    HealAllIsOrderFree(sh, scan, now);
    CommittedAttempts(sh.log, s.rec.caseId, s.log);
  }

  // ---- What the first decision does to the second retry ---------------------------------------------

  /** A second retry waits for the slot of the first, which is long past, and not for its own: it executes
      whenever the endpoint is called, and breaks the notice rule exactly if that is before the lead is over. */
  lemma SecondRetryIgnoresItsSlot(s: Sys, notice: Event, at: Instant, cfg: Config, calendar: Calendar)
    requires ValidConfig(cfg) && notice.call.SendNotice? && Fair(s, notice, cfg, calendar)
    requires s.rec.state == NoticePending && s.rec.retriesUsed >= 1
    requires 1 in s.decisions && s.decisions[1].scheduledAt <= at && !NoticeViolated(s.trail, cfg.noticeLead)
    ensures var t := Serve(Serve(s, notice, cfg, calendar), Event(at, Execute(1)), cfg, calendar);
            && t.rec.state == RetryExecuted
            && (NoticeViolated(t.trail, cfg.noticeLead) <==> at - notice.at < cfg.noticeLead)
  {
    var slot := Slot(s, notice.call, cfg, calendar).value;
    var notified := AfterNotice(s.rec, notice.at, slot);
    var trail := s.trail + notified.entries;
    var t := Serve(Serve(s, notice, cfg, calendar), Event(at, Execute(1)), cfg, calendar);
    assert t.trail == trail + [AppliedEntry(s.rec.caseId, at)];
    WatchNotice(s.trail, cfg);
    WatchMore(s.trail, notified.entries, cfg);
    WatchOne(trail, AppliedEntry(s.rec.caseId, at), cfg);
    WatchNotice(t.trail, cfg);
  }
}

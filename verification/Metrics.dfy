/** The money the dashboard reports (app/main.py), over any set of cases and everything that happened to
    each of them. */
module Metrics {
  import opened Models
  import opened Slots
  import opened CaseMachine
  import opened TrailMonitor
  import opened CaseRuns
  import opened RunResults
  import opened Reconciliation
  import opened Service
  import opened EndpointRuns
  import opened Agreement
  import opened CaseFacts
  import opened CaseAnswers

  // The three totals, and the recoveries that enter none of them.
  predicate ByAgent(rec: CaseRecord) { rec.bucket == Some(TreatmentBucket) && rec.state == Recovered }

  predicate ByHuman(rec: CaseRecord) { rec.resolutionNote == Some(RecoveredManually) }

  predicate InControl(rec: CaseRecord) {
    rec.bucket == Some(ControlBucket) && rec.controlOutcome == Some(RecoveredWithoutAgent)
  }

  predicate Naturally(rec: CaseRecord) { rec.state == RecoveredNaturally }

  predicate Unrecovered(rec: CaseRecord) {
    !ByAgent(rec) && !ByHuman(rec) && !InControl(rec) && !Naturally(rec)
  }

  function Paise(cases: seq<CaseRecord>, picks: CaseRecord -> bool): int {
    if cases == [] then 0
    else (if picks(cases[0]) then cases[0].originalAmount else 0) + Paise(cases[1..], picks)
  }

  function AllPaise(cases: seq<CaseRecord>): int {
    if cases == [] then 0 else cases[0].originalAmount + AllPaise(cases[1..])
  }

  /** The notes and outcomes on a case agree with its state. */
  predicate Coherent(rec: CaseRecord) {
    && (rec.resolutionNote.Some? <==> rec.state == ResolvedByHuman)
    && (rec.controlOutcome == Some(RecoveredWithoutAgent) <==> rec.state == ControlRecovered)
  }

  lemma WebhooksKeepCoherent(rec: CaseRecord, business: bool, amount: int, cfg: Config, at: Instant)
    requires Coherent(rec) && (rec.bucket == Some(ControlBucket) <==> ControlState(rec.state))
    ensures Coherent(AfterFailure(rec, business, cfg, at).rec)
    ensures Coherent(AfterSuccess(rec, amount, at).rec)
  {
  }

  lemma TriggersKeepCoherent(s: Sys, e: Event, cfg: Config, calendar: Calendar)
    requires ValidConfig(cfg) && Coherent(s.rec) && Kept(s, e, cfg, calendar).Some?
    requires !e.call.PaymentFailed? && !e.call.PaymentSucceeded?
    ensures Coherent(Kept(s, e, cfg, calendar).value.rec)
  {
  }

  lemma StepKeepsCoherent(s: Sys, e: Event, cfg: Config, calendar: Calendar)
    requires ValidConfig(cfg) && Fair(s, e, cfg, calendar) && Coherent(s.rec)
    requires s.rec.bucket == Some(ControlBucket) <==> ControlState(s.rec.state)
    ensures Coherent(Step(s, e, cfg, calendar).rec)
  {
    StepKeeps(s, e, cfg, calendar);
    match e.call {
      case PaymentFailed(business) => WebhooksKeepCoherent(s.rec, business, 0, cfg, e.at);
      case PaymentSucceeded(amount) => WebhooksKeepCoherent(s.rec, false, amount, cfg, e.at);
      case _ => if Kept(s, e, cfg, calendar).Some? { TriggersKeepCoherent(s, e, cfg, calendar); }
    }
  }

  lemma {:induction false} RunKeepsCoherent(s: Sys, events: seq<Event>, cfg: Config, calendar: Calendar)
    requires ValidConfig(cfg) && Inv(s, Budget(cfg)) && FairRun(s, events, cfg, calendar) && Coherent(s.rec)
    ensures Coherent(Run(s, events, cfg, calendar).rec)
    decreases |events|
  {
    if events == [] {
    } else {
      StepKeepsCoherent(s, events[0], cfg, calendar);
      StepKeepsInv(s, events[0], cfg, calendar);
      RunKeepsCoherent(Step(s, events[0], cfg, calendar), events[1..], cfg, calendar);
    }
  }

  // ---- The money that came in ---------------------------------------------------------------------

  /** A payment of the case's amount. */
  predicate Matches(rec: CaseRecord, call: Call) { call.PaymentSucceeded? && call.amount == rec.originalAmount }

  /** The money a run brings in for its case: the first payment of its amount, whatever the case makes of it. */
  function Collected(s: Sys, events: seq<Event>, cfg: Config, calendar: Calendar): int
    requires ValidConfig(cfg)
    decreases |events|
  {
    if events == [] then 0
    else if Matches(s.rec, events[0].call) then events[0].call.amount
    else Collected(Step(s, events[0], cfg, calendar), events[1..], cfg, calendar)
  }

  /** What comes in after the case was given up: no total counts it. */
  function Unclaimed(s: Sys, events: seq<Event>, cfg: Config, calendar: Calendar): int
    requires ValidConfig(cfg)
    decreases |events|
  {
    if events == [] then 0
    else if Matches(s.rec, events[0].call) then if GivenUp(s.rec) then events[0].call.amount else 0
    else Unclaimed(Step(s, events[0], cfg, calendar), events[1..], cfg, calendar)
  }

  function Due(rec: CaseRecord): int {
    if ClosedByPayment(rec) then rec.originalAmount else 0
  }

  /** No call changes a case that a payment closed or that was given up. */
  lemma {:induction false} SettledStays(s: Sys, events: seq<Event>, cfg: Config, calendar: Calendar)
    requires ValidConfig(cfg) && (ClosedByPayment(s.rec) || GivenUp(s.rec))
    ensures Run(s, events, cfg, calendar).rec == s.rec
    decreases |events|
  {
    if events == [] {
    } else {
      SettledStep(s, events[0], cfg, calendar);
      SettledStays(Step(s, events[0], cfg, calendar), events[1..], cfg, calendar);
    }
  }

  lemma SettledStep(s: Sys, e: Event, cfg: Config, calendar: Calendar)
    requires ValidConfig(cfg) && (ClosedByPayment(s.rec) || GivenUp(s.rec))
    ensures Step(s, e, cfg, calendar).rec == s.rec
  {
  }

  /** No other call closes a case. */
  lemma OnlyPaymentsClose(s: Sys, e: Event, cfg: Config, calendar: Calendar)
    requires ValidConfig(cfg) && !ClosedByPayment(s.rec) && !Matches(s.rec, e.call)
    ensures var t := Step(s, e, cfg, calendar).rec;
            !ClosedByPayment(t) && t.originalAmount == s.rec.originalAmount
  {
  }

  lemma MatchingStep(s: Sys, e: Event, cfg: Config, calendar: Calendar)
    requires ValidConfig(cfg) && Rested(s.rec) && Matches(s.rec, e.call)
    ensures PaysOff(s.rec, Step(s, e, cfg, calendar).rec)
    ensures Step(s, e, cfg, calendar).rec.originalAmount == s.rec.originalAmount
  {
    MatchingPaysOff(s.rec, e.at);
  }

  lemma {:induction false} RunCollects(s: Sys, events: seq<Event>, cfg: Config, calendar: Calendar)
    requires ValidConfig(cfg) && Inv(s, Budget(cfg)) && FairRun(s, events, cfg, calendar) && !ClosedByPayment(s.rec)
    ensures var t := Run(s, events, cfg, calendar);
            && Due(t.rec) + Unclaimed(s, events, cfg, calendar) == Collected(s, events, cfg, calendar)
            && t.rec.originalAmount == s.rec.originalAmount
    decreases |events|
  {
    if events == [] {
    } else {
      var t := Step(s, events[0], cfg, calendar);
      StepKeepsInv(s, events[0], cfg, calendar);
      TellsRested(ReplayOf(s.trail), s.rec);
      if Matches(s.rec, events[0].call) {
        MatchingStep(s, events[0], cfg, calendar);
        SettledStays(t, events[1..], cfg, calendar);
      } else {
        OnlyPaymentsClose(s, events[0], cfg, calendar);
        RunCollects(t, events[1..], cfg, calendar);
      }
    }
  }

  // ---- A portfolio --------------------------------------------------------------------------------

  /** A case, from its first failure through its calls. */
  datatype CaseHistory = CaseHistory(f: NewFailure, openedAt: Instant, openClock: Clock, events: seq<Event>)

  predicate FairCase(h: CaseHistory, cfg: Config, calendar: Calendar)
    requires ValidConfig(cfg)
  {
    FairHistory(h.f, h.openedAt, h.openClock, h.events, cfg, calendar)
  }

  function Final(h: CaseHistory, cfg: Config, calendar: Calendar): CaseRecord
    requires ValidConfig(cfg)
  {
    Reached(h.f, h.openedAt, h.openClock, h.events, cfg, calendar).rec
  }

  function CollectedFrom(h: CaseHistory, cfg: Config, calendar: Calendar): int
    requires ValidConfig(cfg)
  {
    Collected(Open(h.f, cfg, h.openedAt, h.openClock), h.events, cfg, calendar)
  }

  function UnclaimedFrom(h: CaseHistory, cfg: Config, calendar: Calendar): int
    requires ValidConfig(cfg)
  {
    Unclaimed(Open(h.f, cfg, h.openedAt, h.openClock), h.events, cfg, calendar)
  }

  /** `store.list_cases()`. */
  function Portfolio(hs: seq<CaseHistory>, cfg: Config, calendar: Calendar): (cases: seq<CaseRecord>)
    requires ValidConfig(cfg)
    ensures |cases| == |hs|
    ensures forall i :: 0 <= i < |hs| ==> cases[i] == Final(hs[i], cfg, calendar)
  {
    if hs == [] then [] else [Final(hs[0], cfg, calendar)] + Portfolio(hs[1..], cfg, calendar)
  }

  function CollectedInAll(hs: seq<CaseHistory>, cfg: Config, calendar: Calendar): int
    requires ValidConfig(cfg)
  {
    if hs == [] then 0 else CollectedFrom(hs[0], cfg, calendar) + CollectedInAll(hs[1..], cfg, calendar)
  }

  function UnclaimedInAll(hs: seq<CaseHistory>, cfg: Config, calendar: Calendar): int
    requires ValidConfig(cfg)
  {
    if hs == [] then 0 else UnclaimedFrom(hs[0], cfg, calendar) + UnclaimedInAll(hs[1..], cfg, calendar)
  }

  /** A reached case enters at most one of the four classes, and is closed by a payment exactly when it
      enters one of those that a payment fills. */
  predicate CountedOnce(rec: CaseRecord) {
    && !(ByAgent(rec) && ByHuman(rec)) && !(ByAgent(rec) && InControl(rec)) && !(ByHuman(rec) && InControl(rec))
    && (Naturally(rec) ==> !ByAgent(rec) && !ByHuman(rec) && !InControl(rec))
    && (ClosedByPayment(rec) <==> ByAgent(rec) || InControl(rec) || Naturally(rec))
  }

  lemma CoherentCountsOnce(rec: CaseRecord, r: Replay)
    requires Tells(r, rec) && Coherent(rec)
    ensures CountedOnce(rec)
  {
    assert rec.bucket.value.TreatmentBucket? || rec.bucket.value.ControlBucket?;
  }

  lemma OpenIsCoherent(f: NewFailure, cfg: Config, now: Instant, clock: Clock)
    requires ValidConfig(cfg)
    ensures Coherent(Opened(f, cfg, now, clock).rec)
  {
  }

  lemma RecoveriesAreDisjoint(h: CaseHistory, cfg: Config, calendar: Calendar)
    requires ValidConfig(cfg) && FairCase(h, cfg, calendar)
    ensures CountedOnce(Final(h, cfg, calendar)) && Coherent(Final(h, cfg, calendar))
  {
    var s := Open(h.f, cfg, h.openedAt, h.openClock);
    OpenKeepsInv(h.f, cfg, h.openedAt, h.openClock);
    OpenIsCoherent(h.f, cfg, h.openedAt, h.openClock);
    RunKeepsCoherent(s, h.events, cfg, calendar);
    RunKeepsInv(s, h.events, cfg, calendar);
    CoherentCountsOnce(Final(h, cfg, calendar), ReplayOf(Run(s, h.events, cfg, calendar).trail));
  }

  /** The first payment of a case's amount is what the case counts as recovered by payment for, or it came
      after the case was given up. */
  lemma PaymentsMatch(h: CaseHistory, cfg: Config, calendar: Calendar)
    requires ValidConfig(cfg) && FairCase(h, cfg, calendar)
    ensures CollectedFrom(h, cfg, calendar) == Due(Final(h, cfg, calendar)) + UnclaimedFrom(h, cfg, calendar)
    ensures Final(h, cfg, calendar).originalAmount == h.f.amount
  {
    OpenKeepsInv(h.f, cfg, h.openedAt, h.openClock);
    OpeningAnswersExactly(h.f, cfg, h.openedAt, h.openClock);
    OpeningIsSound(h.f, cfg, h.openedAt, h.openClock);
    RunCollects(Open(h.f, cfg, h.openedAt, h.openClock), h.events, cfg, calendar);
  }

  predicate Balances(cases: seq<CaseRecord>, collected: int, unclaimed: int) {
    && Paise(cases, ByAgent) + Paise(cases, InControl) + Paise(cases, Naturally) + unclaimed == collected
    && Paise(cases, ByAgent) + Paise(cases, ByHuman) + Paise(cases, InControl)
         + Paise(cases, Naturally) + Paise(cases, Unrecovered) == AllPaise(cases)
  }

  /** Money is conserved over every portfolio reached without reconciliation: the agent's and control's
      totals with the natural recoveries are the payments received, but for those that came after a case was
      given up; and with the human total and the unrecovered rest they are the original amounts. */
  lemma {:induction false} MoneyIsConserved(hs: seq<CaseHistory>, cfg: Config, calendar: Calendar)
    requires ValidConfig(cfg) && forall i :: 0 <= i < |hs| ==> FairCase(hs[i], cfg, calendar)
    ensures Balances(Portfolio(hs, cfg, calendar), CollectedInAll(hs, cfg, calendar), UnclaimedInAll(hs, cfg, calendar))
  {
    if hs == [] {
    } else {
      var cases := Portfolio(hs, cfg, calendar);
      assert cases[0] == Final(hs[0], cfg, calendar) && cases[1..] == Portfolio(hs[1..], cfg, calendar);
      RecoveriesAreDisjoint(hs[0], cfg, calendar);
      PaymentsMatch(hs[0], cfg, calendar);
      MoneyIsConserved(hs[1..], cfg, calendar);
      OneMoreBalances(cases, CollectedInAll(hs[1..], cfg, calendar), UnclaimedInAll(hs[1..], cfg, calendar),
                      UnclaimedFrom(hs[0], cfg, calendar));
    }
  }

  lemma OneMoreBalances(cases: seq<CaseRecord>, collected: int, unclaimed: int, more: int)
    requires cases != [] && CountedOnce(cases[0]) && Balances(cases[1..], collected, unclaimed)
    ensures Balances(cases, Due(cases[0]) + more + collected, more + unclaimed)
  {
  }

  lemma {:induction false} PaiseIsNonNegative(cases: seq<CaseRecord>, picks: CaseRecord -> bool)
    requires forall i :: 0 <= i < |cases| ==> cases[i].originalAmount > 0
    ensures 0 <= Paise(cases, picks)
  {
    if cases == [] {
    } else {
      PaiseIsNonNegative(cases[1..], picks);
    }
  }

  /** So the three reported totals never exceed the original amounts, which the constructor of RecoveryCase
      requires to be positive. */
  lemma ReportedWithinOriginal(hs: seq<CaseHistory>, cfg: Config, calendar: Calendar)
    requires ValidConfig(cfg)
    requires forall i :: 0 <= i < |hs| ==> FairCase(hs[i], cfg, calendar) && hs[i].f.amount > 0
    ensures var cases := Portfolio(hs, cfg, calendar);
            Paise(cases, ByAgent) + Paise(cases, ByHuman) + Paise(cases, InControl) <= AllPaise(cases)
  {
    var cases := Portfolio(hs, cfg, calendar);
    MoneyIsConserved(hs, cfg, calendar);
    forall i | 0 <= i < |cases| ensures cases[i].originalAmount > 0 {
      PaymentsMatch(hs[i], cfg, calendar);
    }
    PaiseIsNonNegative(cases, Naturally);
    PaiseIsNonNegative(cases, Unrecovered);
  }

  // ---- What reconciliation does to it -------------------------------------------------------------

  function ServedCase(h: CaseHistory, cfg: Config, calendar: Calendar): Sys
    requires ValidConfig(cfg)
  {
    Served(h.f, h.openedAt, h.openClock, h.events, cfg, calendar)
  }

  predicate FairlyServedCase(h: CaseHistory, cfg: Config, calendar: Calendar)
    requires ValidConfig(cfg)
  {
    FairlyServed(h.f, h.openedAt, h.openClock, h.events, cfg, calendar)
  }

  /** A case run through the service ends in a record some run of the machine ends in, so it is counted
      at most once too. */
  lemma ServedCaseIsCountedOnce(h: CaseHistory, cfg: Config, calendar: Calendar)
    requires ValidConfig(cfg) && FairlyServedCase(h, cfg, calendar)
    ensures var rec := ServedCase(h, cfg, calendar).rec;
            CountedOnce(rec) && Coherent(rec) && BucketTold(rec)
  {
    var mirror := ServedRunsAreMirrored(h.f, h.openedAt, h.openClock, h.events, cfg, calendar);
    var m := h.(events := mirror);
    RecoveriesAreDisjoint(m, cfg, calendar);
    ReachedInv(h.f, h.openedAt, h.openClock, mirror, cfg, calendar);
  }

  predicate BucketTold(rec: CaseRecord) {
    rec.bucket.Some? && (rec.bucket == Some(ControlBucket) <==> ControlState(rec.state))
  }

  lemma PulledCountsTwice(rec: CaseRecord, committed: bool, at: Instant)
    requires CountedOnce(rec) && Coherent(rec) && BucketTold(rec)
    ensures var t := AfterSuccess(Pulled(rec, committed), rec.originalAmount, at).rec;
            ByAgent(t) && ByHuman(t) <==> committed && ByHuman(rec)
  {
    assert rec.bucket.value.TreatmentBucket? || rec.bucket.value.ControlBucket?;
  }

  /** The case after a restart reconciles the stores from the commit log and a payment of its amount
      arrives. */
  function RestartedAndPaid(sh: Shared, scan: seq<Effect>, restart: Instant, rec: CaseRecord, at: Instant): CaseRecord {
    var cases := HealAll(sh, scan, restart).cases;
    AfterSuccess(if rec.caseId in cases then cases[rec.caseId] else rec, rec.originalAmount, at).rec
  }

  /** The stores hold a served case, and the scan is one of their log. */
  ghost predicate OnFile(h: CaseHistory, sh: Shared, scan: seq<Effect>, cfg: Config, calendar: Calendar)
    requires ValidConfig(cfg)
  {
    WellFiled(sh) && IsScan(scan, sh.log) && Filed(sh, ServedCase(h, cfg, calendar))
  }

  /** Reconciliation breaks the disjointness exactly for cases a human marked recovered after some retry
      was executed: they are then counted for the agent as well. */
  lemma CountedTwiceExactly(h: CaseHistory, sh: Shared, scan: seq<Effect>, restart: Instant, at: Instant,
                            cfg: Config, calendar: Calendar)
    requires ValidConfig(cfg) && FairlyServedCase(h, cfg, calendar) && OnFile(h, sh, scan, cfg, calendar)
    ensures var s := ServedCase(h, cfg, calendar);
            var t := RestartedAndPaid(sh, scan, restart, s.rec, at);
            ByAgent(t) && ByHuman(t) <==>
              CountExecutions(s.trail) > 0 && s.rec.resolutionNote == Some(RecoveredManually)
  {
    var s := ServedCase(h, cfg, calendar);
    ServedCommits(h.f, h.openedAt, h.openClock, h.events, cfg, calendar);
    ServedCaseIsCountedOnce(h, cfg, calendar);
    CommittedAttempts(sh.log, s.rec.caseId, s.log);
    RestartPulls(sh, scan, restart, s.rec);
    PulledCountsTwice(s.rec, HasCommit(sh.log, s.rec.caseId), at);
  }

  lemma RestartPulls(sh: Shared, scan: seq<Effect>, restart: Instant, rec: CaseRecord)
    requires WellFiled(sh) && IsScan(scan, sh.log) && rec.caseId in sh.cases && sh.cases[rec.caseId] == rec
    ensures var cases := HealAll(sh, scan, restart).cases;
            rec.caseId in cases && cases[rec.caseId] == Pulled(rec, HasCommit(sh.log, rec.caseId))
  {
    HealAllIsOrderFree(sh, scan, restart);
  }

  lemma ServeFour(s: Sys, a: Event, b: Event, c: Event, d: Event, cfg: Config, calendar: Calendar)
    requires ValidConfig(cfg)
    ensures ServeAll(s, [a, b, c, d], cfg, calendar) ==
            Serve(Serve(Serve(Serve(s, a, cfg, calendar), b, cfg, calendar), c, cfg, calendar), d, cfg, calendar)
    ensures FairService(s, [a, b, c, d], cfg, calendar) <==>
            && Fair(s, a, cfg, calendar)
            && Fair(Serve(s, a, cfg, calendar), b, cfg, calendar)
            && Fair(Serve(Serve(s, a, cfg, calendar), b, cfg, calendar), c, cfg, calendar)
            && Fair(Serve(Serve(Serve(s, a, cfg, calendar), b, cfg, calendar), c, cfg, calendar), d, cfg, calendar)
  {
    var s1 := Serve(s, a, cfg, calendar);
    var s2 := Serve(s1, b, cfg, calendar);
    var s3 := Serve(s2, c, cfg, calendar);
    assert [a, b, c, d][1..] == [b, c, d] && [b, c, d][1..] == [c, d] && [c, d][1..] == [d] && [d][1..] == [];
    assert ServeAll(s3, [d], cfg, calendar) == Serve(s3, d, cfg, calendar);
    assert ServeAll(s2, [c, d], cfg, calendar) == ServeAll(s3, [d], cfg, calendar);
    assert ServeAll(s1, [b, c, d], cfg, calendar) == ServeAll(s2, [c, d], cfg, calendar);
    assert FairService(s3, [d], cfg, calendar) <==> Fair(s3, d, cfg, calendar);
    assert FairService(s2, [c, d], cfg, calendar) <==>
           Fair(s2, c, cfg, calendar) && FairService(s3, [d], cfg, calendar);
    assert FairService(s1, [b, c, d], cfg, calendar) <==>
           Fair(s1, b, cfg, calendar) && FairService(s2, [c, d], cfg, calendar);
  }

  /** A retry executed, declined by the business, and resolved by a human. */
  lemma RetryResolved(s: Sys, at: Instant, cfg: Config, calendar: Calendar) returns (t: Sys, rest: seq<Event>)
    requires ValidConfig(cfg) && s.now <= at && FirstDue(s, at)
    ensures |rest| == 3 && Fair(s, rest[0], cfg, calendar)
    ensures var s1 := Serve(s, rest[0], cfg, calendar);
            var s2 := Serve(s1, rest[1], cfg, calendar);
            && Fair(s1, rest[1], cfg, calendar) && Fair(s2, rest[2], cfg, calendar)
            && t == Serve(s2, rest[2], cfg, calendar)
    ensures ByHuman(t.rec) && t.log == s.log + {1} && t.decisions == s.decisions && t.rec.caseId == s.rec.caseId
  {
    rest := [Event(at, Execute(1)), Event(at, PaymentFailed(true)), Event(at, Resolve(RecoveredManually))];
    var s1 := Serve(s, rest[0], cfg, calendar);
    assert s1.rec.state == RetryExecuted && s1.now == at && s1.log == s.log + {1};
    var s2 := Serve(s1, rest[1], cfg, calendar);
    assert s2.rec.state == Escalated && s2.now == at && s2.log == s1.log;
    t := Serve(s2, rest[2], cfg, calendar);
  }

  /** And such cases are served, whatever the configuration. */
  lemma SomeCaseIsCountedTwice(f: NewFailure, openedAt: Instant, openClock: Clock, restart: Instant, at: Instant,
                               cfg: Config, calendar: Calendar)
    returns (h: CaseHistory, sh: Shared, scan: seq<Effect>)
    requires ValidConfig(cfg) && AdmittedToRetry(f, cfg)
    ensures FairlyServedCase(h, cfg, calendar) && OnFile(h, sh, scan, cfg, calendar)
    ensures var t := RestartedAndPaid(sh, scan, restart, ServedCase(h, cfg, calendar).rec, at);
            ByAgent(t) && ByHuman(t)
  {
    var s := Open(f, cfg, openedAt, openClock);
    AdmittedOpens(f, openedAt, openClock, cfg);
    var notice := Event(openedAt, SendNotice(openedAt, RealClock, false, None, None));
    var slot := Slot(s, notice.call, cfg, calendar).value;
    NotifyFirst(s, notice, slot, cfg, calendar);
    var s1 := Serve(s, notice, cfg, calendar);
    var t, rest := RetryResolved(s1, if slot < openedAt then openedAt else slot, cfg, calendar);
    ServeFour(s, notice, rest[0], rest[1], rest[2], cfg, calendar);
    h := CaseHistory(f, openedAt, openClock, [notice, rest[0], rest[1], rest[2]]);
    assert ServedCase(h, cfg, calendar) == t;
    sh, scan := FileCase(t, openedAt);
    ServedCommits(f, openedAt, openClock, h.events, cfg, calendar);
    CountedTwiceExactly(h, sh, scan, restart, at, cfg, calendar);
  }

  lemma FileCase(t: Sys, at: Instant) returns (sh: Shared, scan: seq<Effect>)
    requires t.log == {1} && 1 in t.decisions && t.decisions[1].attemptNumber == 1
    ensures WellFiled(sh) && IsScan(scan, sh.log) && Filed(sh, t)
  {
    var c := t.rec.caseId;
    var k: Key := (c, 1);
    var effect := Effect(c, 1, RetryExecuted, at);
    sh := Shared(map[c := t.rec], map[c := t.trail], map[c := [t.decisions[1]]], map[k := effect]);
    scan := [effect];
    assert k in sh.log && sh.log[k] == effect;
  }
}

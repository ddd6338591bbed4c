/** A crash behind a commit, anything that happens afterwards, and a restart (app/main.py): what the restart
    makes of the case, against the run without the crash. */
module CrashRuns {
  import opened Models
  import opened CaseMachine
  import opened CaseRuns
  import opened Reconciliation
  import opened Slots
  import opened ExecutionProtocol
  import opened Service

  // ---- What may happen ------------------------------------------------------------------------------

  /** A call another endpoint makes to the state machine, which refuses it in some states. */
  datatype Handler =
    | OnFailure(business: bool)
    | OnSuccess(amount: int)
    | OnNotice(slot: Instant)
    | OnThrottle
    | OnRelease
    | OnDistress
    | OnResolve(note: ResolutionNote)

  function Handled(rec: CaseRecord, h: Handler, cfg: Config, at: Instant): Option<Outcome> {
    match h
    case OnFailure(business) => Some(AfterFailure(rec, business, cfg, at))
    case OnSuccess(amount) => Some(AfterSuccess(rec, amount, at))
    case OnNotice(slot) => if rec.state == NoticePending then Some(AfterNotice(rec, at, slot)) else None
    case OnThrottle => if rec.state == RetryScheduled then Some(AfterThrottle(rec, at)) else None
    case OnRelease => if rec.state == Throttled then Some(AfterRelease(rec, at)) else None
    case OnDistress => if rec.state == RetryScheduled then Some(AfterDistress(rec, at)) else None
    case OnResolve(note) => if rec.state == Escalated then Some(AfterResolution(rec, note, at)) else None
  }

  /** The handler behind a call of the machine's runs, other than an execution. */
  function HandlerOf(call: Call, slot: Instant): Handler
    requires !call.Execute?
  {
    match call
    case PaymentFailed(business) => OnFailure(business)
    case PaymentSucceeded(amount) => OnSuccess(amount)
    case SendNotice(_, _, _, _, _) => OnNotice(slot)
    case Throttle => OnThrottle
    case Release => OnRelease
    case DistressBlock => OnDistress
    case Resolve(note) => OnResolve(note)
  }

  /** The handlers answer as the calls of the machine's runs do; a notice as far as it finds a slot. */
  lemma HandlersAreCalls(s: Sys, e: Event, cfg: Config, calendar: Calendar)
    requires ValidConfig(cfg) && !e.call.Execute?
    requires e.call.SendNotice? ==> Slot(s, e.call, cfg, calendar).Some?
    ensures var slot := if e.call.SendNotice? then Slot(s, e.call, cfg, calendar).value else 0;
            Handled(s.rec, HandlerOf(e.call, slot), cfg, e.at) == Kept(s, e, cfg, calendar)
  {
  }

  /** A step of some worker, a crash included; a call handled on whatever record the world has on file; or
      a first failure. The last two leave any decisions on file. */
  datatype Happening =
    | Work(worker: WorkerId, local: Local)
    | Handle(caseId: CaseId, handler: Handler, at: Instant, pending: map<CaseId, seq<RetryDecision>>)
    | OpenCase(f: NewFailure, at: Instant, clock: Clock, pending: map<CaseId, seq<RetryDecision>>)

  function Happen(w: World, h: Happening, cfg: Config): World
    requires ValidConfig(cfg)
  {
    match h
    case Work(id, local) => Next(w, Act(id, local))
    case Handle(c, handler, at, pending) =>
      if c !in w.sh.cases then w
      else
        var o := Handled(w.sh.cases[c], handler, cfg, at);
        if o.Some? then Next(w, Stored(w.sh, o.value, pending)) else w
    case OpenCase(f, at, clock, pending) =>
      if f.caseId in w.sh.cases then w else Next(w, Stored(w.sh, Opened(f, cfg, at, clock), pending))
  }

  /** A first failure of a case not on file opens it, with its entries, and leaves the others alone. */
  lemma OpeningHappens(w: World, f: NewFailure, at: Instant, clock: Clock, pending: map<CaseId, seq<RetryDecision>>,
                       cfg: Config)
    requires ValidConfig(cfg) && f.caseId !in w.sh.cases
    ensures var sh, o := Happen(w, OpenCase(f, at, clock, pending), cfg).sh, Opened(f, cfg, at, clock);
            && sh.cases == w.sh.cases[f.caseId := o.rec] && sh.log == w.sh.log
            && Trail(sh, f.caseId) == Trail(w.sh, f.caseId) + o.entries
  {
  }

  function HappenAll(w: World, hs: seq<Happening>, cfg: Config): World
    requires ValidConfig(cfg)
    decreases |hs|
  {
    if hs == [] then w else HappenAll(Happen(w, hs[0], cfg), hs[1..], cfg)
  }

  // ---- What every happening keeps -------------------------------------------------------------------

  lemma HandledIsAdmissible(w: World, c: CaseId, h: Handler, cfg: Config, at: Instant,
                            pending: map<CaseId, seq<RetryDecision>>)
    requires WellFiled(w.sh) && c in w.sh.cases && Handled(w.sh.cases[c], h, cfg, at).Some?
    ensures Admissible(w, Stored(w.sh, Handled(w.sh.cases[c], h, cfg, at).value, pending))
  {
    var business := if h.OnFailure? then h.business else false;
    var amount := if h.OnSuccess? then h.amount else 0;
    var slot := if h.OnNotice? then h.slot else 0;
    var note := if h.OnResolve? then h.note else WrittenOff;
    HandlersAreAdmissible(w, c, business, amount, slot, note, cfg, at, Handled(w.sh.cases[c], h, cfg, at).value,
                          pending);
  }

  /** Execution stays backed by the log, the log never loses a key, and no case leaves the store. */
  ghost predicate Onward(w: World, t: World) {
    Backed(t) && Keeps(w.sh.log, t.sh.log) && w.sh.cases.Keys <= t.sh.cases.Keys
  }

  lemma ActionGoesOn(w: World, a: Action)
    requires Backed(w) && Admissible(w, a) && (a.Outside? ==> w.sh.cases.Keys <= a.cases.Keys)
    ensures Onward(w, Next(w, a))
  {
    StepStaysBacked(w, a);
    LogAfter(w, a);
    match a
    case Outside(_, _, _) =>
    case Act(id, local) => LocalKeepsCases(w.sh, WorkerOf(w, id), local);
  }

  lemma LocalKeepsCases(sh: Shared, wk: Worker, a: Local)
    ensures LocalStep(sh, wk, a).0.cases.Keys == sh.cases.Keys
  {
  }

  lemma HappeningGoesOn(w: World, h: Happening, cfg: Config)
    requires ValidConfig(cfg) && Backed(w)
    ensures Onward(w, Happen(w, h, cfg))
  {
    match h
    case Work(id, local) => ActionGoesOn(w, Act(id, local));
    case Handle(c, handler, at, pending) =>
      if c in w.sh.cases && Handled(w.sh.cases[c], handler, cfg, at).Some? {
        HandledIsAdmissible(w, c, handler, cfg, at, pending);
        ActionGoesOn(w, Stored(w.sh, Handled(w.sh.cases[c], handler, cfg, at).value, pending));
      }
    case OpenCase(f, at, clock, pending) =>
      OpeningIsAdmissible(w, f, cfg, at, clock, pending);
      ActionGoesOn(w, Stored(w.sh, Opened(f, cfg, at, clock), pending));
  }

  lemma {:induction false} HappeningsGoOn(w: World, hs: seq<Happening>, cfg: Config)
    requires ValidConfig(cfg) && Backed(w)
    ensures Onward(w, HappenAll(w, hs, cfg))
    decreases |hs|
  {
    if hs == [] {
    } else {
      HappeningGoesOn(w, hs[0], cfg);
      HappeningsGoOn(Happen(w, hs[0], cfg), hs[1..], cfg);
    }
  }

  // ---- The crash ------------------------------------------------------------------------------------

  function Crashed(w: World, id: WorkerId): World { Next(Next(w, Act(id, Commit)), Act(id, Crash)) }

  function Uncrashed(w: World, id: WorkerId, at: Instant): World {
    Next(Next(Next(w, Act(id, Commit)), Act(id, Apply)), Act(id, LogEffect(at)))
  }

  /** A case on file whose commit is in the log. */
  ghost predicate CommittedOnFile(w: World, k: Key) {
    Backed(w) && k in w.sh.log && k.0 in w.sh.cases
  }

  lemma OnwardKeepsCommitted(w: World, t: World, k: Key)
    requires CommittedOnFile(w, k) && Onward(w, t)
    ensures CommittedOnFile(t, k)
  {
  }

  lemma CommitIsOnFile(w: World, id: WorkerId, rec: CaseRecord, effect: Effect)
    requires Backed(w) && AboutToCommit(w, id, rec, effect)
    ensures CommittedOnFile(Next(w, Act(id, Commit)), KeyOf(effect))
  {
    ActionGoesOn(w, Act(id, Commit));
    LogAfter(w, Act(id, Commit));
  }

  /** The two worlds right after the crash, or none. */
  lemma CrashOrNot(w: World, id: WorkerId, rec: CaseRecord, effect: Effect, at: Instant)
    requires Backed(w) && AboutToCommit(w, id, rec, effect)
    ensures CommittedOnFile(Uncrashed(w, id, at), KeyOf(effect)) && CommittedOnFile(Crashed(w, id), KeyOf(effect))
  {
    var committed := Next(w, Act(id, Commit));
    CommitIsOnFile(w, id, rec, effect);
    ActionGoesOn(committed, Act(id, Crash));
    var applied := Next(committed, Act(id, Apply));
    ActionGoesOn(committed, Act(id, Apply));
    ActionGoesOn(applied, Act(id, LogEffect(at)));
  }

  /** A restart executes every case on file that has a commit. */
  lemma RestartExecutes(w: World, k: Key, scan: seq<Effect>, later: Instant)
    requires CommittedOnFile(w, k) && IsScan(scan, w.sh.log)
    ensures Executed(HealAll(w.sh, scan, later).cases, k.0)
  {
    HealAllIsOrderFree(w.sh, scan, later);
    assert HasCommit(w.sh.log, k.0);
  }

  /** However late the restart, and whatever happened since, with the crash (hv) and without it (hu): the
      restart of the crashed world gives the case the state it has in the uncrashed one exactly if it is
      still in RETRY_EXECUTED there. Restarted too, the uncrashed world always agrees. */
  lemma CrashHealsExactly(w: World, id: WorkerId, rec: CaseRecord, effect: Effect, at: Instant,
                          hu: seq<Happening>, hv: seq<Happening>, scanU: seq<Effect>, scanV: seq<Effect>,
                          later: Instant, cfg: Config)
    requires ValidConfig(cfg) && Backed(w) && AboutToCommit(w, id, rec, effect)
    requires IsScan(scanU, HappenAll(Uncrashed(w, id, at), hu, cfg).sh.log)
    requires IsScan(scanV, HappenAll(Crashed(w, id), hv, cfg).sh.log)
    ensures var c := rec.caseId;
            var u := HappenAll(Uncrashed(w, id, at), hu, cfg).sh;
            var v := HappenAll(Crashed(w, id), hv, cfg).sh;
            var healedU, healedV := HealAll(u, scanU, later).cases, HealAll(v, scanV, later).cases;
            && c in u.cases && c in healedU && c in healedV
            && (healedV[c].state == u.cases[c].state <==> Executed(u.cases, c))
            && healedV[c].state == healedU[c].state
  {
    var k := KeyOf(effect);
    var u, v := Uncrashed(w, id, at), Crashed(w, id);
    CrashOrNot(w, id, rec, effect, at);
    HappeningsGoOn(u, hu, cfg);
    HappeningsGoOn(v, hv, cfg);
    OnwardKeepsCommitted(u, HappenAll(u, hu, cfg), k);
    OnwardKeepsCommitted(v, HappenAll(v, hv, cfg), k);
    RestartExecutes(HappenAll(u, hu, cfg), k, scanU, later);
    RestartExecutes(HappenAll(v, hv, cfg), k, scanV, later);
  }

  // ---- Where it does not heal -----------------------------------------------------------------------

  /** The payment of a case's amount, as the webhook handles it. */
  function Payment(rec: CaseRecord, paidAt: Instant, pending: map<CaseId, seq<RetryDecision>>): Happening {
    Handle(rec.caseId, OnSuccess(rec.originalAmount), paidAt, pending)
  }

  lemma PaymentCloses(w: World, rec: CaseRecord, paidAt: Instant, pending: map<CaseId, seq<RetryDecision>>,
                      cfg: Config)
    requires ValidConfig(cfg) && rec.caseId in w.sh.cases && w.sh.cases[rec.caseId] == rec
    requires rec.bucket == Some(TreatmentBucket) && (rec.state == RetryScheduled || rec.state == RetryExecuted)
    ensures var t := Happen(w, Payment(rec, paidAt, pending), cfg);
            && t.workers == w.workers && rec.caseId in t.sh.cases
            && t.sh.cases[rec.caseId]
                 == rec.(state := if rec.state == RetryExecuted then Recovered else RecoveredNaturally)
  {
  }

  lemma PaidAfterCommit(w: World, id: WorkerId, rec: CaseRecord, effect: Effect, at: Instant, paidAt: Instant,
                        pending: map<CaseId, seq<RetryDecision>>, cfg: Config)
    requires ValidConfig(cfg) && AboutToCommit(w, id, rec, effect) && rec.bucket == Some(TreatmentBucket)
    ensures var u := Happen(Uncrashed(w, id, at), Payment(rec, paidAt, pending), cfg).sh;
            rec.caseId in u.cases && u.cases[rec.caseId] == rec.(state := Recovered)
    ensures var v := Happen(Crashed(w, id), Payment(rec, paidAt, pending), cfg).sh;
            rec.caseId in v.cases && v.cases[rec.caseId] == rec.(state := RecoveredNaturally)
  {
    var c := rec.caseId;
    var u, v := Uncrashed(w, id, at), Crashed(w, id);
    assert c in u.sh.cases && u.sh.cases[c] == rec.(state := RetryExecuted);
    assert c in v.sh.cases && v.sh.cases[c] == rec;
    PaymentCloses(u, rec.(state := RetryExecuted), paidAt, pending, cfg);
    PaymentCloses(v, rec, paidAt, pending, cfg);
  }

  /** The failing instance: a payment of the case's amount arrives after the crash and before the restart.
      Without the crash the case is RECOVERED by it; with the crash it is closed too, and the restart opens
      it again in RETRY_EXECUTED. */
  lemma RestartReopensPaidCase(w: World, id: WorkerId, rec: CaseRecord, effect: Effect, at: Instant, paidAt: Instant,
                               pending: map<CaseId, seq<RetryDecision>>, scan: seq<Effect>, later: Instant,
                               cfg: Config)
    requires ValidConfig(cfg) && Backed(w) && AboutToCommit(w, id, rec, effect)
    requires rec.bucket == Some(TreatmentBucket)
    requires IsScan(scan, Happen(Crashed(w, id), Payment(rec, paidAt, pending), cfg).sh.log)
    ensures var c := rec.caseId;
            var u := Happen(Uncrashed(w, id, at), Payment(rec, paidAt, pending), cfg).sh.cases;
            var v := Happen(Crashed(w, id), Payment(rec, paidAt, pending), cfg).sh;
            var healed := HealAll(v, scan, later).cases;
            && c in u && u[c].state == Recovered
            && c in v.cases && v.cases[c].state == RecoveredNaturally
            && c in healed && healed[c].state == RetryExecuted
  {
    PaidAfterCommit(w, id, rec, effect, at, paidAt, pending, cfg);
    CrashOrNot(w, id, rec, effect, at);
    var v, paid := Crashed(w, id), Payment(rec, paidAt, pending);
    HappeningGoesOn(v, paid, cfg);
    OnwardKeepsCommitted(v, Happen(v, paid, cfg), KeyOf(effect));
    RestartExecutes(Happen(v, paid, cfg), KeyOf(effect), scan, later);
  }

  // ---- The same loss without a crash ----------------------------------------------------------------

  /** What the winner means to do to the record on file: execute it if it is still scheduled. */
  function Advanced(rec: CaseRecord): CaseRecord {
    if rec.state == RetryScheduled then rec.(state := RetryExecuted) else rec
  }

  /** The winner writes its copy back, executed. That is the record on file, executed, exactly if the two
      still agree in everything but the state; and it is what is meant exactly if the record has not
      changed at all, or was executed in the meantime and not otherwise changed. */
  lemma ApplyOverwritesExactly(sh: Shared, rec: CaseRecord, effect: Effect)
    requires rec.state == RetryScheduled && effect.toState == RetryExecuted && rec.caseId in sh.cases
    ensures var c := rec.caseId;
            var t := ApplyStep(sh, rec, effect).0;
            && c in t.cases && t.cases[c] == rec.(state := RetryExecuted)
            && (t.cases[c] == sh.cases[c].(state := RetryExecuted) <==> sh.cases[c] == rec.(state := sh.cases[c].state))
            && (t.cases[c] == Advanced(sh.cases[c]) <==>
                  sh.cases[c] == rec || sh.cases[c] == rec.(state := RetryExecuted))
  {
  }

  /** A payment that closes the case between the winner's read and its write is lost: through the endpoint,
      from any store with the first decision of a scheduled treatment case due and uncommitted. */
  lemma ApplyLosesPayment(w: World, id: WorkerId, c: CaseId, at: Instant, paidAt: Instant,
                          pending: map<CaseId, seq<RetryDecision>>, cfg: Config)
    requires ValidConfig(cfg) && FirstPendingDue(w, id, c, at) && w.sh.cases[c].bucket == Some(TreatmentBucket)
    requires KeyOf(FirstEffect(w.sh, c, at)) !in w.sh.log
    ensures var won := RunWorld(w, Endpoint(id, c, at));
            var paid := Happen(won, Payment(w.sh.cases[c], paidAt, pending), cfg);
            var applied := Next(paid, Act(id, Apply));
            && c in paid.sh.cases && paid.sh.cases[c].state == RecoveredNaturally
            && c in applied.sh.cases && applied.sh.cases[c] == w.sh.cases[c].(state := RetryExecuted)
  {
    EndpointWinsExactly(w, id, c, at);
    var rec, won := w.sh.cases[c], RunWorld(w, Endpoint(id, c, at));
    var paid := Happen(won, Payment(rec, paidAt, pending), cfg);
    PaymentCloses(won, rec, paidAt, pending, cfg);
    assert WorkerOf(paid, id) == Won(rec, FirstEffect(w.sh, c, at));
  }
}

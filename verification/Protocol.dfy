/** The exactly-once protocol of `execute_retry` (app/main.py): any number of workers, each with its own
    stale copy of the case, race on the write-once commit log; they may crash at any point, and webhooks
    write the case store under them. */
module ExecutionProtocol {
  import opened Models
  import opened CaseMachine
  import opened Reconciliation
  import opened TrailMonitor

  type WorkerId = nat

  /** Where a worker stands in the endpoint, with what it has read so far. */
  datatype Worker =
    | Idle
    | HasCase(rec: CaseRecord)
    | Picked(rec: CaseRecord, decision: RetryDecision)
    | Ready(rec: CaseRecord, effect: Effect)
    | Won(rec: CaseRecord, effect: Effect)
    | Applied(caseId: CaseId, effect: Effect)
    | Lost(caseId: CaseId)

  datatype Local =
    | Begin(caseId: CaseId)
    | Distress(at: Instant)
    | Pick
    | CheckDue(at: Instant)
    | Commit
    | Apply
    | LogEffect(at: Instant)
    | Reconcile(at: Instant)
    | Crash

  /** What a worker's step leaves: the shared stores and the worker. */
  type Stepped = (Shared, Worker)

  function BeginStep(sh: Shared, c: CaseId): Stepped {
    if c in sh.cases && sh.cases[c].state == RetryScheduled then (sh, HasCase(sh.cases[c])) else (sh, Idle)
  }

  /** The distress gate writes the worker's copy back as escalated. */
  function DistressStep(sh: Shared, rec: CaseRecord, at: Instant): Stepped {
    if rec.caseId !in sh.cases then (sh, Idle)
    else
      (sh.(cases := sh.cases[rec.caseId := AfterDistress(rec, at).rec],
           trails := sh.trails[rec.caseId := Trail(sh, rec.caseId) + AfterDistress(rec, at).entries]), Idle)
  }

  /** The decision taken is the first pending one. */
  function PickStep(sh: Shared, rec: CaseRecord): Stepped {
    if rec.caseId in sh.pending && sh.pending[rec.caseId] != [] then (sh, Picked(rec, sh.pending[rec.caseId][0]))
    else (sh, Idle)
  }

  function DueStep(sh: Shared, rec: CaseRecord, d: RetryDecision, at: Instant): Stepped {
    if at < d.scheduledAt then (sh, Idle)
    else (sh, Ready(rec, Effect(rec.caseId, d.attemptNumber, RetryExecuted, at)))
  }

  function CommitStep(sh: Shared, rec: CaseRecord, effect: Effect): Stepped {
    if KeyOf(effect) in sh.log then (sh, Lost(rec.caseId))
    else (sh.(log := sh.log[KeyOf(effect) := effect]), Won(rec, effect))
  }

  /** The two writes of `apply_effect` by the winner: the record, then the audit entry. */
  function ApplyStep(sh: Shared, rec: CaseRecord, effect: Effect): Stepped {
    if rec.state == effect.toState || rec.caseId !in sh.cases then (sh, Idle)
    else (sh.(cases := sh.cases[rec.caseId := rec.(state := effect.toState)]), Applied(rec.caseId, effect))
  }

  function LogStep(sh: Shared, c: CaseId, at: Instant): Stepped {
    (sh.(trails := sh.trails[c := Trail(sh, c) + [AppliedEntry(c, at)]]), Idle)
  }

  /** One step of one worker. A step that is not its turn does nothing. */
  function LocalStep(sh: Shared, w: Worker, a: Local): Stepped {
    match a
    case Crash => (sh, Idle)
    case Begin(c) => if w.Idle? then BeginStep(sh, c) else (sh, w)
    case Distress(at) => if w.HasCase? then DistressStep(sh, w.rec, at) else (sh, w)
    case Pick => if w.HasCase? then PickStep(sh, w.rec) else (sh, w)
    case CheckDue(at) => if w.Picked? then DueStep(sh, w.rec, w.decision, at) else (sh, w)
    case Commit => if w.Ready? then CommitStep(sh, w.rec, w.effect) else (sh, w)
    case Apply => if w.Won? then ApplyStep(sh, w.rec, w.effect) else (sh, w)
    case LogEffect(at) => if w.Applied? then LogStep(sh, w.caseId, at) else (sh, w)
    case Reconcile(at) => if w.Lost? then (PullCase(sh, w.caseId, at), Idle) else (sh, w)
  }

  /** The answer of the commit backend to one worker. */
  datatype Attempt = Attempt(worker: WorkerId, key: Key, won: bool)

  datatype World = World(sh: Shared, workers: map<WorkerId, Worker>, attempts: seq<Attempt>)

  datatype Action =
    | Act(worker: WorkerId, local: Local)
    | Outside(cases: map<CaseId, CaseRecord>, trails: map<CaseId, seq<AuditEntry>>,
              pending: map<CaseId, seq<RetryDecision>>)

  function WorkerOf(w: World, id: WorkerId): Worker {
    if id in w.workers then w.workers[id] else Idle
  }

  function Next(w: World, a: Action): World {
    match a
    case Act(id, local) =>
      var before := WorkerOf(w, id);
      var (sh, after) := LocalStep(w.sh, before, local);
      World(sh, w.workers[id := after],
            if before.Ready? && local.Commit? then
              w.attempts + [Attempt(id, KeyOf(before.effect), KeyOf(before.effect) !in w.sh.log)]
            else w.attempts)
    case Outside(cases, trails, pending) =>
      w.(sh := w.sh.(cases := cases, trails := trails, pending := pending))
  }

  function RunWorld(w: World, actions: seq<Action>): World
    decreases |actions|
  {
    if actions == [] then w else RunWorld(Next(w, actions[0]), actions[1..])
  }

  lemma {:induction false} RunAppend(w: World, first: seq<Action>, second: seq<Action>)
    ensures RunWorld(w, first + second) == RunWorld(RunWorld(w, first), second)
    decreases |first|
  {
    if first == [] {
      assert first + second == second;
    } else {
      assert (first + second)[0] == first[0] && (first + second)[1..] == first[1..] + second;
      RunAppend(Next(w, first[0]), first[1..], second);
    }
  }

  lemma RunTwo(w: World, a: Action, b: Action)
    ensures RunWorld(w, [a, b]) == Next(Next(w, a), b)
  {
    assert [a, b] == [a] + [b] && [a][1..] == [] && [b][1..] == [];
    RunAppend(w, [a], [b]);
    assert RunWorld(Next(w, a), [b]) == RunWorld(Next(Next(w, a), b), []);
  }

  lemma RunThree(w: World, a: Action, b: Action, c: Action)
    ensures RunWorld(w, [a, b, c]) == Next(Next(Next(w, a), b), c)
  {
    assert [a, b, c][1..] == [b, c];
    RunTwo(Next(w, a), b, c);
  }

  // ---- Exactly once -------------------------------------------------------------------------------

  predicate FirstForKey(attempts: seq<Attempt>, i: nat)
    requires i < |attempts|
  {
    forall j :: 0 <= j < i ==> attempts[j].key != attempts[i].key
  }

  function Wins(attempts: seq<Attempt>): nat {
    if attempts == [] then 0
    else Wins(attempts[..|attempts| - 1]) + (if attempts[|attempts| - 1].won then 1 else 0)
  }

  predicate Asked(attempts: seq<Attempt>, k: Key) {
    exists i :: 0 <= i < |attempts| && attempts[i].key == k
  }

  /** The log and the history of answers tell the same story. */
  ghost predicate Settled(log: map<Key, Effect>, attempts: seq<Attempt>) {
    WonByFirst(attempts) && LoggedAsAsked(log, attempts) && |log| == Wins(attempts)
  }

  predicate WonByFirst(attempts: seq<Attempt>) {
    forall i :: 0 <= i < |attempts| ==> (attempts[i].won <==> FirstForKey(attempts, i))
  }

  ghost predicate LoggedAsAsked(log: map<Key, Effect>, attempts: seq<Attempt>) {
    forall k :: k in log <==> Asked(attempts, k)
  }

  predicate Keeps(before: map<Key, Effect>, after: map<Key, Effect>) {
    forall k :: k in before ==> k in after && after[k] == before[k]
  }

  lemma AnswerIsFirst(attempts: seq<Attempt>, last: Attempt)
    requires WonByFirst(attempts) && (last.won <==> !Asked(attempts, last.key))
    ensures WonByFirst(attempts + [last])
  {
    var longer := attempts + [last];
    assert forall j :: 0 <= j < |attempts| ==> longer[j] == attempts[j];
    forall i | 0 <= i < |attempts| ensures FirstForKey(longer, i) <==> FirstForKey(attempts, i) {
    }
    assert FirstForKey(longer, |attempts|) <==> !Asked(attempts, last.key);
  }

  lemma AnswerIsAsked(attempts: seq<Attempt>, last: Attempt, k: Key)
    ensures Asked(attempts + [last], k) <==> Asked(attempts, k) || k == last.key
  {
    var longer := attempts + [last];
    assert longer[|attempts|] == last;
    if Asked(attempts, k) {
      var i :| 0 <= i < |attempts| && attempts[i].key == k;
      assert longer[i].key == k;
    }
  }

  lemma AnswerIsLogged(log: map<Key, Effect>, grown: map<Key, Effect>, attempts: seq<Attempt>, last: Attempt)
    requires LoggedAsAsked(log, attempts) && grown.Keys == log.Keys + {last.key}
    ensures LoggedAsAsked(grown, attempts + [last])
  {
    forall j ensures j in grown <==> Asked(attempts + [last], j) {
      AnswerIsAsked(attempts, last, j);
      assert j in log <==> Asked(attempts, j);
      assert j in grown.Keys <==> j in log.Keys + {last.key};
    }
  }

  lemma AnswerWins(attempts: seq<Attempt>, last: Attempt)
    ensures Wins(attempts + [last]) == Wins(attempts) + (if last.won then 1 else 0)
  {
    assert (attempts + [last])[..|attempts|] == attempts;
  }

  /** One more answer. */
  lemma AnswerSettles(log: map<Key, Effect>, grown: map<Key, Effect>, attempts: seq<Attempt>, last: Attempt)
    requires Settled(log, attempts) && (last.won <==> last.key !in log)
    requires grown.Keys == log.Keys + {last.key} && |grown| == |log| + (if last.won then 1 else 0)
    ensures Settled(grown, attempts + [last])
  {
    assert last.key in log <==> Asked(attempts, last.key);
    AnswerIsFirst(attempts, last);
    AnswerIsLogged(log, grown, attempts, last);
    AnswerWins(attempts, last);
  }

  predicate Answers(w: World, a: Action) {
    a.Act? && a.local.Commit? && WorkerOf(w, a.worker).Ready?
  }

  lemma LogAfter(w: World, a: Action)
    ensures var t := Next(w, a);
            if Answers(w, a) then
              var effect := WorkerOf(w, a.worker).effect;
              var k := KeyOf(effect);
              && t.sh.log == (if k in w.sh.log then w.sh.log else w.sh.log[k := effect])
              && t.attempts == w.attempts + [Attempt(a.worker, k, k !in w.sh.log)]
            else t.sh.log == w.sh.log && t.attempts == w.attempts
  {
  }

  lemma StepSettles(w: World, a: Action)
    requires Settled(w.sh.log, w.attempts)
    ensures var t := Next(w, a);
            Settled(t.sh.log, t.attempts) && Keeps(w.sh.log, t.sh.log)
  {
    LogAfter(w, a);
    if Answers(w, a) {
      var k := KeyOf(WorkerOf(w, a.worker).effect);
      var last := Attempt(a.worker, k, k !in w.sh.log);
      assert last.won ==> |Next(w, a).sh.log| == |w.sh.log| + 1;
      AnswerSettles(w.sh.log, Next(w, a).sh.log, w.attempts, last);
    }
  }

  lemma {:induction false} RunSettles(w: World, actions: seq<Action>)
    requires Settled(w.sh.log, w.attempts)
    ensures var t := RunWorld(w, actions);
            Settled(t.sh.log, t.attempts) && Keeps(w.sh.log, t.sh.log)
    decreases |actions|
  {
    if actions == [] {
    } else {
      var next := Next(w, actions[0]);
      StepSettles(w, actions[0]);
      RunSettles(next, actions[1..]);
    }
  }

  function Initial(cases: map<CaseId, CaseRecord>, trails: map<CaseId, seq<AuditEntry>>,
                   pending: map<CaseId, seq<RetryDecision>>): World {
    World(Shared(cases, trails, pending, map[]), map[], [])
  }

  /** Over every interleaving of any number of workers, crashes and webhooks: an attempt is approved
      exactly when it is the first for its (case, attempt); so no two are, every key asked for has its
      winner, and the winners are as many as the log entries. */
  lemma ExactlyOnce(cases: map<CaseId, CaseRecord>, trails: map<CaseId, seq<AuditEntry>>,
                    pending: map<CaseId, seq<RetryDecision>>, actions: seq<Action>)
    ensures var w := RunWorld(Initial(cases, trails, pending), actions);
            && (forall i :: 0 <= i < |w.attempts| ==> (w.attempts[i].won <==> FirstForKey(w.attempts, i)))
            && (forall i, j :: 0 <= i < j < |w.attempts| && w.attempts[i].key == w.attempts[j].key ==>
                  !w.attempts[j].won)
            && (forall k :: k in w.sh.log <==> Asked(w.attempts, k))
            && Wins(w.attempts) == |w.sh.log|
  {
    var w0 := Initial(cases, trails, pending);
    assert Settled(w0.sh.log, w0.attempts);
    RunSettles(w0, actions);
  }

  /** A log entry never changes once written. */
  lemma LogNeverChanges(cases: map<CaseId, CaseRecord>, trails: map<CaseId, seq<AuditEntry>>,
                        pending: map<CaseId, seq<RetryDecision>>, before: seq<Action>, after: seq<Action>)
    ensures var w := RunWorld(Initial(cases, trails, pending), before);
            Keeps(w.sh.log, RunWorld(w, after).sh.log)
  {
    RunSettles(Initial(cases, trails, pending), before);
    RunSettles(RunWorld(Initial(cases, trails, pending), before), after);
  }

  // ---- No execution without approval --------------------------------------------------------------

  /** Whatever stands in the store as executed has a commit behind it. */
  ghost predicate StoreBacked(sh: Shared) {
    && WellFiled(sh)
    && (forall c :: c in sh.cases && sh.cases[c].state == RetryExecuted ==> HasCommit(sh.log, c))
    && (forall c :: c in sh.trails && ShowsExecution(sh.trails[c]) ==> HasCommit(sh.log, c))
  }

  predicate ShowsExecution(trail: seq<AuditEntry>) {
    exists i :: 0 <= i < |trail| && trail[i].to == RetryExecuted
  }

  /** A worker's effect is for the case it copied, and a winner's case is in the log. */
  predicate WorkerBacked(log: map<Key, Effect>, wk: Worker) {
    match wk
    case Ready(rec, effect) => effect.caseId == rec.caseId && effect.toState == RetryExecuted
    case Won(rec, effect) =>
      effect.caseId == rec.caseId && effect.toState == RetryExecuted && HasCommit(log, rec.caseId)
    case Applied(c, effect) => effect.caseId == c && HasCommit(log, c)
    case Lost(c) => HasCommit(log, c)
    case _ => true
  }

  ghost predicate Backed(w: World) {
    && StoreBacked(w.sh)
    && forall id :: id in w.workers ==> WorkerBacked(w.sh.log, w.workers[id])
  }

  /** The audit entries of `apply_effect`. */
  function CountApplied(trail: seq<AuditEntry>): nat {
    if trail == [] then 0
    else
      var n := |trail| - 1;
      CountApplied(trail[..n]) + (if trail[n].rule == CommitEffectApplied then 1 else 0)
  }

  /** Entries no `apply_effect` wrote, none landing on RETRY_EXECUTED unless the case is there. */
  predicate ForeignEntries(entries: seq<AuditEntry>, executed: bool) {
    && (forall i :: 0 <= i < |entries| ==> entries[i].rule != CommitEffectApplied)
    && (ShowsExecution(entries) ==> executed)
  }

  predicate Executed(cases: map<CaseId, CaseRecord>, c: CaseId) {
    c in cases && cases[c].state == RetryExecuted
  }

  /** What the webhooks and the other endpoints may do to the stores: they file records under their own
      id, append to trails, and never put a case into RETRY_EXECUTED nor log an entry landing there unless
      it is there. */
  predicate WebhookLike(sh: Shared, cases: map<CaseId, CaseRecord>, trails: map<CaseId, seq<AuditEntry>>) {
    && (forall c :: c in cases ==> cases[c].caseId == c)
    && (forall c :: c in cases && cases[c].state == RetryExecuted ==> Executed(sh.cases, c))
    && sh.trails.Keys <= trails.Keys
    && (forall c :: c in trails ==>
          && Trail(sh, c) <= trails[c]
          && Own(trails[c][|Trail(sh, c)|..], c)
          && ForeignEntries(trails[c][|Trail(sh, c)|..], Executed(sh.cases, c)))
  }

  predicate Admissible(w: World, a: Action) {
    a.Outside? ==> WebhookLike(w.sh, a.cases, a.trails)
  }

  predicate AdmissibleRun(w: World, actions: seq<Action>)
    decreases |actions|
  {
    actions == [] || (Admissible(w, actions[0]) && AdmissibleRun(Next(w, actions[0]), actions[1..]))
  }

  /** No handler of the state machine but an execution leads to RETRY_EXECUTED or writes a commit's entry. */
  predicate HandledOutcome(rec: CaseRecord, o: Outcome) {
    && o.rec.caseId == rec.caseId && Own(o.entries, rec.caseId)
    && (o.rec.state == RetryExecuted ==> rec.state == RetryExecuted)
    && ForeignEntries(o.entries, rec.state == RetryExecuted)
  }

  lemma HandlersNeverExecute(rec: CaseRecord, business: bool, amount: int, slot: Instant, note: ResolutionNote,
                             cfg: Config, at: Instant, o: Outcome)
    requires o in {AfterFailure(rec, business, cfg, at), AfterSuccess(rec, amount, at), AfterNotice(rec, at, slot),
                   AfterThrottle(rec, at), AfterRelease(rec, at), AfterDistress(rec, at),
                   AfterResolution(rec, note, at)}
    ensures HandledOutcome(rec, o)
  {
  }

  /** Storing what a handler left, with any decisions. */
  function Stored(sh: Shared, o: Outcome, pending: map<CaseId, seq<RetryDecision>>): Action {
    var c := o.rec.caseId;
    Outside(sh.cases[c := o.rec], sh.trails[c := Trail(sh, c) + o.entries], pending)
  }

  lemma OutcomeIsAdmissible(w: World, before: CaseRecord, o: Outcome, pending: map<CaseId, seq<RetryDecision>>)
    requires forall c :: c in w.sh.cases ==> w.sh.cases[c].caseId == c
    requires HandledOutcome(before, o) && (before.state == RetryExecuted ==> Executed(w.sh.cases, before.caseId))
    ensures Admissible(w, Stored(w.sh, o, pending))
  {
    var c := o.rec.caseId;
    var longer := Trail(w.sh, c) + o.entries;
    assert longer[|Trail(w.sh, c)|..] == o.entries;
    forall d | d in w.sh.trails && d != c
      ensures ForeignEntries(w.sh.trails[d][|Trail(w.sh, d)|..], Executed(w.sh.cases, d))
      ensures Own(w.sh.trails[d][|Trail(w.sh, d)|..], d)
    {
      assert w.sh.trails[d][|Trail(w.sh, d)|..] == [];
    }
  }

  /** So every handler working on the record on file takes an admissible step between the workers', and so
      does the handler that opens a case. */
  lemma HandlersAreAdmissible(w: World, c: CaseId, business: bool, amount: int, slot: Instant, note: ResolutionNote,
                              cfg: Config, at: Instant, o: Outcome, pending: map<CaseId, seq<RetryDecision>>)
    requires forall d :: d in w.sh.cases ==> w.sh.cases[d].caseId == d
    requires c in w.sh.cases
    requires var rec := w.sh.cases[c];
             o in {AfterFailure(rec, business, cfg, at), AfterSuccess(rec, amount, at), AfterNotice(rec, at, slot),
                   AfterThrottle(rec, at), AfterRelease(rec, at), AfterDistress(rec, at),
                   AfterResolution(rec, note, at)}
    ensures Admissible(w, Stored(w.sh, o, pending))
  {
    HandlersNeverExecute(w.sh.cases[c], business, amount, slot, note, cfg, at, o);
    OutcomeIsAdmissible(w, w.sh.cases[c], o, pending);
  }

  lemma OpeningIsAdmissible(w: World, f: NewFailure, cfg: Config, at: Instant, clock: Clock,
                            pending: map<CaseId, seq<RetryDecision>>)
    requires ValidConfig(cfg) && forall d :: d in w.sh.cases ==> w.sh.cases[d].caseId == d
    ensures Admissible(w, Stored(w.sh, Opened(f, cfg, at, clock), pending))
  {
    OutcomeIsAdmissible(w, Blank(f, at), Opened(f, cfg, at, clock), pending);
  }

  lemma LogGrowthKeepsCommits(log: map<Key, Effect>, k: Key, e: Effect)
    ensures forall c :: HasCommit(log, c) ==> HasCommit(log[k := e], c)
    ensures HasCommit(log[k := e], k.0)
  {
    var grown := log[k := e];
    assert k in grown;
    forall c | HasCommit(log, c) ensures HasCommit(grown, c) {
      var j :| j in log && j.0 == c;
      assert j in grown;
    }
  }

  lemma AppendShows(trail: seq<AuditEntry>, more: seq<AuditEntry>)
    ensures ShowsExecution(trail + more) <==> ShowsExecution(trail) || ShowsExecution(more)
  {
    var longer := trail + more;
    if ShowsExecution(trail) {
      var i :| 0 <= i < |trail| && trail[i].to == RetryExecuted;
      assert longer[i].to == RetryExecuted;
    }
    if ShowsExecution(more) {
      var i :| 0 <= i < |more| && more[i].to == RetryExecuted;
      assert longer[|trail| + i].to == RetryExecuted;
    }
  }

  lemma ApplyStaysBacked(sh: Shared, rec: CaseRecord, effect: Effect)
    requires StoreBacked(sh) && WorkerBacked(sh.log, Won(rec, effect))
    ensures StoreBacked(ApplyStep(sh, rec, effect).0)
  {
  }

  lemma LogStaysBacked(sh: Shared, c: CaseId, at: Instant)
    requires StoreBacked(sh) && HasCommit(sh.log, c)
    ensures StoreBacked(LogStep(sh, c, at).0)
  {
  }

  lemma PullStaysBacked(sh: Shared, c: CaseId, at: Instant)
    requires StoreBacked(sh)
    ensures StoreBacked(PullCase(sh, c, at))
  {
  }

  lemma DistressStaysBacked(sh: Shared, rec: CaseRecord, at: Instant)
    requires StoreBacked(sh)
    ensures StoreBacked(DistressStep(sh, rec, at).0)
  {
    var entries := AfterDistress(rec, at).entries;
    assert !ShowsExecution(entries);
    AppendShows(Trail(sh, rec.caseId), entries);
  }

  lemma CommitStaysBacked(sh: Shared, rec: CaseRecord, effect: Effect)
    requires StoreBacked(sh) && WorkerBacked(sh.log, Ready(rec, effect))
    ensures StoreBacked(CommitStep(sh, rec, effect).0)
    ensures WorkerBacked(CommitStep(sh, rec, effect).0.log, CommitStep(sh, rec, effect).1)
  {
    LogGrowthKeepsCommits(sh.log, KeyOf(effect), effect);
  }

  lemma LocalStaysBacked(sh: Shared, wk: Worker, a: Local)
    requires StoreBacked(sh) && WorkerBacked(sh.log, wk)
    ensures var (after, wk2) := LocalStep(sh, wk, a);
            StoreBacked(after) && WorkerBacked(after.log, wk2)
  {
    match a
    case Commit => if wk.Ready? { CommitStaysBacked(sh, wk.rec, wk.effect); }
    case Apply => if wk.Won? { ApplyStaysBacked(sh, wk.rec, wk.effect); }
    case LogEffect(at) => if wk.Applied? { LogStaysBacked(sh, wk.caseId, at); }
    case Reconcile(at) => if wk.Lost? { PullStaysBacked(sh, wk.caseId, at); }
    case Distress(at) => if wk.HasCase? { DistressStaysBacked(sh, wk.rec, at); }
    case _ =>
  }

  lemma OutsideStaysBacked(sh: Shared, cases: map<CaseId, CaseRecord>, trails: map<CaseId, seq<AuditEntry>>,
                           pending: map<CaseId, seq<RetryDecision>>)
    requires StoreBacked(sh) && WebhookLike(sh, cases, trails)
    ensures StoreBacked(sh.(cases := cases, trails := trails, pending := pending))
  {
    forall c | c in trails && ShowsExecution(trails[c]) ensures HasCommit(sh.log, c) {
      var old_ := Trail(sh, c);
      assert trails[c] == old_ + trails[c][|old_|..];
      AppendShows(old_, trails[c][|old_|..]);
    }
  }

  lemma CommitsSurvive(w: World, a: Action, wk: Worker)
    requires WorkerBacked(w.sh.log, wk)
    ensures WorkerBacked(Next(w, a).sh.log, wk)
  {
    LogAfter(w, a);
    if Answers(w, a) {
      var effect := WorkerOf(w, a.worker).effect;
      LogGrowthKeepsCommits(w.sh.log, KeyOf(effect), effect);
    }
  }

  lemma StepStaysBacked(w: World, a: Action)
    requires Backed(w) && Admissible(w, a)
    ensures Backed(Next(w, a))
  {
    match a
    case Act(id, local) => LocalStaysBacked(w.sh, WorkerOf(w, id), local);
    case Outside(cases, trails, pending) => OutsideStaysBacked(w.sh, cases, trails, pending);
    forall id | id in Next(w, a).workers ensures WorkerBacked(Next(w, a).sh.log, Next(w, a).workers[id]) {
      if id in w.workers {
        CommitsSurvive(w, a, w.workers[id]);
      }
    }
  }

  lemma {:induction false} RunStaysBacked(w: World, actions: seq<Action>)
    requires Backed(w) && AdmissibleRun(w, actions)
    ensures Backed(RunWorld(w, actions))
    decreases |actions|
  {
    if actions == [] {
    } else {
      StepStaysBacked(w, actions[0]);
      RunStaysBacked(Next(w, actions[0]), actions[1..]);
    }
  }

  /** Stores in which nothing was executed yet. */
  predicate FreshStart(cases: map<CaseId, CaseRecord>, trails: map<CaseId, seq<AuditEntry>>) {
    && (forall c :: c in cases ==> cases[c].caseId == c && cases[c].state != RetryExecuted)
    && (forall c :: c in trails ==> !ShowsExecution(trails[c]))
  }

  /** No execution without approval: if nothing was executed before the first commit, then in every
      reachable world each case in RETRY_EXECUTED, and each trail that shows an execution, has a commit
      of that case behind it. */
  lemma NoExecutionWithoutCommit(cases: map<CaseId, CaseRecord>, trails: map<CaseId, seq<AuditEntry>>,
                                 pending: map<CaseId, seq<RetryDecision>>, actions: seq<Action>)
    requires FreshStart(cases, trails) && AdmissibleRun(Initial(cases, trails, pending), actions)
    ensures var sh := RunWorld(Initial(cases, trails, pending), actions).sh;
            && (forall c :: c in sh.cases && sh.cases[c].state == RetryExecuted ==> HasCommit(sh.log, c))
            && (forall c :: c in sh.trails && ShowsExecution(sh.trails[c]) ==> HasCommit(sh.log, c))
  {
    RunStaysBacked(Initial(cases, trails, pending), actions);
  }

  // ---- Crashes --------------------------------------------------------------------------------------

  /** A worker about to commit a fresh attempt with an up-to-date copy. */
  predicate AboutToCommit(w: World, id: WorkerId, rec: CaseRecord, effect: Effect) {
    && WorkerOf(w, id) == Ready(rec, effect)
    && effect.caseId == rec.caseId && effect.toState == RetryExecuted && KeyOf(effect) !in w.sh.log
    && rec.caseId in w.sh.cases && w.sh.cases[rec.caseId] == rec && rec.state == RetryScheduled
  }

  /** Crashing right after the commit and reconciling later gives the state, the log and, but for its
      time stamp, the trail of the run without the crash; reconciling again changes nothing. */
  lemma CrashHeals(w: World, id: WorkerId, rec: CaseRecord, effect: Effect, at: Instant, later: Instant)
    requires AboutToCommit(w, id, rec, effect)
    ensures var c := rec.caseId;
            var uncrashed := RunWorld(w, [Act(id, Commit), Act(id, Apply), Act(id, LogEffect(at))]).sh;
            var healed := PullCase(RunWorld(w, [Act(id, Commit), Act(id, Crash)]).sh, c, later);
            && healed.cases == uncrashed.cases
            && healed.log == uncrashed.log
            && Trail(uncrashed, c) == Trail(w.sh, c) + [AppliedEntry(c, at)]
            && Trail(healed, c) == Trail(w.sh, c) + [AppliedEntry(c, later)]
            && PullCase(healed, c, later) == healed
  {
    RunThree(w, Act(id, Commit), Act(id, Apply), Act(id, LogEffect(at)));
    RunTwo(w, Act(id, Commit), Act(id, Crash));
    var w1 := Next(w, Act(id, Commit));
    assert KeyOf(effect) in w1.sh.log && KeyOf(effect).0 == rec.caseId;
  }

  lemma {:induction false} LogGrows(w: World, actions: seq<Action>)
    ensures Keeps(w.sh.log, RunWorld(w, actions).sh.log)
    decreases |actions|
  {
    if actions == [] {
    } else {
      LogAfter(w, actions[0]);
      LogGrows(Next(w, actions[0]), actions[1..]);
    }
  }

  /** Crashing between the two writes of `apply_effect` leaves the state without its audit entry. Whatever
      happens next, a reconciliation writes the entry exactly if the case has left RETRY_EXECUTED by then;
      and then it drags the case back. */
  lemma CrashDefersAuditEntry(w: World, id: WorkerId, rec: CaseRecord, effect: Effect,
                              more: seq<Action>, later: Instant)
    requires AboutToCommit(w, id, rec, effect)
    ensures var c := rec.caseId;
            var crashed := RunWorld(w, [Act(id, Commit), Act(id, Apply), Act(id, Crash)]);
            var sh := RunWorld(crashed, more).sh;
            && Executed(crashed.sh.cases, c) && Trail(crashed.sh, c) == Trail(w.sh, c)
            && (if c in sh.cases && !Executed(sh.cases, c)
                then Trail(PullCase(sh, c, later), c) == Trail(sh, c) + [AppliedEntry(c, later)]
                     && Executed(PullCase(sh, c, later).cases, c)
                else PullCase(sh, c, later) == sh)
  {
    RunThree(w, Act(id, Commit), Act(id, Apply), Act(id, Crash));
    var crashed := RunWorld(w, [Act(id, Commit), Act(id, Apply), Act(id, Crash)]);
    assert KeyOf(effect) in crashed.sh.log && KeyOf(effect).0 == rec.caseId;
    LogGrows(crashed, more);
    assert KeyOf(effect) in RunWorld(crashed, more).sh.log;
  }

  // ---- Where the endpoint falls short ---------------------------------------------------------------

  /** One worker going through the endpoint up to the commit. */
  function Endpoint(id: WorkerId, c: CaseId, at: Instant): seq<Action> {
    [Act(id, Begin(c)), Act(id, Pick), Act(id, CheckDue(at)), Act(id, Commit)]
  }

  /** An idle worker, a scheduled case, and its first pending decision due. */
  predicate FirstPendingDue(w: World, id: WorkerId, c: CaseId, at: Instant) {
    && WorkerOf(w, id).Idle? && WellFiled(w.sh)
    && c in w.sh.cases && w.sh.cases[c].state == RetryScheduled
    && c in w.sh.pending && w.sh.pending[c] != []
    && w.sh.pending[c][0].scheduledAt <= at
  }

  function FirstEffect(sh: Shared, c: CaseId, at: Instant): Effect
    requires c in sh.pending && sh.pending[c] != []
  {
    Effect(c, sh.pending[c][0].attemptNumber, RetryExecuted, at)
  }

  /** Up to the commit the endpoint reads and writes nothing. */
  lemma EndpointGetsReady(w: World, id: WorkerId, c: CaseId, at: Instant)
    requires FirstPendingDue(w, id, c, at)
    ensures RunWorld(w, Endpoint(id, c, at)[..3])
         == w.(workers := w.workers[id := Ready(w.sh.cases[c], FirstEffect(w.sh, c, at))])
  {
    var w1 := w.(workers := w.workers[id := HasCase(w.sh.cases[c])]);
    var w2 := w.(workers := w.workers[id := Picked(w.sh.cases[c], w.sh.pending[c][0])]);
    var w3 := w.(workers := w.workers[id := Ready(w.sh.cases[c], FirstEffect(w.sh, c, at))]);
    assert Next(w, Act(id, Begin(c))) == w1;
    assert Next(w1, Act(id, Pick)) == w2 by { assert w1.workers[id := w2.workers[id]] == w2.workers; }
    assert Next(w2, Act(id, CheckDue(at))) == w3 by { assert w2.workers[id := w3.workers[id]] == w3.workers; }
    RunThree(w, Act(id, Begin(c)), Act(id, Pick), Act(id, CheckDue(at)));
    assert Endpoint(id, c, at)[..3] == [Act(id, Begin(c)), Act(id, Pick), Act(id, CheckDue(at))];
  }

  /** The endpoint wins a commit exactly when the case's first pending decision is not in the log yet.
      Since decisions stay pending, that is the first attempt: every later one is refused. */
  lemma EndpointWinsExactly(w: World, id: WorkerId, c: CaseId, at: Instant)
    requires FirstPendingDue(w, id, c, at)
    ensures var t := RunWorld(w, Endpoint(id, c, at));
            var effect := FirstEffect(w.sh, c, at);
            && t.attempts == w.attempts + [Attempt(id, KeyOf(effect), KeyOf(effect) !in w.sh.log)]
            && WorkerOf(t, id) == (if KeyOf(effect) !in w.sh.log then Won(w.sh.cases[c], effect) else Lost(c))
            && t.sh.cases == w.sh.cases && t.sh.trails == w.sh.trails
            && (KeyOf(effect) in w.sh.log ==> t.sh == w.sh)
  {
    EndpointGetsReady(w, id, c, at);
    var ready := w.(workers := w.workers[id := Ready(w.sh.cases[c], FirstEffect(w.sh, c, at))]);
    RunAppend(w, Endpoint(id, c, at)[..3], [Act(id, Commit)]);
    assert Endpoint(id, c, at) == Endpoint(id, c, at)[..3] + [Act(id, Commit)];
    assert RunWorld(ready, [Act(id, Commit)]) == Next(ready, Act(id, Commit));
  }

  /** A second retry rides on the first commit: the commit is refused and the log does not grow, yet the
      reconciliation of the refused worker moves the case to RETRY_EXECUTED with a new audit entry. */
  lemma SecondRetryRidesOnFirst(w: World, id: WorkerId, c: CaseId, at: Instant)
    requires FirstPendingDue(w, id, c, at) && KeyOf(FirstEffect(w.sh, c, at)) in w.sh.log
    ensures var t := Next(RunWorld(w, Endpoint(id, c, at)), Act(id, Reconcile(at)));
            && t.sh.log == w.sh.log
            && c in t.sh.cases && t.sh.cases[c] == w.sh.cases[c].(state := RetryExecuted)
            && Trail(t.sh, c) == Trail(w.sh, c) + [AppliedEntry(c, at)]
  {
    EndpointWinsExactly(w, id, c, at);
    assert HasCommit(w.sh.log, c);
    LoserPulls(RunWorld(w, Endpoint(id, c, at)), id, c, at);
  }

  lemma LoserPulls(t: World, id: WorkerId, c: CaseId, at: Instant)
    requires WorkerOf(t, id) == Lost(c)
    ensures Next(t, Act(id, Reconcile(at))).sh == PullCase(t.sh, c, at)
  {
  }
}

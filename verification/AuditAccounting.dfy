/** How many audit entries the commits of a case get (app/main.py, `apply_effect` by the winner and by the
    reconciliation of the losers), over all interleavings. */
module AuditAccounting {
  import opened Models
  import opened CaseMachine
  import opened TrailMonitor
  import opened Reconciliation
  import opened ExecutionProtocol

  type Pick = Key -> bool

  function OfKey(k: Key): Pick { (j: Key) => j == k }

  function OfCase(c: CaseId): Pick { (j: Key) => j.0 == c }

  function One(b: bool): nat { if b then 1 else 0 }

  /** A worker between an approval and its audit entry. */
  predicate Holds(wk: Worker, pick: Pick) {
    (wk.Won? || wk.Applied?) && pick(KeyOf(wk.effect))
  }

  function HoldersIn(workers: map<WorkerId, Worker>, pick: Pick): set<WorkerId> {
    set id | id in workers && Holds(workers[id], pick)
  }

  function Holders(w: World, pick: Pick): set<WorkerId> { HoldersIn(w.workers, pick) }

  function Committed(log: map<Key, Effect>, pick: Pick): set<Key> {
    set k | k in log && pick(k)
  }

  /** The winner writes its entry. */
  predicate Writes(w: World, a: Action, pick: Pick) {
    a.Act? && a.local.LogEffect? && WorkerOf(w, a.worker).Applied? && pick(KeyOf(WorkerOf(w, a.worker).effect))
  }

  /** A loser's reconciliation finds the case in a state other than RETRY_EXECUTED. */
  predicate Pulls(w: World, a: Action, c: CaseId) {
    && a.Act? && a.local.Reconcile? && WorkerOf(w, a.worker) == Lost(c)
    && c in w.sh.cases && !Executed(w.sh.cases, c)
  }

  function WinnerEntries(w: World, actions: seq<Action>, pick: Pick): nat
    decreases |actions|
  {
    if actions == [] then 0
    else One(Writes(w, actions[0], pick)) + WinnerEntries(Next(w, actions[0]), actions[1..], pick)
  }

  function LoserEntries(w: World, actions: seq<Action>, c: CaseId): nat
    decreases |actions|
  {
    if actions == [] then 0
    else One(Pulls(w, actions[0], c)) + LoserEntries(Next(w, actions[0]), actions[1..], c)
  }

  // ---- Each commit is applied by its winner at most once --------------------------------------------

  lemma HoldersBut(workers: map<WorkerId, Worker>, id: WorkerId, wk: Worker, pick: Pick)
    ensures HoldersIn(workers[id := wk], pick)
         == HoldersIn(workers, pick) - {id} + (if Holds(wk, pick) then {id} else {})
  {
  }

  /** The set of holders changes at most by the worker that moves. */
  lemma HoldersAfter(w: World, id: WorkerId, local: Local, pick: Pick)
    ensures var t := Next(w, Act(id, local));
            |Holders(t, pick)| + One(Holds(WorkerOf(w, id), pick))
              == |Holders(w, pick)| + One(Holds(WorkerOf(t, id), pick))
  {
    var before, wk := Holders(w, pick), LocalStep(w.sh, WorkerOf(w, id), local).1;
    HoldersBut(w.workers, id, wk, pick);
    assert id in before <==> Holds(WorkerOf(w, id), pick);
    assert |before - {id}| == |before| - One(id in before);
  }

  /** A worker becomes a holder by winning only, and lets go when it writes. */
  lemma LocalHolds(sh: Shared, wk: Worker, local: Local, pick: Pick)
    ensures var wins := local.Commit? && wk.Ready? && KeyOf(wk.effect) !in sh.log && pick(KeyOf(wk.effect));
            var writes := local.LogEffect? && wk.Applied? && pick(KeyOf(wk.effect));
            One(Holds(LocalStep(sh, wk, local).1, pick)) + One(writes) <= One(Holds(wk, pick)) + One(wins)
  {
  }

  lemma CommittedAfter(w: World, id: WorkerId, local: Local, pick: Pick)
    ensures var wk := WorkerOf(w, id);
            |Committed(Next(w, Act(id, local)).sh.log, pick)| == |Committed(w.sh.log, pick)|
              + One(local.Commit? && wk.Ready? && KeyOf(wk.effect) !in w.sh.log && pick(KeyOf(wk.effect)))
  {
    var a, wk := Act(id, local), WorkerOf(w, id);
    LogAfter(w, a);
    if Answers(w, a) && KeyOf(wk.effect) !in w.sh.log {
      CommittedGrows(w.sh.log, wk.effect, pick);
    }
  }

  lemma CommittedGrows(log: map<Key, Effect>, effect: Effect, pick: Pick)
    requires KeyOf(effect) !in log
    ensures |Committed(log[KeyOf(effect) := effect], pick)| == |Committed(log, pick)| + One(pick(KeyOf(effect)))
  {
    var k := KeyOf(effect);
    assert Committed(log[k := effect], pick) == Committed(log, pick) + if pick(k) then {k} else {};
  }

  lemma StepHolds(w: World, a: Action, pick: Pick)
    ensures var t := Next(w, a);
            |Holders(t, pick)| + One(Writes(w, a, pick)) + |Committed(w.sh.log, pick)|
            <= |Holders(w, pick)| + |Committed(t.sh.log, pick)|
  {
    match a
    case Outside(_, _, _) =>
    case Act(id, local) =>
      HoldersAfter(w, id, local, pick);
      LocalHolds(w.sh, WorkerOf(w, id), local, pick);
      CommittedAfter(w, id, local, pick);
  }

  lemma {:induction false} RunHolds(w: World, actions: seq<Action>, pick: Pick)
    ensures var t := RunWorld(w, actions);
            |Holders(t, pick)| + WinnerEntries(w, actions, pick) + |Committed(w.sh.log, pick)|
            <= |Holders(w, pick)| + |Committed(t.sh.log, pick)|
    decreases |actions|
  {
    if actions == [] {
    } else {
      StepHolds(w, actions[0], pick);
      RunHolds(Next(w, actions[0]), actions[1..], pick);
    }
  }

  /** Over all interleavings: the entries a commit got from its winner and the workers still holding its
      approval are together at most one, and none without the commit. */
  lemma WinnerWritesAtMostOnce(cases: map<CaseId, CaseRecord>, trails: map<CaseId, seq<AuditEntry>>,
                               pending: map<CaseId, seq<RetryDecision>>, actions: seq<Action>, k: Key)
    ensures var w0 := Initial(cases, trails, pending);
            var w := RunWorld(w0, actions);
            WinnerEntries(w0, actions, OfKey(k)) + |Holders(w, OfKey(k))| <= if k in w.sh.log then 1 else 0
  {
    var w0 := Initial(cases, trails, pending);
    RunHolds(w0, actions, OfKey(k));
    assert Holders(w0, OfKey(k)) == {};
    var log := RunWorld(w0, actions).sh.log;
    assert Committed(log, OfKey(k)) == if k in log then {k} else {};
  }

  // ---- Where the entries come from ------------------------------------------------------------------

  lemma {:induction false} CountAppend(trail: seq<AuditEntry>, more: seq<AuditEntry>)
    ensures CountApplied(trail + more) == CountApplied(trail) + CountApplied(more)
    decreases |more|
  {
    if more == [] {
      assert trail + more == trail;
    } else {
      var n := |more| - 1;
      assert (trail + more)[..|trail| + n] == trail + more[..n];
      CountAppend(trail, more[..n]);
    }
  }

  lemma {:induction false} ForeignCount(entries: seq<AuditEntry>)
    requires forall i :: 0 <= i < |entries| ==> entries[i].rule != CommitEffectApplied
    ensures CountApplied(entries) == 0
  {
    if entries == [] {
    } else {
      ForeignCount(entries[..|entries| - 1]);
    }
  }

  lemma OneAppended(trail: seq<AuditEntry>, e: AuditEntry)
    ensures CountApplied(trail + [e]) == CountApplied(trail) + (if e.rule == CommitEffectApplied then 1 else 0)
  {
    assert (trail + [e])[..|trail|] == trail;
  }

  /** What a worker's step appends to the trail of a case. */
  function Logged(sh: Shared, wk: Worker, a: Local, c: CaseId): seq<AuditEntry> {
    match a
    case Distress(at) =>
      if wk.HasCase? && wk.rec.caseId == c && c in sh.cases then AfterDistress(wk.rec, at).entries else []
    case LogEffect(at) => if wk.Applied? && wk.caseId == c then [AppliedEntry(c, at)] else []
    case Reconcile(at) =>
      if wk == Lost(c) && c in sh.cases && HasCommit(sh.log, c) && !Executed(sh.cases, c) then [AppliedEntry(c, at)]
      else []
    case _ => []
  }

  lemma LocalAppends(sh: Shared, wk: Worker, a: Local, c: CaseId)
    ensures Trail(LocalStep(sh, wk, a).0, c) == Trail(sh, c) + Logged(sh, wk, a, c)
  {
  }

  lemma LoggedCount(sh: Shared, wk: Worker, a: Local, c: CaseId)
    requires WorkerBacked(sh.log, wk)
    ensures CountApplied(Logged(sh, wk, a, c))
         == One(a.LogEffect? && wk.Applied? && wk.effect.caseId == c)
              + One(a.Reconcile? && wk == Lost(c) && c in sh.cases && !Executed(sh.cases, c))
  {
    var entries := Logged(sh, wk, a, c);
    if |entries| == 1 {
      assert entries == [] + entries;
      OneAppended([], entries[0]);
    }
  }

  lemma LocalEntries(sh: Shared, wk: Worker, a: Local, c: CaseId)
    requires WorkerBacked(sh.log, wk)
    ensures CountApplied(Trail(LocalStep(sh, wk, a).0, c)) == CountApplied(Trail(sh, c))
              + One(a.LogEffect? && wk.Applied? && wk.effect.caseId == c)
              + One(a.Reconcile? && wk == Lost(c) && c in sh.cases && !Executed(sh.cases, c))
  {
    LocalAppends(sh, wk, a, c);
    CountAppend(Trail(sh, c), Logged(sh, wk, a, c));
    LoggedCount(sh, wk, a, c);
  }

  // ---- Whose entries they are -----------------------------------------------------------------------

  predicate OwnTrails(sh: Shared) {
    forall c :: c in sh.trails ==> Own(sh.trails[c], c)
  }

  lemma StepKeepsOwn(w: World, a: Action)
    requires OwnTrails(w.sh) && Admissible(w, a)
    ensures OwnTrails(Next(w, a).sh)
  {
    var t := Next(w, a).sh;
    forall c | c in t.trails ensures Own(t.trails[c], c) {
      match a
      case Act(id, local) =>
        LocalAppends(w.sh, WorkerOf(w, id), local, c);
        assert t.trails[c] == Trail(w.sh, c) + Logged(w.sh, WorkerOf(w, id), local, c);
      case Outside(_, trails, _) =>
        assert trails[c] == Trail(w.sh, c) + trails[c][|Trail(w.sh, c)|..];
    }
  }

  lemma {:induction false} RunKeepsOwn(w: World, actions: seq<Action>)
    requires OwnTrails(w.sh) && AdmissibleRun(w, actions)
    ensures OwnTrails(RunWorld(w, actions).sh)
    decreases |actions|
  {
    if actions == [] {
    } else {
      StepKeepsOwn(w, actions[0]);
      RunKeepsOwn(Next(w, actions[0]), actions[1..]);
    }
  }

  /** Over all interleavings, every trail holds entries of its own case alone. */
  lemma TrailsStayTheirOwn(cases: map<CaseId, CaseRecord>, pending: map<CaseId, seq<RetryDecision>>,
                           actions: seq<Action>, c: CaseId)
    requires AdmissibleRun(Initial(cases, map[], pending), actions)
    ensures Own(Trail(RunWorld(Initial(cases, map[], pending), actions).sh, c), c)
  {
    RunKeepsOwn(Initial(cases, map[], pending), actions);
  }

  lemma StepEntries(w: World, a: Action, c: CaseId)
    requires Backed(w) && Admissible(w, a)
    ensures CountApplied(Trail(Next(w, a).sh, c)) == CountApplied(Trail(w.sh, c))
              + One(Writes(w, a, OfCase(c))) + One(Pulls(w, a, c))
  {
    match a
    case Act(id, local) => LocalEntries(w.sh, WorkerOf(w, id), local, c);
    case Outside(cases, trails, pending) =>
      if c in trails {
        var before := Trail(w.sh, c);
        var more := trails[c][|before|..];
        assert trails[c] == before + more;
        CountAppend(before, more);
        ForeignCount(more);
      }
  }

  lemma {:induction false} RunEntries(w: World, actions: seq<Action>, c: CaseId)
    requires Backed(w) && AdmissibleRun(w, actions)
    ensures CountApplied(Trail(RunWorld(w, actions).sh, c)) == CountApplied(Trail(w.sh, c))
              + WinnerEntries(w, actions, OfCase(c)) + LoserEntries(w, actions, c)
    decreases |actions|
  {
    if actions == [] {
    } else {
      StepEntries(w, actions[0], c);
      StepStaysBacked(w, actions[0]);
      RunEntries(Next(w, actions[0]), actions[1..], c);
    }
  }

  /** Over all interleavings, the commit entries of a case are those of the winners, at most one for each
      of its commits, and one for each loser whose reconciliation found a state other than RETRY_EXECUTED:
      these are exactly the surplus. */
  lemma SurplusEntriesExactly(cases: map<CaseId, CaseRecord>, trails: map<CaseId, seq<AuditEntry>>,
                              pending: map<CaseId, seq<RetryDecision>>, actions: seq<Action>, c: CaseId)
    requires FreshStart(cases, trails) && AdmissibleRun(Initial(cases, trails, pending), actions)
    ensures var w0 := Initial(cases, trails, pending);
            var w := RunWorld(w0, actions);
            var winners := WinnerEntries(w0, actions, OfCase(c));
            && CountApplied(Trail(w.sh, c)) == CountApplied(Trail(w0.sh, c)) + winners + LoserEntries(w0, actions, c)
            && winners + |Holders(w, OfCase(c))| <= |Committed(w.sh.log, OfCase(c))|
  {
    var w0 := Initial(cases, trails, pending);
    RunEntries(w0, actions, c);
    RunHolds(w0, actions, OfCase(c));
    assert Holders(w0, OfCase(c)) == {} && Committed(w0.sh.log, OfCase(c)) == {};
  }

  // ---- One commit, two workers ----------------------------------------------------------------------

  /** Two workers that both got past the due check. */
  function BothReady(a: WorkerId, b: WorkerId, c: CaseId, atA: Instant, atB: Instant): seq<Action> {
    Endpoint(a, c, atA)[..3] + Endpoint(b, c, atB)[..3]
  }

  /** Such a race is reached from any store with the first decision of a scheduled case due. */
  lemma RaceIsReached(w: World, a: WorkerId, b: WorkerId, c: CaseId, atA: Instant, atB: Instant)
    requires a != b && FirstPendingDue(w, a, c, atA) && FirstPendingDue(w, b, c, atB)
    requires KeyOf(FirstEffect(w.sh, c, atA)) !in w.sh.log
    ensures var t := RunWorld(w, BothReady(a, b, c, atA, atB));
            && t.sh == w.sh
            && AboutToCommit(t, a, w.sh.cases[c], FirstEffect(w.sh, c, atA))
            && WorkerOf(t, b) == Ready(w.sh.cases[c], FirstEffect(w.sh, c, atB))
  {
    RunAppend(w, Endpoint(a, c, atA)[..3], Endpoint(b, c, atB)[..3]);
    EndpointGetsReady(w, a, c, atA);
    EndpointGetsReady(RunWorld(w, Endpoint(a, c, atA)[..3]), b, c, atB);
  }

  /** Both ask; then the winner applies in two writes, and the loser reconciles before, between or after
      them: n of the two writes come before the reconciliation. */
  function Race(a: WorkerId, b: WorkerId, written: Instant, pulled: Instant, n: nat): seq<Action>
    requires n <= 2
  {
    var writes := [Act(a, Apply), Act(a, LogEffect(written))];
    [Act(a, Commit), Act(b, Commit)] + (writes[..n] + [Act(b, Reconcile(pulled))] + writes[n..])
  }

  lemma BothCommit(w: World, a: WorkerId, b: WorkerId, rec: CaseRecord, effect: Effect, other: Effect)
    requires a != b && AboutToCommit(w, a, rec, effect)
    requires WorkerOf(w, b) == Ready(rec, other) && KeyOf(other) == KeyOf(effect)
    ensures var t := RunWorld(w, [Act(a, Commit), Act(b, Commit)]);
            && WorkerOf(t, a) == Won(rec, effect) && WorkerOf(t, b) == Lost(rec.caseId)
            && t.sh == w.sh.(log := w.sh.log[KeyOf(effect) := effect])
  {
    RunTwo(w, Act(a, Commit), Act(b, Commit));
  }

  /** The trail after the winner's two writes and the loser's reconciliation, in each order. */
  lemma AppliedInOrder(w: World, a: WorkerId, b: WorkerId, rec: CaseRecord, effect: Effect,
                       written: Instant, pulled: Instant, n: nat)
    requires a != b && n <= 2 && WorkerOf(w, a) == Won(rec, effect) && WorkerOf(w, b) == Lost(rec.caseId)
    requires effect.caseId == rec.caseId && effect.toState == RetryExecuted && HasCommit(w.sh.log, rec.caseId)
    requires rec.caseId in w.sh.cases && w.sh.cases[rec.caseId] == rec && rec.state == RetryScheduled
    ensures var writes := [Act(a, Apply), Act(a, LogEffect(written))];
            var sh := RunWorld(w, writes[..n] + [Act(b, Reconcile(pulled))] + writes[n..]).sh;
            && sh.log == w.sh.log
            && Trail(sh, rec.caseId) == Trail(w.sh, rec.caseId)
                 + (if n == 0 then [AppliedEntry(rec.caseId, pulled)] else []) + [AppliedEntry(rec.caseId, written)]
  {
    var apply, entry, pull := Act(a, Apply), Act(a, LogEffect(written)), Act(b, Reconcile(pulled));
    var writes := [apply, entry];
    var trail := Trail(w.sh, rec.caseId);
    if n == 0 {
      assert writes[..n] + [pull] + writes[n..] == [pull, apply, entry];
      RunThree(w, pull, apply, entry);
    } else if n == 1 {
      assert writes[..n] + [pull] + writes[n..] == [apply, pull, entry];
      RunThree(w, apply, pull, entry);
      assert trail + [] + [AppliedEntry(rec.caseId, written)] == trail + [AppliedEntry(rec.caseId, written)];
    } else {
      assert writes[..n] + [pull] + writes[n..] == [apply, entry, pull];
      RunThree(w, apply, entry, pull);
      assert trail + [] + [AppliedEntry(rec.caseId, written)] == trail + [AppliedEntry(rec.caseId, written)];
    }
  }

  /** From any such store, through the endpoint: the one commit of the race gets two audit entries exactly
      when the loser reconciles before the winner applies, and one entry in every other order. */
  lemma TwoEntriesExactly(w: World, a: WorkerId, b: WorkerId, c: CaseId, atA: Instant, atB: Instant,
                          written: Instant, pulled: Instant, n: nat)
    requires a != b && n <= 2 && FirstPendingDue(w, a, c, atA) && FirstPendingDue(w, b, c, atB)
    requires KeyOf(FirstEffect(w.sh, c, atA)) !in w.sh.log
    ensures var sh := RunWorld(w, BothReady(a, b, c, atA, atB) + Race(a, b, written, pulled, n)).sh;
            && sh.log == w.sh.log[KeyOf(FirstEffect(w.sh, c, atA)) := FirstEffect(w.sh, c, atA)]
            && Trail(sh, c) == Trail(w.sh, c)
                 + (if n == 0 then [AppliedEntry(c, pulled)] else []) + [AppliedEntry(c, written)]
  {
    var rec, effect := w.sh.cases[c], FirstEffect(w.sh, c, atA);
    var commits := [Act(a, Commit), Act(b, Commit)];
    var writes := [Act(a, Apply), Act(a, LogEffect(written))];
    var rest := writes[..n] + [Act(b, Reconcile(pulled))] + writes[n..];
    RunAppend(w, BothReady(a, b, c, atA, atB), commits + rest);
    RaceIsReached(w, a, b, c, atA, atB);
    var ready := RunWorld(w, BothReady(a, b, c, atA, atB));
    RunAppend(ready, commits, rest);
    BothCommit(ready, a, b, rec, effect, FirstEffect(w.sh, c, atB));
    var t := RunWorld(ready, commits);
    assert KeyOf(effect) in t.sh.log && KeyOf(effect).0 == c;
    AppliedInOrder(t, a, b, rec, effect, written, pulled, n);
  }

  /** And the verifier takes such a pair for two retries: without the spacing between them it breaks
      the rule. */
  lemma TwoEntriesFailSpacing(trail: seq<AuditEntry>, c: CaseId, pulled: Instant, written: Instant, cfg: Config)
    requires |cfg.retrySpacing| > 0 && written - pulled < SpacingFor(cfg, |ExecutionTimes(trail)| + 1)
    ensures SpacingViolated(trail + [AppliedEntry(c, pulled)] + [AppliedEntry(c, written)], cfg)
  {
    var once := trail + [AppliedEntry(c, pulled)];
    var twice := once + [AppliedEntry(c, written)];
    var n := |ExecutionTimes(trail)|;
    assert once[..|trail|] == trail && twice[..|once|] == once;
    assert ExecutionTimes(once) == ExecutionTimes(trail) + [pulled];
    assert ExecutionTimes(twice) == ExecutionTimes(once) + [written];
    assert SpacingBroken(ExecutionTimes(twice), cfg, n + 1);
  }
}

/** Commit effects, their application and the reconciliation from the commit log (app/main.py). */
module Reconciliation {
  import opened Models

  datatype Effect = Effect(caseId: CaseId, attempt: nat, toState: State, at: Instant)

  function KeyOf(e: Effect): Key { (e.caseId, e.attempt) }

  /** The stores every worker shares. Decisions are pending in the order they were recorded, and none
      ever leaves the list: nothing sets an outcome other than pending. */
  datatype Shared = Shared(
    cases: map<CaseId, CaseRecord>,
    trails: map<CaseId, seq<AuditEntry>>,
    pending: map<CaseId, seq<RetryDecision>>,
    log: map<Key, Effect>)

  function Trail(sh: Shared, c: CaseId): seq<AuditEntry> {
    if c in sh.trails then sh.trails[c] else []
  }

  function AppliedEntry(c: CaseId, now: Instant): AuditEntry {
    AuditEntry(c, RetryScheduled, RetryExecuted, CommitEffectApplied, 1, now, Agent, None)
  }

  /** `apply_effect` on a caller's copy of the record: the only guard compares the state to the target,
      and the update overwrites the stored record with the copy. A case unknown to the store raises. */
  function ApplyTo(sh: Shared, rec: CaseRecord, effect: Effect, now: Instant): Shared {
    if rec.state == effect.toState || rec.caseId !in sh.cases then sh
    else
      sh.(cases := sh.cases[rec.caseId := rec.(state := effect.toState)],
          trails := sh.trails[rec.caseId := Trail(sh, rec.caseId) + [AppliedEntry(rec.caseId, now)]])
  }

  predicate HasCommit(log: map<Key, Effect>, c: CaseId) {
    exists k :: k in log && k.0 == c
  }

  /** What every writer of the log and the store sees to: effects file under their own key and target
      RETRY_EXECUTED, records file under their own id. */
  predicate WellFiled(sh: Shared) {
    && (forall k :: k in sh.log ==>
          sh.log[k].caseId == k.0 && sh.log[k].attempt == k.1 && sh.log[k].toState == RetryExecuted)
    && (forall c :: c in sh.cases ==> sh.cases[c].caseId == c)
  }

  /** A scan of the log, in whatever order. */
  ghost predicate IsScan(scan: seq<Effect>, log: map<Key, Effect>) {
    forall e :: e in scan <==> exists k :: k in log && log[k] == e
  }

  /** The record after reconciliation, if its case has any commit at all. */
  function Pulled(rec: CaseRecord, committed: bool): CaseRecord {
    if committed then rec.(state := RetryExecuted) else rec
  }

  function PulledTrail(trail: seq<AuditEntry>, rec: CaseRecord, committed: bool, now: Instant): seq<AuditEntry> {
    if committed && rec.state != RetryExecuted then trail + [AppliedEntry(rec.caseId, now)] else trail
  }

  /** One case reconciled from a scan that found something, or nothing. */
  function Pull(sh: Shared, c: CaseId, found: bool, now: Instant): Shared {
    if c in sh.cases && found && sh.cases[c].state != RetryExecuted then
      sh.(cases := sh.cases[c := Pulled(sh.cases[c], true)],
          trails := sh.trails[c := Trail(sh, c) + [AppliedEntry(c, now)]])
    else sh
  }

  /** One case reconciled from its commits. */
  function PullCase(sh: Shared, c: CaseId, now: Instant): Shared {
    Pull(sh, c, HasCommit(sh.log, c), now)
  }

  /** The documented intent: only where a commit exists but the local state did not advance. */
  function Healed(rec: CaseRecord, attempts: set<int>): CaseRecord {
    if rec.state == RetryScheduled && rec.retriesUsed + 1 in attempts then rec.(state := RetryExecuted) else rec
  }
}

/** The in-memory case store (app/core/case_store.py), with the failure webhook (app/main.py) and the
    chain verification endpoint working on it. */
module CaseStore {
  import opened Models
  import opened CaseMachine
  import opened Ledger
  import opened TrailMonitor
  import Chain = AuditChain

  datatype ChainReport =
    | NoEntries
    | ChainBreak(sequenceId: int)
    | HashMismatch(sequenceId: int)
    | Intact

  /** The verdict names the first entry that does not link, or whose hash is not its own. */
  ghost predicate ReportsExactly(r: ChainReport, trail: seq<Chain.Stored>, hash: Chain.Hasher) {
    && (r == NoEntries <==> trail == [])
    && (r == Intact <==> Chain.Accepted(trail, hash))
    && (r.ChainBreak? || r.HashMismatch? ==> exists i: nat :: FirstBadEntry(r, trail, i, hash))
  }

  predicate FirstBadEntry(r: ChainReport, trail: seq<Chain.Stored>, i: nat, hash: Chain.Hasher) {
    && i < |trail| && !Chain.LinkedAt(trail, i, hash)
    && (forall j :: 0 <= j < i ==> Chain.LinkedAt(trail, j, hash))
    && r == if trail[i].prevHash != Chain.HashBefore(trail, i) then ChainBreak(trail[i].sequenceId)
            else HashMismatch(trail[i].sequenceId)
  }

  datatype Fault = NoFault | CaseAlreadyExists | CaseNotFound | FailureAlreadyRecorded | DecisionAlreadyRecorded

  class InMemoryCaseStore {
    var cases: map<CaseId, CaseRecord>
    var failures: map<AttemptKey, FailureEvent>
    var byPayment: map<PaymentId, AttemptKey>
    var byMandate: map<string, CaseId>
    var decisions: map<AttemptKey, RetryDecision>
    var auditLogs: map<CaseId, seq<Chain.Stored>>
    var nextSequence: int
    const hash: Chain.Hasher

    ghost function Books(): Books
      reads this
    {
      Ledger.Books(cases, failures, byPayment, byMandate)
    }

    ghost function Logs(): Chain.Logs
      reads this
    {
      Chain.Logs(auditLogs, nextSequence)
    }

    constructor (hash: Chain.Hasher)
      ensures Books() == BLANK && Logs() == Chain.EMPTY && decisions == map[] && this.hash == hash
    {
      this.hash := hash;
      cases, failures, byPayment, byMandate := map[], map[], map[], map[];
      decisions, auditLogs, nextSequence := map[], map[], 1;
    }

    method CreateCase(rec: CaseRecord) returns (fault: Fault)
      modifies this`cases, this`byMandate
      ensures fault == if || rec.caseId in old(cases)
                          || (rec.mandateId in old(byMandate) && old(byMandate)[rec.mandateId] != rec.caseId)
                       then CaseAlreadyExists else NoFault
      ensures if fault == NoFault
              then cases == old(cases)[rec.caseId := rec] && byMandate == old(byMandate)[rec.mandateId := rec.caseId]
              else cases == old(cases) && byMandate == old(byMandate)
    {
      if rec.caseId in cases {
        return CaseAlreadyExists;
      }
      if rec.mandateId in byMandate && byMandate[rec.mandateId] != rec.caseId {
        return CaseAlreadyExists;
      }
      cases := cases[rec.caseId := rec];
      byMandate := byMandate[rec.mandateId := rec.caseId];
      return NoFault;
    }

    method UpdateCase(rec: CaseRecord) returns (fault: Fault)
      modifies this`cases, this`byMandate
      ensures fault == if rec.caseId in old(cases) then NoFault else CaseNotFound
      ensures if fault == NoFault
              then cases == old(cases)[rec.caseId := rec] && byMandate == old(byMandate)[rec.mandateId := rec.caseId]
              else cases == old(cases) && byMandate == old(byMandate)
    {
      if rec.caseId !in cases {
        return CaseNotFound;
      }
      cases := cases[rec.caseId := rec];
      byMandate := byMandate[rec.mandateId := rec.caseId];
      return NoFault;
    }

    /** The scan over all recorded attempts; 0 when there is none. */
    method GetMaxAttemptNumber(c: CaseId) returns (maxAttempt: int)
      ensures 0 <= maxAttempt
      ensures forall k :: k in failures && k.0 == c ==> k.1 <= maxAttempt
      ensures maxAttempt == 0 || (c, maxAttempt) in failures
    {
      maxAttempt := 0;
      var rest := failures.Keys;
      while rest != {}
        invariant 0 <= maxAttempt && rest <= failures.Keys
        invariant forall k :: k in failures && k !in rest && k.0 == c ==> k.1 <= maxAttempt
        invariant maxAttempt == 0 || (c, maxAttempt) in failures
        decreases rest
      {
        var k :| k in rest;
        rest := rest - {k};
        if k.0 == c && maxAttempt < k.1 {
          maxAttempt := k.1;
        }
      }
    }

    method RecordFailure(event: FailureEvent) returns (fault: Fault)
      modifies this`failures, this`byPayment
      ensures var key := (event.caseId, event.attemptNumber);
              && fault == (if key in old(failures) || event.paymentId in old(byPayment)
                           then FailureAlreadyRecorded else NoFault)
              && (if fault == NoFault
                  then failures == old(failures)[key := event] && byPayment == old(byPayment)[event.paymentId := key]
                  else failures == old(failures) && byPayment == old(byPayment))
    {
      var key := (event.caseId, event.attemptNumber);
      if key in failures {
        return FailureAlreadyRecorded;
      }
      if event.paymentId in byPayment {
        return FailureAlreadyRecorded;
      }
      failures := failures[key := event];
      byPayment := byPayment[event.paymentId := key];
      return NoFault;
    }

    method RecordRetryDecision(d: RetryDecision) returns (fault: Fault)
      modifies this`decisions
      ensures fault == if (d.caseId, d.attemptNumber) in old(decisions) then DecisionAlreadyRecorded else NoFault
      ensures decisions == if fault == NoFault then old(decisions)[(d.caseId, d.attemptNumber) := d] else old(decisions)
    {
      if (d.caseId, d.attemptNumber) in decisions {
        return DecisionAlreadyRecorded;
      }
      decisions := decisions[(d.caseId, d.attemptNumber) := d];
      return NoFault;
    }

    method AppendAudit(e: AuditEntry, given: Option<int>)
      modifies this`auditLogs, this`nextSequence
      ensures Logs() == Chain.AppendAs(old(Logs()), e, given, hash)
    {
      var sequenceId := nextSequence;
      if given.Some? {
        sequenceId := given.value;
      } else {
        nextSequence := nextSequence + 1;
      }
      var trail := if e.caseId in auditLogs then auditLogs[e.caseId] else [];
      var prevHash := if trail != [] then Some(trail[|trail| - 1].entryHash) else None;
      var entryHash := hash(Chain.Payload(e, sequenceId, prevHash));
      auditLogs := auditLogs[e.caseId := trail + [Chain.Stored(e, sequenceId, prevHash, entryHash)]];
    }

    method AppendAll(entries: seq<AuditEntry>)
      modifies this`auditLogs, this`nextSequence
      ensures Logs() == Chain.AppendAll(old(Logs()), entries, hash) && Books() == old(Books())
    {
      var i := 0;
      while i < |entries|
        invariant 0 <= i <= |entries|
        invariant Logs() == Chain.AppendAll(old(Logs()), entries[..i], hash)
      {
        assert entries[..i + 1][..i] == entries[..i];
        AppendAudit(entries[i], None);
        i := i + 1;
      }
      assert entries[..i] == entries;
    }

    method VerifyChain(c: CaseId) returns (r: ChainReport)
      ensures ReportsExactly(r, Chain.TrailOf(Logs(), c), hash)
    {
      var audit := if c in auditLogs then auditLogs[c] else [];
      if audit == [] {
        return NoEntries;
      }
      var prevHash := None;
      var i := 0;
      while i < |audit|
        invariant 0 <= i <= |audit|
        invariant prevHash == Chain.HashBefore(audit, i)
        invariant forall j :: 0 <= j < i ==> Chain.LinkedAt(audit, j, hash)
      {
        var entry := audit[i];
        if entry.prevHash != prevHash {
          r := ChainBreak(entry.sequenceId);
          assert FirstBadEntry(r, audit, i, hash);
          return;
        }
        var expectedHash := hash(Chain.PayloadOf(entry));
        if entry.entryHash != expectedHash {
          r := HashMismatch(entry.sequenceId);
          assert FirstBadEntry(r, audit, i, hash);
          return;
        }
        prevHash := Some(entry.entryHash);
        i := i + 1;
      }
      return Intact;
    }

    /** The case a delivery belongs to, and the number its attempt will carry. */
    method LookUp(d: Delivery) returns (existing: Option<CaseRecord>, attempt: int)
      requires Balanced(Books())
      ensures existing == ExistingCase(Books(), d) && attempt == HighestAttempt(Books(), d) + 1
      ensures existing.Some? ==> existing.value.caseId in cases
      ensures forall m :: m in byMandate ==> byMandate[m] in cases
    {
      existing, attempt := None, 1;
      if d.mandateId != "" && d.mandateId in byMandate && byMandate[d.mandateId] in cases {
        var c := byMandate[d.mandateId];
        existing := Some(cases[c]);
        var maxAttempt := GetMaxAttemptNumber(existing.value.caseId);
        MaxIsHighest(Books(), existing.value.caseId, maxAttempt, HighestAttempt(Books(), d));
        attempt := maxAttempt + 1;
      }
    }

    /** Create or update the case, then record the failure. */
    method StoreThenRecord(isNew: bool, rec: CaseRecord, attempt: int, d: Delivery) returns (accepted: bool)
      requires !isNew ==> rec.caseId in cases
      requires forall m :: m in byMandate ==> byMandate[m] in cases
      modifies this`cases, this`failures, this`byPayment, this`byMandate
      ensures (Books(), accepted) == Tried(old(Books()), isNew, rec, attempt, d)
      ensures Logs() == old(Logs())
    {
      var fault: Fault;
      if isNew {
        fault := CreateCase(rec);
      } else {
        fault := UpdateCase(rec);
      }
      if fault != NoFault {
        return false;
      }
      fault := RecordFailure(FailureEvent(rec.caseId, attempt, d.paymentId, d.amount));
      return fault == NoFault;
    }

    /** The steps both failure endpoints share, with the entries to log. */
    method IngestUnchecked(d: Delivery, cfg: Config, now: Instant, clock: Clock)
      returns (accepted: bool, entries: seq<AuditEntry>)
      requires ValidConfig(cfg) && Balanced(Books()) && d.paymentId != ""
      modifies this`cases, this`failures, this`byPayment, this`byMandate
      ensures (Books(), accepted) == Simulated(old(Books()), d, cfg, now, clock)
      ensures Logs() == old(Logs())
      ensures entries == Handled(ExistingCase(old(Books()), d), d, cfg, now, clock).entries
    {
      var existing, attempt := LookUp(d);
      var o := Handled(existing, d, cfg, now, clock);
      entries := o.entries;
      HandledKeepsIdentity(existing, d, cfg, now, clock);
      accepted := StoreThenRecord(existing == None, o.rec, attempt, d);
    }

    /** The books' half of the failure webhook, in the endpoint's order, with the entries it is to log. */
    method Ingest(d: Delivery, cfg: Config, now: Instant, clock: Clock)
      returns (answer: Answer, entries: seq<AuditEntry>)
      requires ValidConfig(cfg) && Balanced(Books())
      modifies this`cases, this`failures, this`byPayment, this`byMandate
      ensures (Books(), answer) == Ingested(old(Books()), d, cfg, now, clock)
      ensures Logs() == old(Logs())
      ensures answer == Accepted ==> entries == Handled(ExistingCase(old(Books()), d), d, cfg, now, clock).entries
    {
      if d.paymentId == "" {
        return MissingPaymentId, [];
      }
      if d.paymentId in byPayment {
        return Duplicate, [];
      }
      SimulatedNewIsIngested(Books(), d, cfg, now, clock);
      var accepted;
      accepted, entries := IngestUnchecked(d, cfg, now, clock);
      answer := if accepted then Accepted else MandateTaken;
    }

    /** The failure webhook after parsing. The books move as the ledger says; an accepted delivery appends
        the handler's entries, any other leaves the trails alone. */
    method PaymentFailedWebhook(d: Delivery, cfg: Config, now: Instant, clock: Clock) returns (answer: Answer)
      requires ValidConfig(cfg) && Balanced(Books())
      modifies this`cases, this`failures, this`byPayment, this`byMandate, this`auditLogs, this`nextSequence
      ensures (Books(), answer) == Ingested(old(Books()), d, cfg, now, clock)
      ensures Balanced(Books())
      ensures var handled := Handled(ExistingCase(old(Books()), d), d, cfg, now, clock);
              && Logs() == (if answer == Accepted then Chain.AppendAll(old(Logs()), handled.entries, hash)
                            else old(Logs()))
              && (answer == Accepted ==>
                    Chain.OnlyGrows(old(Logs()), Logs(), CaseOf(old(Books()), d), handled.entries))
    {
      IngestKeepsBalance(Books(), d, cfg, now, clock);
      HandledGrowsTrail(Books(), Logs(), d, cfg, now, clock, hash);
      var entries;
      answer, entries := Ingest(d, cfg, now, clock);
      if answer == Accepted {
        AppendAll(entries);
      }
    }

    /** The demo endpoint after parsing: the webhook's steps without the duplicate check in front. A refusal
        by `record_failure` comes after the case was stored. */
    method SimulateFailure(d: Delivery, cfg: Config, now: Instant, clock: Clock) returns (accepted: bool)
      requires ValidConfig(cfg) && Balanced(Books())
      modifies this`cases, this`failures, this`byPayment, this`byMandate, this`auditLogs, this`nextSequence
      ensures (Books(), accepted) == Simulated(old(Books()), d, cfg, now, clock)
      ensures Balanced(Books()) <==> !Strays(old(Books()), d)
      ensures var handled := Handled(ExistingCase(old(Books()), d), d, cfg, now, clock);
              && Logs() == (if accepted then Chain.AppendAll(old(Logs()), handled.entries, hash) else old(Logs()))
              && (accepted ==> Chain.OnlyGrows(old(Logs()), Logs(), CaseOf(old(Books()), d), handled.entries))
    {
      SimulatedBalancesExactly(Books(), d, cfg, now, clock);
      HandledGrowsTrail(Books(), Logs(), d, cfg, now, clock, hash);
      if d.paymentId == "" {
        return false;
      }
      var entries;
      accepted, entries := IngestUnchecked(d, cfg, now, clock);
      if accepted {
        AppendAll(entries);
      }
    }

    /** The success webhook after parsing: an update of the case of the mandate, and its entries. */
    method PaymentSucceededWebhook(mandateId: string, amount: int, now: Instant) returns (found: bool)
      requires Balanced(Books())
      modifies this`cases, this`byMandate, this`auditLogs, this`nextSequence
      ensures found <==> mandateId != "" && mandateId in old(byMandate)
      ensures !found ==> Books() == old(Books()) && Logs() == old(Logs())
      ensures found ==> old(byMandate)[mandateId] in old(cases)
      ensures found ==>
                var c := old(byMandate)[mandateId];
                var o := AfterSuccess(old(cases)[c], amount, now);
                && Books() == Updated(old(Books()), c, o.rec)
                && Logs() == Chain.AppendAll(old(Logs()), o.entries, hash)
                && Chain.OnlyGrows(old(Logs()), Logs(), c, o.entries)
      ensures Balanced(Books())
    {
      if mandateId == "" || mandateId !in byMandate || byMandate[mandateId] !in cases {
        return false;
      }
      var c := byMandate[mandateId];
      var o := AfterSuccess(cases[c], amount, now);
      UpdateKeepsBalance(Books(), c, o.rec);
      SuccessKeepsIdentity(cases[c], amount, now);
      Chain.OwnEntriesGrow(Logs(), o.entries, c, hash);
      var fault := UpdateCase(o.rec);
      AppendAll(o.entries);
      return true;
    }
  }

  lemma HandledGrowsTrail(b: Books, l: Chain.Logs, d: Delivery, cfg: Config, now: Instant, clock: Clock,
                          hash: Chain.Hasher)
    requires ValidConfig(cfg)
    ensures var entries := Handled(ExistingCase(b, d), d, cfg, now, clock).entries;
            Chain.OnlyGrows(l, Chain.AppendAll(l, entries, hash), CaseOf(b, d), entries)
  {
    HandledEntriesAreOwn(b, d, cfg, now, clock);
    Chain.OwnEntriesGrow(l, Handled(ExistingCase(b, d), d, cfg, now, clock).entries, CaseOf(b, d), hash);
  }

  lemma SuccessKeepsIdentity(rec: CaseRecord, amount: int, now: Instant)
    ensures var o := AfterSuccess(rec, amount, now);
            o.rec.caseId == rec.caseId && o.rec.mandateId == rec.mandateId && Own(o.entries, rec.caseId)
  {
  }

  /** On balanced books the highest attempt found by the scan is the n of 1..n. */
  lemma MaxIsHighest(b: Books, c: CaseId, found: int, highest: nat)
    requires 1 <= highest && Attempts(b, c, highest) && 0 <= found
    requires forall k :: k in b.failures && k.0 == c ==> k.1 <= found
    requires found == 0 || (c, found) in b.failures
    ensures found == highest
  {
    assert (c, highest) in b.failures;
  }
}

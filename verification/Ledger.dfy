/** The failure ledger: how the webhook (app/main.py) and the store's indexes (app/core/case_store.py)
    record the attempts of each case. */
module Ledger {
  import opened Models
  import opened CaseMachine
  import opened CaseRuns
  import opened TrailMonitor
  import opened Slots

  type PaymentId = string
  type AttemptKey = (CaseId, int)

  datatype FailureEvent = FailureEvent(caseId: CaseId, attemptNumber: int, paymentId: PaymentId, amount: int)

  /** The part of the store the webhook reads and writes, audit trails aside. */
  datatype Books = Books(
    cases: map<CaseId, CaseRecord>,
    failures: map<AttemptKey, FailureEvent>,
    byPayment: map<PaymentId, AttemptKey>,
    byMandate: map<string, CaseId>)

  const BLANK: Books := Books(map[], map[], map[], map[])

  /** One parsed payment.failed delivery; an absent mandate note is the empty text. */
  datatype Delivery = Delivery(
    paymentId: PaymentId, mandateId: string, instrumentId: string, amount: int, category: string,
    business: bool, isControl: bool)

  datatype Answer = Accepted | Duplicate | MissingPaymentId | MandateTaken

  /** The attempts recorded for a case are exactly 1..n. */
  ghost predicate Attempts(b: Books, c: CaseId, n: nat) {
    forall m :: (c, m) in b.failures <==> 1 <= m <= n
  }

  /** The cases and the failures: every case was opened by the payment it is named after, and its
      attempts have no gap. */
  ghost predicate CasesKept(b: Books) {
    && (forall c :: c in b.cases ==>
          c != "" && b.cases[c].caseId == c && (c, 1) in b.failures && b.failures[(c, 1)].paymentId == c)
    && (forall k :: k in b.failures ==> k.0 in b.cases && 1 <= k.1)
    && (forall c :: c in b.cases ==> exists n: nat :: Attempts(b, c, n))
  }

  /** The payment index is the inverse of the failure map. */
  predicate PaymentsInverse(b: Books) {
    && (forall k :: k in b.failures ==>
          && b.failures[k].caseId == k.0 && b.failures[k].attemptNumber == k.1
          && b.failures[k].paymentId in b.byPayment && b.byPayment[b.failures[k].paymentId] == k)
    && (forall p :: p in b.byPayment ==> b.byPayment[p] in b.failures && b.failures[b.byPayment[p]].paymentId == p)
  }

  /** The mandate index is the inverse of the cases' mandates. */
  predicate MandatesInverse(b: Books) {
    && (forall c :: c in b.cases ==> b.cases[c].mandateId != "" && b.cases[c].mandateId in b.byMandate &&
                                     b.byMandate[b.cases[c].mandateId] == c)
    && (forall m :: m in b.byMandate ==> b.byMandate[m] in b.cases && b.cases[b.byMandate[m]].mandateId == m)
  }

  ghost predicate Balanced(b: Books) {
    CasesKept(b) && PaymentsInverse(b) && MandatesInverse(b)
  }

  // ---- One delivery ---------------------------------------------------------------------------------

  function ExistingCase(b: Books, d: Delivery): Option<CaseRecord> {
    if d.mandateId != "" && d.mandateId in b.byMandate && b.byMandate[d.mandateId] in b.cases
    then Some(b.cases[b.byMandate[d.mandateId]]) else None
  }

  function AsNewFailure(d: Delivery): NewFailure {
    NewFailure(d.paymentId, d.mandateId, d.instrumentId, d.amount, d.category, d.business, d.isControl)
  }

  /** The case after the handler ran. */
  function Handled(existing: Option<CaseRecord>, d: Delivery, cfg: Config, now: Instant, clock: Clock): Outcome
    requires ValidConfig(cfg)
  {
    if existing.Some? then AfterFailure(existing.value, d.business, cfg, now)
    else Opened(AsNewFailure(d), cfg, now, clock)
  }

  /** `create_case` or `update_case` alone. */
  function WithCase(b: Books, rec: CaseRecord): Books {
    b.(cases := b.cases[rec.caseId := rec], byMandate := b.byMandate[rec.mandateId := rec.caseId])
  }

  /** `create_case` or `update_case`, then `record_failure`. */
  function Recorded(b: Books, rec: CaseRecord, attempt: int, d: Delivery): Books {
    var event := FailureEvent(rec.caseId, attempt, d.paymentId, d.amount);
    Books(b.cases[rec.caseId := rec], b.failures[(rec.caseId, attempt) := event],
          b.byPayment[d.paymentId := (rec.caseId, attempt)], b.byMandate[rec.mandateId := rec.caseId])
  }

  /** The highest attempt of the case a delivery belongs to; 0 when it opens one. */
  ghost function HighestAttempt(b: Books, d: Delivery): (n: nat)
    ensures Balanced(b) && ExistingCase(b, d).Some? ==> 1 <= n && Attempts(b, ExistingCase(b, d).value.caseId, n)
  {
    if ExistingCase(b, d).None? then 0
    else
      var c := ExistingCase(b, d).value.caseId;
      if exists n: nat :: Attempts(b, c, n) then
        var n: nat :| Attempts(b, c, n);
        assert Balanced(b) ==> (c, 1) in b.failures;
        n
      else 0
  }

  /** What one delivery does. */
  ghost function Ingested(b: Books, d: Delivery, cfg: Config, now: Instant, clock: Clock): (Books, Answer)
    requires ValidConfig(cfg)
  {
    var rec := Handled(ExistingCase(b, d), d, cfg, now, clock).rec;
    if d.paymentId == "" then (b, MissingPaymentId)
    else if d.paymentId in b.byPayment then (b, Duplicate)
    else if ExistingCase(b, d).None? && rec.mandateId in b.byMandate then (b, MandateTaken)
    else (Recorded(b, rec, HighestAttempt(b, d) + 1, d), Accepted)
  }

  lemma NewIsIngested(b: Books, d: Delivery, cfg: Config, now: Instant, clock: Clock)
    requires ValidConfig(cfg) && d.paymentId != "" && d.paymentId !in b.byPayment
    ensures var rec := Handled(ExistingCase(b, d), d, cfg, now, clock).rec;
            Ingested(b, d, cfg, now, clock) ==
              if ExistingCase(b, d).None? && rec.mandateId in b.byMandate then (b, MandateTaken)
              else (Recorded(b, rec, HighestAttempt(b, d) + 1, d), Accepted)
  {
  }

  lemma HandledKeepsIdentity(existing: Option<CaseRecord>, d: Delivery, cfg: Config, now: Instant, clock: Clock)
    requires ValidConfig(cfg)
    ensures var rec := Handled(existing, d, cfg, now, clock).rec;
            if existing.Some? then rec.caseId == existing.value.caseId && rec.mandateId == existing.value.mandateId
            else rec.caseId == d.paymentId && rec.mandateId == (if d.mandateId != "" then d.mandateId else d.paymentId)
  {
  }

  /** The id of the case a delivery belongs to or opens. */
  function CaseOf(b: Books, d: Delivery): CaseId {
    if ExistingCase(b, d).Some? then ExistingCase(b, d).value.caseId else d.paymentId
  }

  /** The handler's entries are for that case. */
  lemma HandledEntriesAreOwn(b: Books, d: Delivery, cfg: Config, now: Instant, clock: Clock)
    requires ValidConfig(cfg)
    ensures var o := Handled(ExistingCase(b, d), d, cfg, now, clock);
            Own(o.entries, CaseOf(b, d)) && o.rec.caseId == CaseOf(b, d)
  {
  }

  /** An attempt may be recorded: it is the next one of its case, or the first of a case not on file. */
  ghost predicate IsNext(b: Books, c: CaseId, attempt: int, p: PaymentId) {
    if c in b.cases then attempt >= 2 && Attempts(b, c, attempt - 1) else attempt == 1 && c == p
  }

  /** Recording it, the case's attempts stay without a gap, and so do the others'. */
  lemma RecordingKeepsAttempts(b: Books, rec: CaseRecord, attempt: int, d: Delivery)
    requires CasesKept(b) && IsNext(b, rec.caseId, attempt, d.paymentId)
    ensures Attempts(Recorded(b, rec, attempt, d), rec.caseId, attempt)
    ensures forall c, n: nat :: c != rec.caseId && Attempts(b, c, n) ==> Attempts(Recorded(b, rec, attempt, d), c, n)
  {
  }

  lemma RecordingKeepsCases(b: Books, rec: CaseRecord, attempt: int, d: Delivery)
    requires CasesKept(b) && d.paymentId != "" && IsNext(b, rec.caseId, attempt, d.paymentId)
    ensures CasesKept(Recorded(b, rec, attempt, d))
  {
    var t := Recorded(b, rec, attempt, d);
    RecordingKeepsAttempts(b, rec, attempt, d);
    forall c | c in t.cases ensures exists n: nat :: Attempts(t, c, n) {
      if c == rec.caseId {
        assert Attempts(t, c, attempt);
      } else {
        var n: nat :| Attempts(b, c, n);
      }
    }
  }

  lemma RecordingKeepsPayments(b: Books, rec: CaseRecord, attempt: int, d: Delivery)
    requires PaymentsInverse(b) && d.paymentId !in b.byPayment && (rec.caseId, attempt) !in b.failures
    ensures PaymentsInverse(Recorded(b, rec, attempt, d))
  {
  }

  lemma RecordingKeepsMandates(b: Books, rec: CaseRecord, attempt: int, d: Delivery)
    requires MandatesInverse(b) && rec.mandateId != ""
    requires if rec.caseId in b.cases then b.cases[rec.caseId].mandateId == rec.mandateId
             else rec.mandateId !in b.byMandate
    ensures MandatesInverse(Recorded(b, rec, attempt, d))
  {
  }

  lemma IngestKeepsBalance(b: Books, d: Delivery, cfg: Config, now: Instant, clock: Clock)
    requires ValidConfig(cfg) && Balanced(b)
    ensures Balanced(Ingested(b, d, cfg, now, clock).0)
  {
    if Ingested(b, d, cfg, now, clock).1 == Accepted {
      var existing := ExistingCase(b, d);
      HandledKeepsIdentity(existing, d, cfg, now, clock);
      NewCaseIsNew(b, d);
      var rec := Handled(existing, d, cfg, now, clock).rec;
      var attempt := HighestAttempt(b, d) + 1;
      NextAttemptIsFree(b, d, rec.caseId);
      RecordingKeepsCases(b, rec, attempt, d);
      RecordingKeepsPayments(b, rec, attempt, d);
      RecordingKeepsMandates(b, rec, attempt, d);
    }
  }

  /** The next attempt of a case is not on file, whether the case is or not. */
  lemma NextAttemptIsFree(b: Books, d: Delivery, c: CaseId)
    requires Balanced(b)
    requires if ExistingCase(b, d).Some? then c == ExistingCase(b, d).value.caseId else c !in b.cases
    ensures (c, HighestAttempt(b, d) + 1) !in b.failures
    ensures c in b.cases <==> ExistingCase(b, d).Some?
  {
  }

  /** A payment id not on file never names a case on file: creation never meets an existing case id. */
  lemma NewCaseIsNew(b: Books, d: Delivery)
    requires Balanced(b) && d.paymentId !in b.byPayment
    ensures d.paymentId !in b.cases
  {
    assert forall c :: c in b.cases ==> (c, 1) in b.failures && c in b.byPayment;
  }

  // ---- The other writers ----------------------------------------------------------------------------

  /** The record any other caller of `update_case` writes: new contents under the same id and mandate. */
  function Rewritten(b: Books, c: CaseId, contents: CaseRecord): CaseRecord
    requires c in b.cases
  {
    contents.(caseId := b.cases[c].caseId, mandateId := b.cases[c].mandateId)
  }

  /** An update of a case; of one not on file it raises and changes nothing. */
  function Updated(b: Books, c: CaseId, contents: CaseRecord): Books {
    if c !in b.cases then b else WithCase(b, Rewritten(b, c, contents))
  }

  /** On balanced books an update touches the one record. */
  lemma UpdateTouchesOne(b: Books, c: CaseId, contents: CaseRecord)
    requires Balanced(b) && c in b.cases
    ensures Updated(b, c, contents) == b.(cases := b.cases[c := Rewritten(b, c, contents)])
  {
    assert b.byMandate[b.cases[c].mandateId := c] == b.byMandate;
  }

  lemma UpdateKeepsBalance(b: Books, c: CaseId, contents: CaseRecord)
    requires Balanced(b)
    ensures Balanced(Updated(b, c, contents))
  {
    if c in b.cases {
      UpdateTouchesOne(b, c, contents);
      UpdateKeepsCases(b, c, Rewritten(b, c, contents));
    }
  }

  lemma UpdateKeepsCases(b: Books, c: CaseId, rec: CaseRecord)
    requires Balanced(b) && c in b.cases && rec.caseId == c && rec.mandateId == b.cases[c].mandateId
    ensures var t := b.(cases := b.cases[c := rec]); CasesKept(t) && PaymentsInverse(t) && MandatesInverse(t)
  {
    var t := b.(cases := b.cases[c := rec]);
    forall d | d in t.cases ensures exists n: nat :: Attempts(t, d, n) {
      var n: nat :| Attempts(b, d, n);
      assert Attempts(t, d, n);
    }
  }

  /** Every handler, trigger and resolution is such an update, and so is reconciliation. */
  lemma CallsAreUpdates(b: Books, s: Sys, e: Event, cfg: Config, calendar: Calendar)
    requires ValidConfig(cfg) && s.rec.caseId in b.cases && b.cases[s.rec.caseId] == s.rec
    ensures var rec := Step(s, e, cfg, calendar).rec; Rewritten(b, s.rec.caseId, rec) == rec
    ensures var rec := s.rec.(state := RetryExecuted); Rewritten(b, s.rec.caseId, rec) == rec
  {
  }

  // ---- The simulation endpoint ----------------------------------------------------------------------

  /** A new case is created or an old one updated, each of which may be refused; then the failure is
      recorded, which may be refused too, with the case already stored. */
  function Tried(b: Books, isNew: bool, rec: CaseRecord, attempt: int, d: Delivery): (Books, bool) {
    if isNew && (rec.caseId in b.cases || rec.mandateId in b.byMandate) then (b, false)
    else if (rec.caseId, attempt) in b.failures || d.paymentId in b.byPayment then (WithCase(b, rec), false)
    else (Recorded(b, rec, attempt, d), true)
  }

  /** The demo endpoint ingests without looking the payment up first; the answer is whether it was accepted. */
  ghost function Simulated(b: Books, d: Delivery, cfg: Config, now: Instant, clock: Clock): (Books, bool)
    requires ValidConfig(cfg)
  {
    if d.paymentId == "" then (b, false)
    else
      var existing := ExistingCase(b, d);
      Tried(b, existing.None?, Handled(existing, d, cfg, now, clock).rec, HighestAttempt(b, d) + 1, d)
  }

  /** The delivery that makes trouble: it opens a case for a payment on file as a later attempt of another. */
  predicate Strays(b: Books, d: Delivery) {
    && d.paymentId != "" && d.paymentId in b.byPayment && d.paymentId !in b.cases
    && ExistingCase(b, d).None?
    && (if d.mandateId != "" then d.mandateId else d.paymentId) !in b.byMandate
  }

  /** For a payment not on file the endpoint does what the webhook does. */
  lemma SimulatedNewIsIngested(b: Books, d: Delivery, cfg: Config, now: Instant, clock: Clock)
    requires ValidConfig(cfg) && Balanced(b) && d.paymentId !in b.byPayment
    ensures Simulated(b, d, cfg, now, clock).0 == Ingested(b, d, cfg, now, clock).0
    ensures Simulated(b, d, cfg, now, clock).1 <==> Ingested(b, d, cfg, now, clock).1 == Accepted
    ensures d.paymentId != "" && !Simulated(b, d, cfg, now, clock).1 ==>
              Ingested(b, d, cfg, now, clock).1 == MandateTaken
  {
    if d.paymentId != "" {
      NewIsIngested(b, d, cfg, now, clock);
      NewCaseIsNew(b, d);
      HandledKeepsIdentity(ExistingCase(b, d), d, cfg, now, clock);
      NextAttemptIsFree(b, d, Handled(ExistingCase(b, d), d, cfg, now, clock).rec.caseId);
    }
  }

  /** A payment on file is never accepted: its case is updated all the same, or a stray case is opened. */
  lemma SimulatedAgain(b: Books, d: Delivery, cfg: Config, now: Instant, clock: Clock)
    requires ValidConfig(cfg) && Balanced(b) && d.paymentId != "" && d.paymentId in b.byPayment
    ensures var existing := ExistingCase(b, d);
            var rec := Handled(existing, d, cfg, now, clock).rec;
            Simulated(b, d, cfg, now, clock) ==
              if existing.Some? then (Updated(b, existing.value.caseId, rec), false)
              else if Strays(b, d) then (WithCase(b, rec), false)
              else (b, false)
  {
    HandledKeepsIdentity(ExistingCase(b, d), d, cfg, now, clock);
  }

  lemma StrayUnbalances(b: Books, d: Delivery, rec: CaseRecord)
    requires Balanced(b) && Strays(b, d) && rec.caseId == d.paymentId
    ensures !Balanced(WithCase(b, rec))
  {
    var t := WithCase(b, rec);
    assert rec.caseId in t.cases && (rec.caseId, 1) !in t.failures;
  }

  /** The endpoint keeps the books balanced exactly if the delivery does not stray; otherwise it leaves a
      case without any attempt. */
  lemma SimulatedBalancesExactly(b: Books, d: Delivery, cfg: Config, now: Instant, clock: Clock)
    requires ValidConfig(cfg) && Balanced(b)
    ensures Balanced(Simulated(b, d, cfg, now, clock).0) <==> !Strays(b, d)
  {
    var existing := ExistingCase(b, d);
    var rec := Handled(existing, d, cfg, now, clock).rec;
    if d.paymentId !in b.byPayment {
      SimulatedNewIsIngested(b, d, cfg, now, clock);
      IngestKeepsBalance(b, d, cfg, now, clock);
    } else if d.paymentId != "" {
      SimulatedAgain(b, d, cfg, now, clock);
      if existing.Some? {
        UpdateKeepsBalance(b, existing.value.caseId, rec);
      } else if Strays(b, d) {
        HandledKeepsIdentity(existing, d, cfg, now, clock);
        StrayUnbalances(b, d, rec);
      }
    }
  }

  // ---- Every history --------------------------------------------------------------------------------

  /** What reaches the store: a failure webhook, or anyone else's update of a case. */
  datatype Arrival =
    | Failed(delivery: Delivery, now: Instant)
    | Written(caseId: CaseId, contents: CaseRecord)

  ghost function Arrived(b: Books, a: Arrival, cfg: Config, clock: Clock): Books
    requires ValidConfig(cfg)
  {
    match a
    case Failed(delivery, now) => Ingested(b, delivery, cfg, now, clock).0
    case Written(c, contents) => Updated(b, c, contents)
  }

  /** The books after a history of webhooks and updates in any order. */
  ghost function History(arrivals: seq<Arrival>, cfg: Config, clock: Clock): Books
    requires ValidConfig(cfg)
    decreases |arrivals|
  {
    if arrivals == [] then BLANK
    else
      var n := |arrivals| - 1;
      Arrived(History(arrivals[..n], cfg, clock), arrivals[n], cfg, clock)
  }

  lemma {:induction false} HistoryBalances(arrivals: seq<Arrival>, cfg: Config, clock: Clock)
    requires ValidConfig(cfg)
    ensures Balanced(History(arrivals, cfg, clock))
    decreases |arrivals|
  {
    if arrivals == [] {
    } else {
      var n := |arrivals| - 1;
      var before := History(arrivals[..n], cfg, clock);
      HistoryBalances(arrivals[..n], cfg, clock);
      match arrivals[n]
      case Failed(delivery, now) => IngestKeepsBalance(before, delivery, cfg, now, clock);
      case Written(c, contents) => UpdateKeepsBalance(before, c, contents);
    }
  }

  /** Over every history: each case on file has exactly the attempts 1..n for some n of at least one, and
      the two indexes are the inverses of the maps they index. */
  lemma EveryHistoryBalances(arrivals: seq<Arrival>, cfg: Config, clock: Clock)
    requires ValidConfig(cfg)
    ensures var b := History(arrivals, cfg, clock);
            && (forall c :: c in b.cases ==> exists n: nat :: 1 <= n && Attempts(b, c, n))
            && PaymentsInverse(b) && MandatesInverse(b)
  {
    HistoryBalances(arrivals, cfg, clock);
    BalancedHasAttempts(History(arrivals, cfg, clock));
  }

  lemma BalancedHasAttempts(b: Books)
    requires CasesKept(b)
    ensures forall c :: c in b.cases ==> exists n: nat :: 1 <= n && Attempts(b, c, n)
  {
    forall c | c in b.cases ensures exists n: nat :: 1 <= n && Attempts(b, c, n) {
      var n: nat :| Attempts(b, c, n);
      assert (c, 1) in b.failures;
    }
  }

  /** What a delivery is answered, exactly: the mandate conflict strikes only a payment without a mandate
      note whose own id someone used as a mandate; no other delivery of a new payment id is refused. */
  lemma AnsweredExactly(b: Books, d: Delivery, cfg: Config, now: Instant, clock: Clock)
    requires ValidConfig(cfg) && Balanced(b)
    ensures var (t, answer) := Ingested(b, d, cfg, now, clock);
            && (answer == MissingPaymentId <==> d.paymentId == "")
            && (answer == Duplicate <==> d.paymentId != "" && d.paymentId in b.byPayment)
            && (answer == MandateTaken <==>
                  d.paymentId != "" && d.paymentId !in b.byPayment && d.mandateId == "" && d.paymentId in b.byMandate)
            && (answer != Accepted ==> t == b)
  {
    HandledKeepsIdentity(ExistingCase(b, d), d, cfg, now, clock);
  }

  /** An accepted delivery adds one failure under a key that was free, and disturbs no other. */
  lemma AcceptedAddsOne(b: Books, d: Delivery, cfg: Config, now: Instant, clock: Clock)
    requires ValidConfig(cfg) && Balanced(b) && Ingested(b, d, cfg, now, clock).1 == Accepted
    ensures var t := Ingested(b, d, cfg, now, clock).0;
            && d.paymentId in t.byPayment
            && var key := t.byPayment[d.paymentId];
               && key.0 == CaseOf(b, d)
               && (if ExistingCase(b, d).Some? then 1 < key.1 && Attempts(b, key.0, key.1 - 1) else key.1 == 1)
               && key !in b.failures
               && t.failures == b.failures[key := FailureEvent(key.0, key.1, d.paymentId, d.amount)]
  {
    HandledKeepsIdentity(ExistingCase(b, d), d, cfg, now, clock);
    NewCaseIsNew(b, d);
    NextAttemptIsFree(b, d, Handled(ExistingCase(b, d), d, cfg, now, clock).rec.caseId);
  }

  /** And it opens its case with what it says, or leaves its case to the handler of failures; no other case
      changes. */
  lemma AcceptedHandlesOne(b: Books, d: Delivery, cfg: Config, now: Instant, clock: Clock)
    requires ValidConfig(cfg) && Balanced(b) && Ingested(b, d, cfg, now, clock).1 == Accepted
    ensures var t, c, existing := Ingested(b, d, cfg, now, clock).0, CaseOf(b, d), ExistingCase(b, d);
            && c in t.cases && t.cases == b.cases[c := t.cases[c]]
            && (if existing.Some? then t.cases[c] == AfterFailure(existing.value, d.business, cfg, now).rec
                else
                  && t.cases[c].mandateId == (if d.mandateId != "" then d.mandateId else d.paymentId)
                  && t.cases[c].instrumentId == d.instrumentId && t.cases[c].originalAmount == d.amount
                  && t.cases[c].openedAt == now
                  && t.cases[c].bucket == Some(if d.isControl then ControlBucket else TreatmentBucket))
  {
    HandledKeepsIdentity(ExistingCase(b, d), d, cfg, now, clock);
  }

  predicate SameEntry(early: Books, late: Books, p: PaymentId) {
    p in early.byPayment && p in late.byPayment && late.byPayment[p] == early.byPayment[p]
  }

  lemma ArrivalKeepsPayments(early: Books, b: Books, more: Arrival, cfg: Config, clock: Clock, p: PaymentId)
    requires ValidConfig(cfg) && SameEntry(early, b, p)
    ensures SameEntry(early, Arrived(b, more, cfg, clock), p)
  {
  }

  /** A history one arrival longer. */
  lemma HistoryGrows(arrivals: seq<Arrival>, more: Arrival, cfg: Config, clock: Clock)
    requires ValidConfig(cfg)
    ensures History(arrivals + [more], cfg, clock) == Arrived(History(arrivals, cfg, clock), more, cfg, clock)
  {
    assert (arrivals + [more])[..|arrivals|] == arrivals;
  }

  lemma {:induction false} PaymentsPersist(start: seq<Arrival>, more: seq<Arrival>, p: PaymentId,
                                           cfg: Config, clock: Clock)
    requires ValidConfig(cfg) && p in History(start, cfg, clock).byPayment
    ensures SameEntry(History(start, cfg, clock), History(start + more, cfg, clock), p)
    decreases |more|
  {
    if more == [] {
      assert start + more == start;
    } else {
      var n := |more| - 1;
      var shorter := start + more[..n];
      assert start + more == shorter + [more[n]];
      PaymentsPersist(start, more[..n], p, cfg, clock);
      HistoryGrows(shorter, more[n], cfg, clock);
      ArrivalKeepsPayments(History(start, cfg, clock), History(shorter, cfg, clock), more[n], cfg, clock, p);
    }
  }

  /** A payment recorded at any point of a history stays where it was recorded, and delivering it again
      at the end, whatever else the delivery says, changes nothing. */
  lemma RedeliveryChangesNothing(start: seq<Arrival>, more: seq<Arrival>, d: Delivery, now: Instant,
                                 cfg: Config, clock: Clock)
    requires ValidConfig(cfg) && d.paymentId != "" && d.paymentId in History(start, cfg, clock).byPayment
    ensures var b := History(start + more, cfg, clock);
            Ingested(b, d, cfg, now, clock) == (b, Duplicate) && SameEntry(History(start, cfg, clock), b, d.paymentId)
  {
    PaymentsPersist(start, more, d.paymentId, cfg, clock);
  }

  /** The failure of a retry is among the histories: a case on file, written as executed, takes the next
      failure of its mandate as the outcome of that retry. */
  lemma RetryFailureIsCounted(arrivals: seq<Arrival>, d: Delivery, contents: CaseRecord, now: Instant,
                              cfg: Config, clock: Clock)
    requires ValidConfig(cfg) && contents.state == RetryExecuted
    requires var b := History(arrivals, cfg, clock);
             d.paymentId != "" && d.paymentId !in b.byPayment && ExistingCase(b, d).Some?
    ensures var c := ExistingCase(History(arrivals, cfg, clock), d).value.caseId;
            var before := History(arrivals + [Written(c, contents)], cfg, clock);
            var after := History(arrivals + [Written(c, contents)] + [Failed(d, now)], cfg, clock);
            && c in after.cases && after.cases[c].retriesUsed == contents.retriesUsed + 1
            && after.failures.Keys == before.failures.Keys + {(c, HighestAttempt(before, d) + 1)}
  {
    var b := History(arrivals, cfg, clock);
    HistoryBalances(arrivals, cfg, clock);
    var c := ExistingCase(b, d).value.caseId;
    HistoryGrows(arrivals, Written(c, contents), cfg, clock);
    HistoryGrows(arrivals + [Written(c, contents)], Failed(d, now), cfg, clock);
    UpdateTouchesOne(b, c, contents);
    var before := Updated(b, c, contents);
    RetryFailed(before, d, c, cfg, now, clock);
  }

  lemma RetryFailed(b: Books, d: Delivery, c: CaseId, cfg: Config, now: Instant, clock: Clock)
    requires ValidConfig(cfg) && d.paymentId != "" && d.paymentId !in b.byPayment
    requires c in b.cases && b.cases[c].caseId == c && ExistingCase(b, d) == Some(b.cases[c])
    requires b.cases[c].state == RetryExecuted
    ensures var t := Ingested(b, d, cfg, now, clock).0;
            && c in t.cases && t.cases[c].retriesUsed == b.cases[c].retriesUsed + 1
            && t.failures.Keys == b.failures.Keys + {(c, HighestAttempt(b, d) + 1)}
  {
  }
}

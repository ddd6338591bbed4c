/** The execute endpoint and the reconciliation loops of the service (app/main.py), in place. */
module Service {
  import opened Models
  import opened CaseMachine
  import opened CommitKeys
  import opened Reconciliation
  import opened ExecutionProtocol

  datatype Response = Ok | Conflict | NotFound

  predicate SeenIn(scan: seq<Effect>, c: CaseId) {
    exists j :: 0 <= j < |scan| && scan[j].caseId == c
  }

  /** The cases a scan has to heal. */
  function Stale(cases: map<CaseId, CaseRecord>, scan: seq<Effect>): set<CaseId> {
    set c | c in cases && cases[c].state != RetryExecuted && SeenIn(scan, c)
  }

  lemma ScanSeesExactly(sh: Shared, scan: seq<Effect>, c: CaseId)
    requires WellFiled(sh) && IsScan(scan, sh.log)
    ensures SeenIn(scan, c) <==> HasCommit(sh.log, c)
  {
    if HasCommit(sh.log, c) {
      var k :| k in sh.log && k.0 == c;
      assert sh.log[k] in scan;
    }
    if SeenIn(scan, c) {
      var j :| 0 <= j < |scan| && scan[j].caseId == c;
      assert scan[j] in scan;
    }
  }

  /** What a key of the commit log may hold: the effect `commit_effect` wrote, or the bare reference
      `commit` wrote, on which the scans raise. */
  datatype LogValue = Encoded(effect: Effect) | Reference(text: string)

  /** The effects a scan gets to see: those before the first value that raises. */
  function Readable(values: seq<LogValue>): (r: seq<Effect>)
    ensures |r| <= |values|
  {
    if values == [] || values[0].Reference? then [] else [values[0].effect] + Readable(values[1..])
  }

  function Encodings(scan: seq<Effect>): (r: seq<LogValue>)
    ensures |r| == |scan| && forall i :: 0 <= i < |scan| ==> r[i] == Encoded(scan[i])
  {
    seq(|scan|, i requires 0 <= i < |scan| => Encoded(scan[i]))
  }

  lemma {:induction false} ReadableUpTo(scan: seq<Effect>, rest: seq<LogValue>)
    requires rest == [] || rest[0].Reference?
    ensures Readable(Encodings(scan) + rest) == scan
  {
    var values := Encodings(scan) + rest;
    if scan == [] {
      assert values == rest;
    } else {
      assert values[0] == Encoded(scan[0]) && values[1..] == Encodings(scan[1..]) + rest;
      ReadableUpTo(scan[1..], rest);
      assert scan == [scan[0]] + scan[1..];
    }
  }

  /** The scan of the keys under a case's prefix, in whatever order, on a log of effects. */
  ghost predicate IsPrefixScan(values: seq<LogValue>, log: map<Key, Effect>, c: CaseId) {
    forall v :: v in values <==>
      exists k :: k in log && StartsWith(KeyFor(k.0, k.1), CasePrefix(c)) && v == Encoded(log[k])
  }

  /** What such a scan finds: the case's commits, and those of any id that continues this one with a slash. */
  predicate Found(log: map<Key, Effect>, c: CaseId) {
    exists k :: k in log && (k.0 == c || CommitKeys.Continues(k.0, c))
  }

  lemma PrefixScanFinds(values: seq<LogValue>, sh: Shared, c: CaseId)
    requires WellFiled(sh) && IsPrefixScan(values, sh.log, c)
    ensures Readable(values) != [] <==> Found(sh.log, c)
    ensures AllExecuted(Readable(values))
  {
    if values != [] {
      assert values[0] in values;
      var k :| k in sh.log && StartsWith(KeyFor(k.0, k.1), CasePrefix(c)) && values[0] == Encoded(sh.log[k]);
      ScanReturnsExactly(c, k.0, k.1);
    }
    if Found(sh.log, c) {
      var k :| k in sh.log && (k.0 == c || CommitKeys.Continues(k.0, c));
      ScanReturnsExactly(c, k.0, k.1);
      assert Encoded(sh.log[k]) in values;
    }
    forall i | 0 <= i < |Readable(values)| ensures Readable(values)[i].toState == RetryExecuted {
      ReadableIsStored(values, i);
    }
  }

  lemma {:induction false} ReadableIsStored(values: seq<LogValue>, i: nat)
    requires i < |Readable(values)|
    ensures Encoded(Readable(values)[i]) in values
  {
    if i == 0 {
      assert values[0] in values;
    } else {
      ReadableIsStored(values[1..], i - 1);
    }
  }

  lemma SeenInAppend(scan: seq<Effect>, e: Effect)
    ensures forall c :: SeenIn(scan + [e], c) <==> SeenIn(scan, c) || e.caseId == c
  {
    var longer := scan + [e];
    assert longer[|scan|] == e;
    forall c ensures SeenIn(longer, c) <==> SeenIn(scan, c) || e.caseId == c {
      if SeenIn(scan, c) {
        var j :| 0 <= j < |scan| && scan[j].caseId == c;
        assert longer[j].caseId == c;
      }
    }
  }

  // ---- The reconciliation loop, one effect after the other ------------------------------------------

  predicate HealsNow(sh: Shared, e: Effect) {
    e.caseId in sh.cases && sh.cases[e.caseId].state != e.toState
  }

  function HealStep(sh: Shared, e: Effect, now: Instant): Shared {
    if HealsNow(sh, e) then ApplyTo(sh, sh.cases[e.caseId], e, now) else sh
  }

  function HealAll(sh: Shared, scan: seq<Effect>, now: Instant): Shared {
    if scan == [] then sh else HealStep(HealAll(sh, scan[..|scan| - 1], now), scan[|scan| - 1], now)
  }

  function HealCount(sh: Shared, scan: seq<Effect>, now: Instant): nat {
    if scan == [] then 0
    else
      var front := scan[..|scan| - 1];
      HealCount(sh, front, now) + (if HealsNow(HealAll(sh, front, now), scan[|scan| - 1]) then 1 else 0)
  }

  lemma HealOneMore(sh: Shared, scan: seq<Effect>, e: Effect, now: Instant)
    ensures HealAll(sh, scan + [e], now) == HealStep(HealAll(sh, scan, now), e, now)
    ensures HealCount(sh, scan + [e], now) == HealCount(sh, scan, now)
                                              + (if HealsNow(HealAll(sh, scan, now), e) then 1 else 0)
  {
    assert (scan + [e])[..|scan|] == scan;
  }

  predicate AllExecuted(scan: seq<Effect>) {
    forall i :: 0 <= i < |scan| ==> scan[i].toState == RetryExecuted
  }

  lemma {:induction false} HealAllRecords(sh: Shared, scan: seq<Effect>, now: Instant)
    requires WellFiled(sh) && AllExecuted(scan)
    ensures var t := HealAll(sh, scan, now);
            && t.cases.Keys == sh.cases.Keys && t.log == sh.log && t.pending == sh.pending
            && forall c :: c in sh.cases ==> t.cases[c] == Pulled(sh.cases[c], SeenIn(scan, c))
  {
    if scan == [] {
    } else {
      var front, e := scan[..|scan| - 1], scan[|scan| - 1];
      assert scan == front + [e];
      HealAllRecords(sh, front, now);
      SeenInAppend(front, e);
    }
  }

  lemma {:induction false} HealAllTrail(sh: Shared, scan: seq<Effect>, now: Instant, c: CaseId)
    requires WellFiled(sh) && AllExecuted(scan)
    ensures Trail(HealAll(sh, scan, now), c) ==
            if c in sh.cases then PulledTrail(Trail(sh, c), sh.cases[c], SeenIn(scan, c), now) else Trail(sh, c)
  {
    if scan == [] {
    } else {
      var front, e := scan[..|scan| - 1], scan[|scan| - 1];
      assert scan == front + [e];
      HealAllTrail(sh, front, now, c);
      HealAllRecords(sh, front, now);
      SeenInAppend(front, e);
    }
  }

  predicate NewlyStale(cases: map<CaseId, CaseRecord>, front: seq<Effect>, c: CaseId) {
    c in cases && cases[c].state != RetryExecuted && !SeenIn(front, c)
  }

  lemma StaleGrows(cases: map<CaseId, CaseRecord>, front: seq<Effect>, e: Effect)
    ensures |Stale(cases, front + [e])| == |Stale(cases, front)| + if NewlyStale(cases, front, e.caseId) then 1 else 0
  {
    SeenInAppend(front, e);
    var before, after := Stale(cases, front), Stale(cases, front + [e]);
    if NewlyStale(cases, front, e.caseId) {
      assert after == before + {e.caseId} && e.caseId !in before;
    } else {
      assert after == before;
    }
  }

  lemma HealsIfNewlyStale(sh: Shared, front: seq<Effect>, e: Effect, now: Instant)
    requires WellFiled(sh) && AllExecuted(front) && e.toState == RetryExecuted
    ensures HealsNow(HealAll(sh, front, now), e) <==> NewlyStale(sh.cases, front, e.caseId)
  {
    HealAllRecords(sh, front, now);
  }

  lemma {:induction false} HealAllCounts(sh: Shared, scan: seq<Effect>, now: Instant)
    requires WellFiled(sh) && AllExecuted(scan)
    ensures HealCount(sh, scan, now) == |Stale(sh.cases, scan)|
  {
    if scan == [] {
      assert Stale(sh.cases, scan) == {};
    } else {
      var front, e := scan[..|scan| - 1], scan[|scan| - 1];
      assert scan == front + [e];
      HealAllCounts(sh, front, now);
      HealsIfNewlyStale(sh, front, e, now);
      StaleGrows(sh.cases, front, e);
    }
  }

  /** The cases a whole scan of the log heals. */
  function StaleIn(sh: Shared): set<CaseId> {
    set c | c in sh.cases && sh.cases[c].state != RetryExecuted && HasCommit(sh.log, c)
  }

  /** Whatever the order of the scan: every known case with a commit ends in RETRY_EXECUTED, every other
      case and trail is untouched, one entry is added per case healed, and they are counted. */
  lemma HealAllIsOrderFree(sh: Shared, scan: seq<Effect>, now: Instant)
    requires WellFiled(sh) && IsScan(scan, sh.log)
    ensures var t := HealAll(sh, scan, now);
            && t.cases == (map c | c in sh.cases :: Pulled(sh.cases[c], HasCommit(sh.log, c)))
            && t.log == sh.log
            && (forall c :: Trail(t, c) == if c in sh.cases
                                           then PulledTrail(Trail(sh, c), sh.cases[c], HasCommit(sh.log, c), now)
                                           else Trail(sh, c))
            && HealCount(sh, scan, now) == |StaleIn(sh)|
  {
    forall i | 0 <= i < |scan| ensures scan[i].toState == RetryExecuted {
      assert scan[i] in scan;
    }
    HealAllRecords(sh, scan, now);
    HealAllCounts(sh, scan, now);
    forall c ensures SeenIn(scan, c) <==> HasCommit(sh.log, c) {
      ScanSeesExactly(sh, scan, c);
    }
    assert Stale(sh.cases, scan) == StaleIn(sh);
    forall c ensures Trail(HealAll(sh, scan, now), c) == if c in sh.cases
      then PulledTrail(Trail(sh, c), sh.cases[c], SeenIn(scan, c), now) else Trail(sh, c)
    {
      HealAllTrail(sh, scan, now, c);
    }
  }

  lemma NothingStaysStale(sh: Shared, scan: seq<Effect>, now: Instant)
    requires WellFiled(sh) && IsScan(scan, sh.log)
    ensures var t := HealAll(sh, scan, now); StaleIn(t) == {} && WellFiled(t) && t.log == sh.log
  {
    HealAllIsOrderFree(sh, scan, now);
    var t := HealAll(sh, scan, now);
    forall c | c in t.cases ensures t.cases[c].state == RetryExecuted || !HasCommit(t.log, c) {
      assert t.cases[c] == Pulled(sh.cases[c], HasCommit(sh.log, c));
    }
  }

  /** A scan changes nothing exactly when no case is stale. */
  lemma HealsNothingExactly(sh: Shared, scan: seq<Effect>, now: Instant)
    requires WellFiled(sh) && IsScan(scan, sh.log)
    ensures HealAll(sh, scan, now).cases == sh.cases <==> StaleIn(sh) == {}
  {
    HealAllIsOrderFree(sh, scan, now);
    var t := HealAll(sh, scan, now);
    if c :| c in StaleIn(sh) {
      assert t.cases[c].state == RetryExecuted;
    } else {
      assert forall c :: c in sh.cases ==> c !in StaleIn(sh);
      assert forall c :: c in sh.cases ==> t.cases[c] == sh.cases[c];
    }
  }

  /** Reconciling again, in any order, changes nothing and counts nothing. */
  lemma HealAllIsIdempotent(sh: Shared, scan: seq<Effect>, again: seq<Effect>, now: Instant, later: Instant)
    requires WellFiled(sh) && IsScan(scan, sh.log) && IsScan(again, sh.log)
    ensures var t := HealAll(sh, scan, now);
            && HealAll(t, again, later).cases == t.cases
            && (forall c :: Trail(HealAll(t, again, later), c) == Trail(t, c))
            && HealCount(t, again, later) == 0
  {
    NothingStaysStale(sh, scan, now);
    NothingToHeal(HealAll(sh, scan, now), again, later);
  }

  lemma NothingToHeal(sh: Shared, scan: seq<Effect>, now: Instant)
    requires WellFiled(sh) && IsScan(scan, sh.log) && StaleIn(sh) == {}
    ensures HealAll(sh, scan, now).cases == sh.cases
    ensures forall c :: Trail(HealAll(sh, scan, now), c) == Trail(sh, c)
    ensures HealCount(sh, scan, now) == 0
  {
    HealsNothingExactly(sh, scan, now);
    HealAllIsOrderFree(sh, scan, now);
    forall c ensures Trail(HealAll(sh, scan, now), c) == Trail(sh, c) {
      assert c !in StaleIn(sh);
    }
  }

  /** One reference in the log, and the outcome depends on where the scan meets it: met first nothing is
      healed, met last everything is. The two agree exactly when there is nothing to heal. */
  lemma OrderMattersExactly(sh: Shared, scan: seq<Effect>, text: string, now: Instant)
    requires WellFiled(sh) && IsScan(scan, sh.log)
    ensures HealAll(sh, Readable([Reference(text)] + Encodings(scan)), now) == sh
    ensures HealAll(sh, Readable(Encodings(scan) + [Reference(text)]), now) == HealAll(sh, scan, now)
    ensures sh.cases == HealAll(sh, scan, now).cases <==> StaleIn(sh) == {}
  {
    assert Readable([Reference(text)] + Encodings(scan)) == [];
    ReadableUpTo(scan, [Reference(text)]);
    HealsNothingExactly(sh, scan, now);
  }

  /** A restart does to a case what is intended exactly if the case has no commit, is executed, or is
      scheduled with its next attempt committed. */
  lemma RestartHealsExactly(sh: Shared, scan: seq<Effect>, c: CaseId, attempts: set<int>, now: Instant)
    requires WellFiled(sh) && IsScan(scan, sh.log) && c in sh.cases && AttemptsOf(sh.log, c, attempts)
    ensures var t := HealAll(sh, scan, now);
            && c in t.cases
            && (t.cases[c] == Healed(sh.cases[c], attempts) <==>
                  || attempts == {}
                  || sh.cases[c].state == RetryExecuted
                  || (sh.cases[c].state == RetryScheduled && sh.cases[c].retriesUsed + 1 in attempts))
  {
    HealAllIsOrderFree(sh, scan, now);
    CommittedAttempts(sh.log, c, attempts);
    if attempts == {} {
      assert sh.cases[c].retriesUsed + 1 !in attempts;
    }
  }

  /** The committed attempts of a case. */
  ghost predicate AttemptsOf(log: map<Key, Effect>, c: CaseId, attempts: set<int>) {
    forall n: int :: n in attempts <==> 0 <= n && (c, n) in log
  }

  lemma CommittedAttempts(log: map<Key, Effect>, c: CaseId, attempts: set<int>)
    requires AttemptsOf(log, c, attempts)
    ensures HasCommit(log, c) <==> attempts != {}
  {
    if HasCommit(log, c) {
      var k :| k in log && k.0 == c;
      assert k == (c, k.1) && k.1 in attempts;
    }
    forall n: int | n in attempts ensures HasCommit(log, c) {
      var k: Key := (c, n);
      assert k in log && k.0 == c;
    }
  }

  /** The endpoint, as one worker taking the protocol's steps in order without interruption. */
  function EndpointRun(sh: Shared, c: CaseId, distressed: bool, at: Instant): Shared {
    var (s1, w1) := BeginStep(sh, c);
    if !w1.HasCase? then s1
    else if distressed then DistressStep(s1, w1.rec, at).0
    else
      var (s2, w2) := PickStep(s1, w1.rec);
      if !w2.Picked? then s2
      else
        var (s3, w3) := DueStep(s2, w2.rec, w2.decision, at);
        if !w3.Ready? then s3
        else
          var (s4, w4) := CommitStep(s3, w3.rec, w3.effect);
          if w4.Lost? then PullCase(s4, c, at)
          else
            var (s5, w5) := ApplyStep(s4, w4.rec, w4.effect);
            if w5.Applied? then LogStep(s5, w5.caseId, at).0 else s5
  }

  class RecoveryService {
    var cases: map<CaseId, CaseRecord>
    var trails: map<CaseId, seq<AuditEntry>>
    var pending: map<CaseId, seq<RetryDecision>>
    var log: map<Key, Effect>

    ghost function Sh(): Shared
      reads this
    {
      Shared(cases, trails, pending, log)
    }

    constructor ()
      ensures Sh() == Shared(map[], map[], map[], map[])
    {
      cases, trails, pending, log := map[], map[], map[], map[];
    }

    method AppendAudit(c: CaseId, e: AuditEntry)
      modifies this`trails
      ensures trails == old(trails)[c := Trail(old(Sh()), c) + [e]]
    {
      trails := trails[c := (if c in trails then trails[c] else []) + [e]];
    }

    method ApplyEffect(rec: CaseRecord, effect: Effect, now: Instant)
      modifies this`cases, this`trails
      ensures Sh() == ApplyTo(old(Sh()), rec, effect, now)
    {
      if rec.state == effect.toState || rec.caseId !in cases {
        return;
      }
      cases := cases[rec.caseId := rec.(state := effect.toState)];
      AppendAudit(rec.caseId, AppliedEntry(rec.caseId, now));
    }

    /** `values` is what the prefix scan of the case's keys returned, in any order. */
    method ReconcileCase(c: CaseId, values: seq<LogValue>, now: Instant)
      requires forall d :: d in cases ==> cases[d].caseId == d
      requires AllExecuted(Readable(values))
      modifies this`cases, this`trails
      ensures Sh() == Pull(old(Sh()), c, Readable(values) != [], now)
    {
      var i := 0;
      while i < |values|
        invariant 0 <= i <= |values|
        invariant i > 0 ==> values[0].Encoded?
        invariant forall e :: e in Readable(values[i..]) ==> e.toState == RetryExecuted
        invariant Sh() == if i == 0 then old(Sh()) else Pull(old(Sh()), c, true, now)
      {
        if values[i].Reference? || c !in cases {
          return;
        }
        assert values[i..][0] == values[i] && values[i..][1..] == values[i + 1..];
        assert Readable(values[i..]) == [values[i].effect] + Readable(values[i + 1..]);
        ApplyEffect(cases[c], values[i].effect, now);
        i := i + 1;
      }
    }

    method ReconcileAll(values: seq<LogValue>, now: Instant) returns (healed: nat)
      modifies this`cases, this`trails
      ensures Sh() == HealAll(old(Sh()), Readable(values), now)
      ensures healed == HealCount(old(Sh()), Readable(values), now)
    {
      healed := 0;
      var i := 0;
      ghost var done: seq<Effect> := [];
      while i < |values|
        invariant 0 <= i <= |values|
        invariant Readable(values) == done + Readable(values[i..])
        invariant Sh() == HealAll(old(Sh()), done, now)
        invariant healed == HealCount(old(Sh()), done, now)
      {
        assert values[i..][0] == values[i] && values[i..][1..] == values[i + 1..];
        if values[i].Reference? {
          assert done + Readable(values[i..]) == done;
          return;
        }
        var effect := values[i].effect;
        HealOneMore(old(Sh()), done, effect, now);
        if effect.caseId in cases {
          var rec := cases[effect.caseId];
          if rec.state != effect.toState {
            ApplyEffect(rec, effect, now);
            healed := healed + 1;
          }
        }
        assert done + Readable(values[i..]) == done + [effect] + Readable(values[i + 1..]);
        done := done + [effect];
        i := i + 1;
      }
      assert done + Readable(values[i..]) == done;
    }

    method ExecuteRetry(c: CaseId, distressed: bool, at: Instant, values: seq<LogValue>) returns (r: Response)
      requires WellFiled(Sh())
      requires IsPrefixScan(values, log, c)
      modifies this
      ensures Sh() == EndpointRun(old(Sh()), c, distressed, at)
      ensures r == Ok <==> exists k :: k in log && k !in old(log)
      ensures r == NotFound <==> c !in old(cases)
    {
      if c !in cases {
        return NotFound;
      }
      var rec := cases[c];
      if rec.state != RetryScheduled {
        return Conflict;
      }
      if distressed {
        cases := cases[c := AfterDistress(rec, at).rec];
        AppendAudit(c, AfterDistress(rec, at).entries[0]);
        return Conflict;
      }
      if c !in pending || pending[c] == [] {
        return Conflict;
      }
      var decision := pending[c][0];
      if at < decision.scheduledAt {
        return Conflict;
      }
      var effect := Effect(c, decision.attemptNumber, RetryExecuted, at);
      if KeyOf(effect) in log {
        PrefixScanFinds(values, Sh(), c);
        assert HasCommit(log, c) && Found(log, c);
        ReconcileCase(c, values, at);
        return Conflict;
      }
      log := log[KeyOf(effect) := effect];
      assert KeyOf(effect) in log && KeyOf(effect) !in old(log);
      ApplyEffect(rec, effect, at);
      return Ok;
    }
  }
}

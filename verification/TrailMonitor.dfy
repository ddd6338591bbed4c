/** One pass over an audit trail: what a reader learns about the case from its entries alone. */
module TrailMonitor {
  import opened Models
  import opened PeakWindows

  /** The transition graph of the state machine (app/core/state_machine.py, app/main.py). */
  predicate Edge(from: State, to: State) {
    match from
    case Received => to == Classified
    case Classified => to == Treatment || to == ControlHeld
    case Treatment => to == Escalated || to == AfaRequired || to == NoticePending
    case NoticePending => to == NoticeSent || to == RecoveredNaturally
    case NoticeSent => to == RetryScheduled || to == RecoveredNaturally
    case RetryScheduled => to == RetryExecuted || to == Throttled || to == Escalated || to == RecoveredNaturally
    case Throttled => to == RetryScheduled || to == RecoveredNaturally
    case RetryExecuted => to == RetryEval || to == Recovered
    case RetryEval => to == NoticePending || to == Escalated
    case Escalated => to == Recovered || to == ResolvedByHuman
    case AfaRequired => to == Recovered
    case ControlHeld => to == ControlRecovered || to == ControlStillFailed
    case _ => false
  }

  type Graph = (State, State) -> bool

  /** A walk through the graph from RECEIVED; an ignored event is logged as a loop on the current state. */
  predicate Walk(trail: seq<AuditEntry>, graph: Graph) {
    forall i :: 0 <= i < |trail| ==> WalkStep(StateAt(trail, i), trail[i], graph)
  }

  predicate WalkStep(at: State, e: AuditEntry, graph: Graph) {
    e.from == at && (graph(e.from, e.to) || e.from == e.to)
  }

  /** The state before entry i. */
  function StateAt(trail: seq<AuditEntry>, i: int): State
    requires 0 <= i <= |trail|
  {
    if i == 0 then Received else trail[i - 1].to
  }

  lemma WalkAppend(trail: seq<AuditEntry>, e: AuditEntry, graph: Graph)
    ensures Walk(trail + [e], graph) <==> Walk(trail, graph) && WalkStep(StateAt(trail, |trail|), e, graph)
  {
    var longer := trail + [e];
    assert longer[|trail|] == e;
    assert StateAt(longer, |trail|) == StateAt(trail, |trail|);
    forall i | 0 <= i < |trail| ensures longer[i] == trail[i] && StateAt(longer, i) == StateAt(trail, i) {
    }
  }

  predicate WalkSteps(at: State, entries: seq<AuditEntry>, graph: Graph)
    requires 1 <= |entries| <= 2
  {
    WalkStep(at, entries[0], graph) && (|entries| == 2 ==> WalkStep(entries[0].to, entries[1], graph))
  }

  lemma WalkMore(trail: seq<AuditEntry>, entries: seq<AuditEntry>, graph: Graph)
    requires Walk(trail, graph) && 1 <= |entries| <= 2
    requires WalkSteps(StateAt(trail, |trail|), entries, graph)
    ensures Walk(trail + entries, graph)
  {
    WalkAppend(trail, entries[0], graph);
    if |entries| == 1 {
      assert trail + entries == trail + [entries[0]];
    } else {
      WalkAppend(trail + [entries[0]], entries[1], graph);
      assert trail + entries == (trail + [entries[0]]) + [entries[1]];
    }
  }

  function CountTo(trail: seq<AuditEntry>, to: State): nat {
    if trail == [] then 0
    else CountTo(trail[..|trail| - 1], to) + (if trail[|trail| - 1].to == to then 1 else 0)
  }

  /** An entry that enters RETRY_EXECUTED; a loop on that state (an ignored payment) does not. */
  predicate IsExecution(e: AuditEntry) {
    e.from == RetryScheduled && e.to == RetryExecuted
  }

  function CountExecutions(trail: seq<AuditEntry>): nat {
    if trail == [] then 0
    else CountExecutions(trail[..|trail| - 1]) + (if IsExecution(trail[|trail| - 1]) then 1 else 0)
  }

  /** What the verifier takes for execution instants: every entry landing on RETRY_EXECUTED, loops
      included, in trail order (`executed_times`). */
  function ExecutionTimes(trail: seq<AuditEntry>): (r: seq<Instant>)
    ensures |r| == CountTo(trail, RetryExecuted)
  {
    if trail == [] then []
    else
      var last := trail[|trail| - 1];
      ExecutionTimes(trail[..|trail| - 1]) + (if last.to == RetryExecuted then [last.timestamp] else [])
  }

  predicate Assigns(e: AuditEntry, b: Bucket) {
    e.rule == if b == TreatmentBucket then AssignBucketTreatment else AssignBucketControl
  }

  /** Every entry carries the case's id. */
  predicate Own(entries: seq<AuditEntry>, c: CaseId) {
    forall i :: 0 <= i < |entries| ==> entries[i].caseId == c
  }

  // ---- Replay: what the trail says about the case ------------------------------------------------

  datatype Replay = Replay(state: State, treatment: bool, control: bool, retries: nat, execs: nat)

  function Follow(r: Replay, e: AuditEntry): Replay {
    Replay(
      e.to,
      r.treatment || Assigns(e, TreatmentBucket),
      r.control || Assigns(e, ControlBucket),
      if e.to == RetryEval then r.retries + 1 else r.retries,
      if IsExecution(e) then r.execs + 1 else r.execs)
  }

  function ReplayOf(trail: seq<AuditEntry>): Replay {
    if trail == [] then Replay(Received, false, false, 0, 0)
    else Follow(ReplayOf(trail[..|trail| - 1]), trail[|trail| - 1])
  }

  lemma ReplayOne(trail: seq<AuditEntry>, a: AuditEntry)
    ensures ReplayOf(trail + [a]) == Follow(ReplayOf(trail), a)
  {
    assert (trail + [a])[..|trail|] == trail;
  }

  /** The replay of one or two more entries, which is all a handler on an open case emits. */
  function Follow2(r: Replay, entries: seq<AuditEntry>): Replay
    requires 1 <= |entries| <= 2
  {
    if |entries| == 1 then Follow(r, entries[0]) else Follow(Follow(r, entries[0]), entries[1])
  }

  lemma ReplayTwo(trail: seq<AuditEntry>, a: AuditEntry, b: AuditEntry)
    ensures ReplayOf(trail + [a] + [b]) == Follow(Follow(ReplayOf(trail), a), b)
  {
    ReplayOne(trail, a);
    ReplayOne(trail + [a], b);
  }

  lemma ReplayMore(trail: seq<AuditEntry>, entries: seq<AuditEntry>)
    requires 1 <= |entries| <= 2
    ensures ReplayOf(trail + entries) == Follow2(ReplayOf(trail), entries)
  {
    if |entries| == 1 {
      assert entries == [entries[0]];
      ReplayOne(trail, entries[0]);
    } else {
      assert trail + entries == trail + [entries[0]] + [entries[1]];
      ReplayTwo(trail, entries[0], entries[1]);
    }
  }

  // ---- Watch: the rules the trail keeps ----------------------------------------------------------

  datatype Monitor = Monitor(
    execs: nat,
    openNotice: Option<Instant>,
    lastExec: Option<Instant>,
    noticeKept: bool,
    spacingKept: bool,
    offPeak: bool,
    retrySeen: bool)

  predicate OffPeak(e: AuditEntry, cfg: Config) {
    e.to == RetryExecuted || e.to == RetryScheduled ==>
      && !InPeak(cfg.peakWindows, e.timestamp)
      && (e.to == RetryScheduled && e.scheduledAt.Some? ==> !InPeak(cfg.peakWindows, e.scheduledAt.value))
  }

  function Observe(m: Monitor, e: AuditEntry, cfg: Config): Monitor
    requires |cfg.retrySpacing| > 0
  {
    var executed := e.to == RetryExecuted;
    Monitor(
      if executed then m.execs + 1 else m.execs,
      if e.to == NoticeSent then Some(e.timestamp) else if executed then None else m.openNotice,
      if executed then Some(e.timestamp) else m.lastExec,
      m.noticeKept && (executed && m.openNotice.Some? ==> e.timestamp - m.openNotice.value >= cfg.noticeLead),
      m.spacingKept && (executed && m.lastExec.Some? ==> e.timestamp - m.lastExec.value >= SpacingFor(cfg, m.execs)),
      m.offPeak && OffPeak(e, cfg),
      m.retrySeen || executed || e.to == RetryScheduled)
  }

  function Watch(trail: seq<AuditEntry>, cfg: Config): Monitor
    requires |cfg.retrySpacing| > 0
  {
    if trail == [] then Monitor(0, None, None, true, true, true, false)
    else Observe(Watch(trail[..|trail| - 1], cfg), trail[|trail| - 1], cfg)
  }

  lemma WatchOne(trail: seq<AuditEntry>, a: AuditEntry, cfg: Config)
    requires |cfg.retrySpacing| > 0
    ensures Watch(trail + [a], cfg) == Observe(Watch(trail, cfg), a, cfg)
  {
    assert (trail + [a])[..|trail|] == trail;
  }

  function Observe2(m: Monitor, entries: seq<AuditEntry>, cfg: Config): Monitor
    requires |cfg.retrySpacing| > 0 && 1 <= |entries| <= 2
  {
    if |entries| == 1 then Observe(m, entries[0], cfg) else Observe(Observe(m, entries[0], cfg), entries[1], cfg)
  }

  lemma WatchMore(trail: seq<AuditEntry>, entries: seq<AuditEntry>, cfg: Config)
    requires |cfg.retrySpacing| > 0 && 1 <= |entries| <= 2
    ensures Watch(trail + entries, cfg) == Observe2(Watch(trail, cfg), entries, cfg)
  {
    WatchOne(trail, entries[0], cfg);
    if |entries| == 1 {
      assert trail + entries == trail + [entries[0]];
    } else {
      WatchOne(trail + [entries[0]], entries[1], cfg);
      assert trail + entries == (trail + [entries[0]]) + [entries[1]];
    }
  }

  // ---- What the folds mean -----------------------------------------------------------------------

  lemma {:induction false} ReplayCounts(trail: seq<AuditEntry>)
    ensures var r := ReplayOf(trail);
            && r.state == StateAt(trail, |trail|)
            && r.retries == CountTo(trail, RetryEval)
            && r.execs == CountExecutions(trail)
  {
    if trail == [] {
    } else {
      ReplayCounts(trail[..|trail| - 1]);
    }
  }

  /** What holds of some entry or of all of them. */
  lemma {:induction false} WatchMembers(trail: seq<AuditEntry>, cfg: Config)
    requires |cfg.retrySpacing| > 0
    ensures var m := Watch(trail, cfg);
            && (m.retrySeen <==> exists e :: e in trail && (e.to == RetryScheduled || e.to == RetryExecuted))
            && (m.offPeak <==> forall e :: e in trail ==> OffPeak(e, cfg))
  {
    if trail == [] {
    } else {
      var n := |trail| - 1;
      WatchMembers(trail[..n], cfg);
      assert trail == trail[..n] + [trail[n]];
    }
  }

  predicate SomeAssigns(trail: seq<AuditEntry>, b: Bucket) {
    exists e :: e in trail && Assigns(e, b)
  }

  lemma {:induction false} ReplayBuckets(trail: seq<AuditEntry>)
    ensures ReplayOf(trail).treatment <==> SomeAssigns(trail, TreatmentBucket)
    ensures ReplayOf(trail).control <==> SomeAssigns(trail, ControlBucket)
  {
    if trail == [] {
    } else {
      var n := |trail| - 1;
      ReplayBuckets(trail[..n]);
      assert trail == trail[..n] + [trail[n]];
      forall b ensures SomeAssigns(trail, b) <==> SomeAssigns(trail[..n], b) || Assigns(trail[n], b) {
        if Assigns(trail[n], b) {
          assert trail[n] in trail;
        }
      }
    }
  }

  /** Entry i announced a notice that entry j executed: nothing between them is either kind. */
  predicate NoticeServed(trail: seq<AuditEntry>, i: int, j: int) {
    && 0 <= i < j < |trail|
    && trail[i].to == NoticeSent
    && trail[j].to == RetryExecuted
    && forall k :: i < k < j ==> trail[k].to != NoticeSent && trail[k].to != RetryExecuted
  }

  predicate NoticeOpen(trail: seq<AuditEntry>, i: int) {
    && 0 <= i < |trail|
    && trail[i].to == NoticeSent
    && forall k :: i < k < |trail| ==> trail[k].to != NoticeSent && trail[k].to != RetryExecuted
  }

  ghost predicate NoticeViolated(trail: seq<AuditEntry>, lead: Duration) {
    exists i, j :: NoticeServed(trail, i, j) && trail[j].timestamp - trail[i].timestamp < lead
  }

  predicate SpacingBroken(times: seq<Instant>, cfg: Config, i: int)
    requires |cfg.retrySpacing| > 0
  {
    1 <= i < |times| && times[i] - times[i - 1] < SpacingFor(cfg, i)
  }

  ghost predicate SpacingViolated(trail: seq<AuditEntry>, cfg: Config)
    requires |cfg.retrySpacing| > 0
  {
    exists i :: SpacingBroken(ExecutionTimes(trail), cfg, i)
  }

  /** The i-th gap is below the i-th listed spacing, or below the last one past the list. */
  predicate GapTooShort(times: seq<Instant>, spacing: seq<Duration>, i: int)
    requires |spacing| > 0
  {
    1 <= i < |times| && times[i] - times[i - 1] < if i < |spacing| then spacing[i] else spacing[|spacing| - 1]
  }

  predicate SomeGapTooShort(times: seq<Instant>, spacing: seq<Duration>)
    requires |spacing| > 0
  {
    exists i: nat :: i < |times| && GapTooShort(times, spacing, i)
  }

  /** The rule over the configured list. */
  lemma SpacingRuleExactly(trail: seq<AuditEntry>, cfg: Config)
    requires |cfg.retrySpacing| > 0
    ensures SpacingViolated(trail, cfg) <==> SomeGapTooShort(ExecutionTimes(trail), cfg.retrySpacing)
  {
    var times := ExecutionTimes(trail);
    if SpacingViolated(trail, cfg) {
      var i :| SpacingBroken(times, cfg, i);
      GapIsBroken(times, cfg, i);
      assert SomeGapTooShort(times, cfg.retrySpacing);
    }
    if SomeGapTooShort(times, cfg.retrySpacing) {
      var i: nat :| i < |times| && GapTooShort(times, cfg.retrySpacing, i);
      GapIsBroken(times, cfg, i);
      assert SpacingViolated(trail, cfg);
    }
  }

  lemma GapIsBroken(times: seq<Instant>, cfg: Config, i: int)
    requires |cfg.retrySpacing| > 0
    ensures SpacingBroken(times, cfg, i) <==> GapTooShort(times, cfg.retrySpacing, i)
  {
    if i >= 0 {
      SpacingIsListed(cfg, i);
    }
  }

  /** As shipped: three days before the second execution, seven before every later one. */
  lemma ShippedSpacingRule(times: seq<Instant>, i: int)
    requires 1 <= i < |times|
    ensures GapTooShort(times, SHIPPED.retrySpacing, i) <==> times[i] - times[i - 1] < (if i == 1 then 3 else 7) * DAY
  {
  }

  lemma {:induction false} WatchNotice(trail: seq<AuditEntry>, cfg: Config)
    requires |cfg.retrySpacing| > 0
    ensures var m := Watch(trail, cfg);
            && (m.noticeKept <==> !NoticeViolated(trail, cfg.noticeLead))
            && (m.openNotice.Some? <==> exists i :: NoticeOpen(trail, i))
            && (forall i :: NoticeOpen(trail, i) ==> m.openNotice == Some(trail[i].timestamp))
  {
    if trail == [] {
    } else {
      var n := |trail| - 1;
      var front, last := trail[..n], trail[n];
      WatchNotice(front, cfg);
      assert trail == front + [last];
      NoticeViolatedAppend(front, last, cfg.noticeLead);
      forall i ensures NoticeOpen(trail, i) <==>
              || (i == n && last.to == NoticeSent)
              || (NoticeOpen(front, i) && last.to != NoticeSent && last.to != RetryExecuted) {
        NoticeOpenAppend(front, last, i);
      }
      if last.to == NoticeSent {
        assert NoticeOpen(trail, n);
      }
    }
  }

  lemma NoticeServedAppend(front: seq<AuditEntry>, last: AuditEntry, i: int, j: int)
    ensures NoticeServed(front + [last], i, j) <==>
              || (j < |front| && NoticeServed(front, i, j))
              || (j == |front| && last.to == RetryExecuted && NoticeOpen(front, i))
  {
    var trail := front + [last];
    assert trail[|front|] == last;
    assert forall k :: 0 <= k < |front| ==> trail[k] == front[k];
  }

  lemma NoticeOpenAppend(front: seq<AuditEntry>, last: AuditEntry, i: int)
    ensures NoticeOpen(front + [last], i) <==>
              || (i == |front| && last.to == NoticeSent)
              || (NoticeOpen(front, i) && last.to != NoticeSent && last.to != RetryExecuted)
  {
    var trail := front + [last];
    assert trail[|front|] == last;
    assert forall k :: 0 <= k < |front| ==> trail[k] == front[k];
  }

  lemma NoticeViolatedAppend(front: seq<AuditEntry>, last: AuditEntry, lead: Duration)
    ensures NoticeViolated(front + [last], lead) <==>
              || NoticeViolated(front, lead)
              || (last.to == RetryExecuted &&
                    exists i :: NoticeOpen(front, i) && last.timestamp - front[i].timestamp < lead)
  {
    var trail := front + [last];
    forall i, j ensures NoticeServed(trail, i, j) <==>
              || (j < |front| && NoticeServed(front, i, j))
              || (j == |front| && last.to == RetryExecuted && NoticeOpen(front, i)) {
      NoticeServedAppend(front, last, i, j);
    }
    if NoticeViolated(front, lead) {
      var i, j :| NoticeServed(front, i, j) && front[j].timestamp - front[i].timestamp < lead;
      assert NoticeServed(trail, i, j);
    }
    if i :| last.to == RetryExecuted && NoticeOpen(front, i) && last.timestamp - front[i].timestamp < lead {
      assert NoticeServed(trail, i, |front|);
    }
  }

  lemma {:induction false} WatchSpacing(trail: seq<AuditEntry>, cfg: Config)
    requires |cfg.retrySpacing| > 0
    ensures var m := Watch(trail, cfg);
            var times := ExecutionTimes(trail);
            && (m.spacingKept <==> !SpacingViolated(trail, cfg))
            && m.execs == |times|
            && m.lastExec == (if times == [] then None else Some(times[|times| - 1]))
  {
    if trail == [] {
    } else {
      var n := |trail| - 1;
      var front, last := trail[..n], trail[n];
      WatchSpacing(front, cfg);
      var before, after := ExecutionTimes(front), ExecutionTimes(trail);
      if last.to == RetryExecuted {
        assert forall i :: 0 <= i < |before| ==> after[i] == before[i];
        assert forall i :: i != |before| ==> (SpacingBroken(after, cfg, i) <==> SpacingBroken(before, cfg, i));
        assert SpacingBroken(after, cfg, |before|) <==>
               |before| > 0 && last.timestamp - before[|before| - 1] < SpacingFor(cfg, |before|);
      } else {
        assert after == before;
      }
    }
  }
}

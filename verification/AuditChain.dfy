/** The hash-chained audit trails of many cases on one sequence counter (app/core/case_store.py,
    `append_audit`), and their verification (app/main.py, `verify_chain`). The hash is any function. */
module AuditChain {
  import opened Models
  import opened TrailMonitor

  type Hash = string

  /** The fields that are serialised and hashed. */
  datatype Payload = Payload(entry: AuditEntry, sequenceId: int, prevHash: Option<Hash>)

  type Hasher = Payload -> Hash

  datatype Stored = Stored(entry: AuditEntry, sequenceId: int, prevHash: Option<Hash>, entryHash: Hash)

  function PayloadOf(s: Stored): Payload { Payload(s.entry, s.sequenceId, s.prevHash) }

  function HashBefore(trail: seq<Stored>, i: nat): Option<Hash>
    requires i <= |trail|
  {
    if i == 0 then None else Some(trail[i - 1].entryHash)
  }

  predicate LinkedAt(trail: seq<Stored>, i: nat, hash: Hasher)
    requires i < |trail|
  {
    trail[i].prevHash == HashBefore(trail, i) && trail[i].entryHash == hash(PayloadOf(trail[i]))
  }

  predicate Accepted(trail: seq<Stored>, hash: Hasher) {
    trail != [] && forall i :: 0 <= i < |trail| ==> LinkedAt(trail, i, hash)
  }

  // ---- Tamper evidence ------------------------------------------------------------------------------

  predicate Collide(hash: Hasher, a: Stored, b: Stored) {
    PayloadOf(a) != PayloadOf(b) && hash(PayloadOf(a)) == hash(PayloadOf(b))
  }

  predicate SomeCollision(hash: Hasher, t: seq<Stored>, u: seq<Stored>) {
    exists i, j :: 0 <= i < |t| && 0 <= j < |u| && Collide(hash, t[i], u[j])
  }

  /** For any hash at all: two accepted trails that end in the same hash are the same trail, entry for
      entry and in length, or they exhibit a collision of the hash. */
  lemma {:induction false} SameHeadSameTrail(t: seq<Stored>, u: seq<Stored>, hash: Hasher)
    requires Accepted(t, hash) && Accepted(u, hash)
    requires t[|t| - 1].entryHash == u[|u| - 1].entryHash
    ensures t == u || SomeCollision(hash, t, u)
    decreases |t|
  {
    var m, n := |t| - 1, |u| - 1;
    assert LinkedAt(t, m, hash) && LinkedAt(u, n, hash);
    if Collide(hash, t[m], u[n]) {
    } else if m > 0 && n > 0 {
      FrontAccepted(t, m, hash);
      FrontAccepted(u, n, hash);
      SameHeadSameTrail(t[..m], u[..n], hash);
      if SomeCollision(hash, t[..m], u[..n]) {
        var i, j :| 0 <= i < m && 0 <= j < n && Collide(hash, t[..m][i], u[..n][j]);
        assert Collide(hash, t[i], u[j]);
      } else {
        assert t == t[..m] + [t[m]] && u == u[..n] + [u[n]];
      }
    }
  }

  /** Why the head hash is a premise: every non-empty beginning of an accepted trail is accepted. */
  lemma FrontAccepted(t: seq<Stored>, n: nat, hash: Hasher)
    requires Accepted(t, hash) && 0 < n <= |t|
    ensures Accepted(t[..n], hash)
  {
    forall i | 0 <= i < n ensures LinkedAt(t[..n], i, hash) {
      assert LinkedAt(t, i, hash);
    }
  }

  // ---- Appending ------------------------------------------------------------------------------------

  datatype Logs = Logs(trails: map<CaseId, seq<Stored>>, next: int)

  const EMPTY: Logs := Logs(map[], 1)

  function TrailOf(l: Logs, c: CaseId): seq<Stored> {
    if c in l.trails then l.trails[c] else []
  }

  /** The next link of a case's chain, under a given sequence id. */
  function Link(l: Logs, e: AuditEntry, sequenceId: int, hash: Hasher): Stored {
    var trail := TrailOf(l, e.caseId);
    var payload := Payload(e, sequenceId, HashBefore(trail, |trail|));
    Stored(e, sequenceId, payload.prevHash, hash(payload))
  }

  /** An entry that brings its own sequence id keeps it and leaves the counter alone. */
  function AppendAs(l: Logs, e: AuditEntry, given: Option<int>, hash: Hasher): Logs {
    var sequenceId := if given.Some? then given.value else l.next;
    Logs(l.trails[e.caseId := TrailOf(l, e.caseId) + [Link(l, e, sequenceId, hash)]],
         if given.Some? then l.next else l.next + 1)
  }

  function Append(l: Logs, e: AuditEntry, hash: Hasher): Logs { AppendAs(l, e, None, hash) }

  function AppendAll(l: Logs, entries: seq<AuditEntry>, hash: Hasher): Logs {
    if entries == [] then l
    else Append(AppendAll(l, entries[..|entries| - 1], hash), entries[|entries| - 1], hash)
  }

  function EntriesOf(entries: seq<AuditEntry>, c: CaseId): seq<AuditEntry> {
    if entries == [] then []
    else
      var last := entries[|entries| - 1];
      EntriesOf(entries[..|entries| - 1], c) + (if last.caseId == c then [last] else [])
  }

  function Contents(trail: seq<Stored>): (r: seq<AuditEntry>)
    ensures |r| == |trail|
  {
    seq(|trail|, i requires 0 <= i < |trail| => trail[i].entry)
  }

  /** A trail after the given appends: linked, its ids the positions of its entries in the appends. */
  predicate WellLinked(trail: seq<Stored>, entries: seq<AuditEntry>, hash: Hasher) {
    && (forall i :: 0 <= i < |trail| ==> LinkedAt(trail, i, hash))
    && (forall i :: 0 <= i < |trail| ==>
          1 <= trail[i].sequenceId <= |entries| && entries[trail[i].sequenceId - 1] == trail[i].entry)
    && (forall i, j :: 0 <= i < j < |trail| ==> trail[i].sequenceId < trail[j].sequenceId)
  }

  /** Under any sequence id a trail stays linked, and so accepted. */
  lemma LinkExtends(l: Logs, e: AuditEntry, given: Option<int>, hash: Hasher)
    requires forall i :: 0 <= i < |TrailOf(l, e.caseId)| ==> LinkedAt(TrailOf(l, e.caseId), i, hash)
    ensures Accepted(TrailOf(AppendAs(l, e, given, hash), e.caseId), hash)
  {
    var before := TrailOf(l, e.caseId);
    var trail := TrailOf(AppendAs(l, e, given, hash), e.caseId);
    forall i | 0 <= i < |trail| ensures LinkedAt(trail, i, hash) {
      if i < |before| {
        assert LinkedAt(before, i, hash);
      }
    }
  }

  lemma MoreEntriesStayLinked(trail: seq<Stored>, front: seq<AuditEntry>, e: AuditEntry, hash: Hasher)
    requires WellLinked(trail, front, hash)
    ensures WellLinked(trail, front + [e], hash)
  {
  }

  lemma AppendStaysLinked(l: Logs, front: seq<AuditEntry>, e: AuditEntry, hash: Hasher)
    requires l.next == |front| + 1 && WellLinked(TrailOf(l, e.caseId), front, hash)
    ensures WellLinked(TrailOf(Append(l, e, hash), e.caseId), front + [e], hash)
  {
    LinkExtends(l, e, None, hash);
  }

  /** One case's trail grows by the given entries, and no other trail changes. */
  ghost predicate OnlyGrows(before: Logs, after: Logs, c: CaseId, entries: seq<AuditEntry>) {
    && TrailOf(before, c) <= TrailOf(after, c)
    && Contents(TrailOf(after, c)) == Contents(TrailOf(before, c)) + entries
    && (forall d :: d != c ==> TrailOf(after, d) == TrailOf(before, d))
  }

  lemma {:induction false} OwnEntriesGrow(l: Logs, entries: seq<AuditEntry>, c: CaseId, hash: Hasher)
    requires Own(entries, c)
    ensures OnlyGrows(l, AppendAll(l, entries, hash), c, entries)
    decreases |entries|
  {
    if entries == [] {
      assert Contents(TrailOf(l, c)) + [] == Contents(TrailOf(l, c));
    } else {
      var n := |entries| - 1;
      var front := AppendAll(l, entries[..n], hash);
      OwnEntriesGrow(l, entries[..n], c, hash);
      OwnEntryGrows(front, entries[n], hash);
      assert entries == entries[..n] + [entries[n]];
    }
  }

  lemma OwnEntryGrows(l: Logs, e: AuditEntry, hash: Hasher)
    ensures OnlyGrows(l, Append(l, e, hash), e.caseId, [e])
  {
    var before, after := TrailOf(l, e.caseId), TrailOf(Append(l, e, hash), e.caseId);
    assert after[..|before|] == before;
    assert Contents(after) == Contents(before) + [e];
  }

  /** The logs after the given appends, as one case sees them. */
  predicate Tells(l: Logs, entries: seq<AuditEntry>, c: CaseId, hash: Hasher) {
    && l.next == |entries| + 1
    && Contents(TrailOf(l, c)) == EntriesOf(entries, c)
    && WellLinked(TrailOf(l, c), entries, hash)
  }

  lemma EntriesAppend(front: seq<AuditEntry>, e: AuditEntry, c: CaseId)
    ensures EntriesOf(front + [e], c) == EntriesOf(front, c) + (if e.caseId == c then [e] else [])
  {
    assert (front + [e])[..|front|] == front;
  }

  lemma AppendElsewhere(l: Logs, front: seq<AuditEntry>, e: AuditEntry, c: CaseId, hash: Hasher)
    requires Tells(l, front, c, hash) && e.caseId != c
    ensures Tells(Append(l, e, hash), front + [e], c, hash)
  {
    EntriesAppend(front, e, c);
    assert EntriesOf(front, c) + [] == EntriesOf(front, c);
    MoreEntriesStayLinked(TrailOf(l, c), front, e, hash);
  }

  lemma AppendHere(l: Logs, front: seq<AuditEntry>, e: AuditEntry, hash: Hasher)
    requires Tells(l, front, e.caseId, hash)
    ensures Tells(Append(l, e, hash), front + [e], e.caseId, hash)
  {
    EntriesAppend(front, e, e.caseId);
    AppendStaysLinked(l, front, e, hash);
    assert Contents(TrailOf(Append(l, e, hash), e.caseId)) == Contents(TrailOf(l, e.caseId)) + [e];
  }

  lemma AppendTells(l: Logs, front: seq<AuditEntry>, e: AuditEntry, c: CaseId, hash: Hasher)
    requires Tells(l, front, c, hash)
    ensures Tells(Append(l, e, hash), front + [e], c, hash)
  {
    if e.caseId == c {
      AppendHere(l, front, e, hash);
    } else {
      AppendElsewhere(l, front, e, c, hash);
    }
  }

  lemma {:induction false} InterleavedTells(entries: seq<AuditEntry>, c: CaseId, hash: Hasher)
    ensures Tells(AppendAll(EMPTY, entries, hash), entries, c, hash)
    decreases |entries|
  {
    if entries == [] {
    } else {
      var front, e := entries[..|entries| - 1], entries[|entries| - 1];
      InterleavedTells(front, c, hash);
      AppendTells(AppendAll(EMPTY, front, hash), front, e, c, hash);
      assert entries == front + [e];
    }
  }

  /** Any interleaving of appends for any number of cases: each trail holds exactly its case's entries in
      order, it is accepted once it has any, and its sequence ids are the places of its entries in the
      interleaving, so they increase and no two entries share one. */
  lemma InterleavedTrailsVerify(entries: seq<AuditEntry>, c: CaseId, hash: Hasher)
    ensures var l := AppendAll(EMPTY, entries, hash);
            Tells(l, entries, c, hash) && (TrailOf(l, c) != [] ==> Accepted(TrailOf(l, c), hash))
  {
    InterleavedTells(entries, c, hash);
  }
}

/** Commit keys and the three commit backends (app/core/commit_backend.py, app/main.py). */
module CommitKeys {
  import opened Models

  const PREFIX: string := "/recovery/commits/"

  function Digit(d: nat): char
    requires d < 10
  {
    "0123456789"[d]
  }

  function Digits(n: nat): (r: string)
    ensures r != [] && (n < 10 <==> |r| == 1)
  {
    if n < 10 then [Digit(n)] else Digits(n / 10) + [Digit(n % 10)]
  }

  function CasePrefix(caseId: CaseId): string { PREFIX + caseId + "/" }

  function KeyFor(caseId: CaseId, attempt: nat): string { CasePrefix(caseId) + Digits(attempt) }

  predicate StartsWith(s: string, prefix: string) { |prefix| <= |s| && s[..|prefix|] == prefix }

  lemma DigitInjective(a: nat, b: nat)
    requires a < 10 && b < 10 && Digit(a) == Digit(b)
    ensures a == b
  {
  }

  lemma {:induction false} DigitsHaveNoSlash(n: nat)
    ensures '/' !in Digits(n)
  {
    if n < 10 {
    } else {
      DigitsHaveNoSlash(n / 10);
    }
  }

  lemma {:induction false} DigitsInjective(m: nat, n: nat)
    requires Digits(m) == Digits(n)
    ensures m == n
  {
    var a, b := Digits(m), Digits(n);
    if m < 10 && n < 10 {
      DigitInjective(m, n);
    } else if m >= 10 && n >= 10 {
      assert a[..|a| - 1] == Digits(m / 10) && b[..|b| - 1] == Digits(n / 10);
      assert a[|a| - 1] == Digit(m % 10) && b[|b| - 1] == Digit(n % 10);
      DigitInjective(m % 10, n % 10);
      DigitsInjective(m / 10, n / 10);
    }
  }

  /** The number a decimal text stands for. */
  function Value(digits: string): int {
    if digits == "" then 0
    else 10 * Value(digits[..|digits| - 1]) + (digits[|digits| - 1] as int - '0' as int)
  }

  lemma {:induction false} DigitsAreDecimal(n: nat)
    ensures Value(Digits(n)) == n
    ensures forall i :: 0 <= i < |Digits(n)| ==> '0' <= Digits(n)[i] <= '9'
    ensures n > 0 ==> Digits(n)[0] != '0'
  {
    if n < 10 {
      assert Digits(n)[..0] == "";
    } else {
      DigitsAreDecimal(n / 10);
      assert Digits(n)[..|Digits(n)| - 1] == Digits(n / 10);
    }
  }

  /** The rendered key: the directory of commits, the case id, and the attempt in decimal without zeros in
      front. */
  lemma KeyIsPath(c: CaseId, n: nat) returns (digits: string)
    ensures KeyFor(c, n) == "/recovery/commits/" + c + "/" + digits && Value(digits) == n
    ensures forall i :: 0 <= i < |digits| ==> '0' <= digits[i] <= '9'
    ensures digits != "" && (n > 0 ==> digits[0] != '0')
  {
    digits := Digits(n);
    DigitsAreDecimal(n);
  }

  /** Where the last slash of such a text is. */
  lemma LastSlashAt(a: string, x: string)
    requires '/' !in x
    ensures var s := a + "/" + x;
            && s[..|a|] == a && s[|a|] == '/' && s[|a| + 1..] == x
            && forall k :: |a| < k < |s| ==> s[k] != '/'
  {
    var s := a + "/" + x;
    assert forall k :: |a| < k < |s| ==> s[k] == x[k - |a| - 1];
  }

  /** A text cut at its last slash can be cut in one way only. */
  lemma LastSlash(a: string, x: string, b: string, y: string)
    requires a + "/" + x == b + "/" + y && '/' !in x && '/' !in y
    ensures a == b && x == y
  {
    LastSlashAt(a, x);
    LastSlashAt(b, y);
    assert |a| == |b|;
  }

  /** Keys are injective for all case ids, slashes included. */
  lemma KeyInjective(c: CaseId, m: nat, d: CaseId, n: nat)
    requires KeyFor(c, m) == KeyFor(d, n)
    ensures c == d && m == n
  {
    DigitsHaveNoSlash(m);
    DigitsHaveNoSlash(n);
    var tail := KeyFor(c, m)[|PREFIX|..];
    assert tail == c + "/" + Digits(m);
    assert tail == d + "/" + Digits(n);
    LastSlash(c, Digits(m), d, Digits(n));
    DigitsInjective(m, n);
  }

  /** c, then a slash. */
  predicate Continues(s: string, c: string) {
    |c| < |s| && s[..|c|] == c && s[|c|] == '/'
  }

  lemma StartsMeansContinues(s: string, c: string)
    ensures StartsWith(s, c + "/") <==> Continues(s, c)
  {
    if |c| < |s| {
      assert s[..|c| + 1] == s[..|c|] + [s[|c|]];
      assert (s[..|c|] + [s[|c|]])[..|c|] == s[..|c|] && (c + "/")[..|c|] == c;
    }
  }

  lemma TailContinues(c: CaseId, d: CaseId, digits: string)
    requires '/' !in digits
    ensures Continues(d + "/" + digits, c) <==> d == c || Continues(d, c)
  {
    LastSlashAt(d, digits);
    var tail := d + "/" + digits;
    if |c| < |d| {
      assert tail[..|c|] == d[..|c|];
    }
  }

  /** The prefix scan of one case also returns another case's commits exactly when that case's id
      continues this id with a slash. */
  lemma ScanReturnsExactly(c: CaseId, d: CaseId, n: nat)
    ensures StartsWith(KeyFor(d, n), CasePrefix(c)) <==> d == c || Continues(d, c)
  {
    var tail := d + "/" + Digits(n);
    assert KeyFor(d, n) == PREFIX + tail && CasePrefix(c) == PREFIX + (c + "/");
    SharedPrefix(PREFIX, tail, c + "/");
    StartsMeansContinues(tail, c);
    DigitsHaveNoSlash(n);
    TailContinues(c, d, Digits(n));
  }

  lemma SharedPrefix(p: string, s: string, t: string)
    ensures StartsWith(p + s, p + t) <==> StartsWith(s, t)
  {
    if |t| <= |s| {
      assert (p + s)[..|p + t|] == p + s[..|t|];
      assert (p + s[..|t|])[|p|..] == s[..|t|] && (p + t)[|p|..] == t;
    }
  }

  /** So the scan is exact when no case id contains a slash. */
  lemma ScanIsExactWithoutSlashes(c: CaseId, d: CaseId, n: nat)
    requires '/' !in d
    ensures StartsWith(KeyFor(d, n), CasePrefix(c)) <==> d == c
  {
    ScanReturnsExactly(c, d, n);
  }
}

module CommitBackends {
  import opened Models
  import opened CommitKeys

  datatype Request = Request(caseId: CaseId, attempt: nat, ref: string)

  function RequestKey(r: Request): Key { (r.caseId, r.attempt) }

  // ---- The contract: a write-once map -------------------------------------------------------------

  function WriteOnce(m: map<Key, string>, r: Request): (map<Key, string>, bool) {
    if RequestKey(r) in m then (m, false) else (m[RequestKey(r) := r.ref], true)
  }

  function Answers(m: map<Key, string>, requests: seq<Request>): (r: seq<bool>)
    ensures |r| == |requests|
    decreases |requests|
  {
    if requests == [] then []
    else
      var (next, answer) := WriteOnce(m, requests[0]);
      [answer] + Answers(next, requests[1..])
  }

  predicate FirstOfItsKey(requests: seq<Request>, i: nat)
    requires i < |requests|
  {
    forall j :: 0 <= j < i ==> RequestKey(requests[j]) != RequestKey(requests[i])
  }

  /** A request is approved exactly when its key is neither taken nor asked for before it. */
  lemma {:induction false} FirstRequestWins(m: map<Key, string>, requests: seq<Request>, i: nat)
    requires i < |requests|
    ensures Answers(m, requests)[i] <==> RequestKey(requests[i]) !in m && FirstOfItsKey(requests, i)
    decreases i
  {
    if i == 0 {
    } else {
      var next := WriteOnce(m, requests[0]).0;
      FirstRequestWins(next, requests[1..], i - 1);
      assert FirstOfItsKey(requests, i) <==>
             FirstOfItsKey(requests[1..], i - 1) && RequestKey(requests[0]) != RequestKey(requests[i]) by {
        assert forall j :: 1 <= j < i ==> requests[j] == requests[1..][j - 1];
      }
    }
  }

  // ---- etcd: compare the version, then put ----------------------------------------------------------

  datatype Cell = Cell(version: nat, value: string)

  type EtcdState = map<string, Cell>

  function Version(kv: EtcdState, key: string): nat { if key in kv then kv[key].version else 0 }

  function EtcdCommit(kv: EtcdState, r: Request): (EtcdState, bool) {
    var key := KeyFor(r.caseId, r.attempt);
    if Version(kv, key) == 0 then (kv[key := Cell(Version(kv, key) + 1, r.ref)], true) else (kv, false)
  }

  /** The store holds the map's entries under their rendered keys, at a positive version. */
  ghost predicate EtcdHolds(kv: EtcdState, m: map<Key, string>) {
    && (forall k :: k in m ==> KeyFor(k.0, k.1) in kv && kv[KeyFor(k.0, k.1)].value == m[k])
    && (forall text :: text in kv ==> kv[text].version >= 1 && exists k :: k in m && KeyFor(k.0, k.1) == text)
  }

  lemma EtcdRefines(kv: EtcdState, m: map<Key, string>, r: Request)
    requires EtcdHolds(kv, m)
    ensures EtcdCommit(kv, r).1 == WriteOnce(m, r).1
    ensures EtcdHolds(EtcdCommit(kv, r).0, WriteOnce(m, r).0)
  {
    var key := KeyFor(r.caseId, r.attempt);
    forall k | k in m && KeyFor(k.0, k.1) == key ensures k == RequestKey(r) {
      KeyInjective(k.0, k.1, r.caseId, r.attempt);
    }
    var next := WriteOnce(m, r).0;
    if RequestKey(r) !in m {
      assert key !in kv;
      assert RequestKey(r) in next;
      var kv2 := EtcdCommit(kv, r).0;
      forall text | text in kv2 ensures kv2[text].version >= 1 && exists k :: k in next && KeyFor(k.0, k.1) == text {
        if text != key {
          var k :| k in m && KeyFor(k.0, k.1) == text;
          assert k in next;
        }
      }
    }
  }

  function EtcdAnswers(kv: EtcdState, requests: seq<Request>): seq<bool>
    decreases |requests|
  {
    if requests == [] then []
    else
      var (next, answer) := EtcdCommit(kv, requests[0]);
      [answer] + EtcdAnswers(next, requests[1..])
  }

  // ---- The outbox: insert, then commit or roll back -------------------------------------------------

  datatype OutboxState = OutboxState(rows: map<Key, string>, staged: map<Key, string>)

  datatype Fault = NoFault | FaultAtInsert | FaultAtCommit

  datatype Approval = Approved | Refused | Raised

  function OutboxCommit(s: OutboxState, r: Request, fault: Fault): (OutboxState, Approval) {
    var rolledBack := s.(staged := map[]);
    if fault == FaultAtInsert then (rolledBack, Raised)
    else if RequestKey(r) in s.rows || RequestKey(r) in s.staged then (rolledBack, Refused)
    else if fault == FaultAtCommit then (rolledBack, Raised)
    else (OutboxState(s.rows + s.staged[RequestKey(r) := r.ref], map[]), Approved)
  }

  /** Whatever fails, nothing stays staged; only an approval changes the rows, by its one row; and a
      connection without faults answers as the contract does. */
  lemma OutboxRefines(s: OutboxState, r: Request, fault: Fault)
    requires s.staged == map[]
    ensures var (next, answer) := OutboxCommit(s, r, fault);
            && next.staged == map[]
            && next.rows == (if answer == Approved then WriteOnce(s.rows, r).0 else s.rows)
            && (answer == Approved ==> WriteOnce(s.rows, r).1)
            && (answer == Refused ==> !WriteOnce(s.rows, r).1)
            && (fault == NoFault ==> answer == (if WriteOnce(s.rows, r).1 then Approved else Refused))
  {
  }

  function OutboxAnswers(s: OutboxState, requests: seq<Request>): seq<bool>
    decreases |requests|
  {
    if requests == [] then []
    else
      var (next, answer) := OutboxCommit(s, requests[0], NoFault);
      [answer == Approved] + OutboxAnswers(next, requests[1..])
  }

  // ---- The in-memory set ----------------------------------------------------------------------------

  function MemoryCommit(committed: set<Key>, r: Request): (set<Key>, bool) {
    if RequestKey(r) in committed then (committed, false) else (committed + {RequestKey(r)}, true)
  }

  function MemoryAnswers(committed: set<Key>, requests: seq<Request>): seq<bool>
    decreases |requests|
  {
    if requests == [] then []
    else
      var (next, answer) := MemoryCommit(committed, requests[0]);
      [answer] + MemoryAnswers(next, requests[1..])
  }

  lemma {:induction false} EtcdAgrees(m: map<Key, string>, kv: EtcdState, requests: seq<Request>)
    requires EtcdHolds(kv, m)
    ensures EtcdAnswers(kv, requests) == Answers(m, requests)
    decreases |requests|
  {
    if requests == [] {
    } else {
      EtcdRefines(kv, m, requests[0]);
      EtcdAgrees(WriteOnce(m, requests[0]).0, EtcdCommit(kv, requests[0]).0, requests[1..]);
    }
  }

  lemma {:induction false} OutboxAgrees(m: map<Key, string>, requests: seq<Request>)
    ensures OutboxAnswers(OutboxState(m, map[]), requests) == Answers(m, requests)
    decreases |requests|
  {
    if requests == [] {
    } else {
      OutboxRefines(OutboxState(m, map[]), requests[0], NoFault);
      OutboxAgrees(WriteOnce(m, requests[0]).0, requests[1..]);
    }
  }

  lemma {:induction false} MemoryAgrees(m: map<Key, string>, requests: seq<Request>)
    ensures MemoryAnswers(m.Keys, requests) == Answers(m, requests)
    decreases |requests|
  {
    if requests == [] {
    } else {
      assert MemoryCommit(m.Keys, requests[0]).0 == WriteOnce(m, requests[0]).0.Keys;
      MemoryAgrees(WriteOnce(m, requests[0]).0, requests[1..]);
    }
  }

  /** The three backends give every sequence of requests the same answers. */
  lemma BackendsAgree(m: map<Key, string>, kv: EtcdState, requests: seq<Request>)
    requires EtcdHolds(kv, m)
    ensures EtcdAnswers(kv, requests) == Answers(m, requests)
    ensures OutboxAnswers(OutboxState(m, map[]), requests) == Answers(m, requests)
    ensures MemoryAnswers(m.Keys, requests) == Answers(m, requests)
  {
    EtcdAgrees(m, kv, requests);
    OutboxAgrees(m, requests);
    MemoryAgrees(m, requests);
  }

  // ---- The backends themselves ----------------------------------------------------------------------

  class EtcdQuorumBackend {
    var kv: EtcdState

    constructor ()
      ensures kv == map[]
    {
      kv := map[];
    }

    /** One transaction: the compare and the put are atomic in the store. */
    method Commit(r: Request) returns (success: bool)
      modifies this
      ensures (kv, success) == EtcdCommit(old(kv), r)
    {
      var key := KeyFor(r.caseId, r.attempt);
      success := Version(kv, key) == 0;
      if success {
        kv := kv[key := Cell(Version(kv, key) + 1, r.ref)];
      }
    }
  }

  class PostgresOutboxBackend {
    var rows: map<Key, string>
    var staged: map<Key, string>

    constructor ()
      ensures rows == map[] && staged == map[]
    {
      rows, staged := map[], map[];
    }

    method Insert(r: Request, fault: Fault) returns (raised: Option<Approval>)
      modifies this`staged
      ensures raised == if fault == FaultAtInsert then Some(Raised)
                        else if RequestKey(r) in rows || RequestKey(r) in old(staged) then Some(Refused) else None
      ensures staged == if raised == None then old(staged)[RequestKey(r) := r.ref] else old(staged)
    {
      if fault == FaultAtInsert {
        return Some(Raised);
      }
      if RequestKey(r) in rows || RequestKey(r) in staged {
        return Some(Refused);
      }
      staged := staged[RequestKey(r) := r.ref];
      return None;
    }

    method Commit(r: Request, fault: Fault) returns (answer: Approval)
      modifies this
      ensures (OutboxState(rows, staged), answer) == OutboxCommit(OutboxState(old(rows), old(staged)), r, fault)
    {
      var raised := Insert(r, fault);
      if raised == None && fault == FaultAtCommit {
        raised := Some(Raised);
      }
      if raised.Some? {
        staged := map[];
        return raised.value;
      }
      rows, staged := rows + staged, map[];
      return Approved;
    }
  }

  class InMemoryCommitBackend {
    var committed: set<Key>

    constructor ()
      ensures committed == {}
    {
      committed := {};
    }

    method Commit(r: Request) returns (success: bool)
      modifies this
      ensures (committed, success) == MemoryCommit(old(committed), r)
    {
      if RequestKey(r) in committed {
        return false;
      }
      committed := committed + {RequestKey(r)};
      return true;
    }
  }
}

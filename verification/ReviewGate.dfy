/** The reviewer regression gate and its compact baseline
    (scripts/mcp_conformance/review_regressions.py).  Reports are given as in
    `RegressionGate`; result lists are sets. */
module ReviewGate {
  import opened Text

  datatype Case = Case(mode: string, transport: string)

  datatype Identity = Identity(owner: Case, checkId: string)

  // ------------------------------------------------------------------ reports

  datatype RawCheck = NotACheck | RawCheck(name: Option<string>, success: Option<bool>)

  datatype RawCase = NotACase | RawCase(key: Option<Case>, checks: Option<seq<RawCheck>>, success: Option<bool>)

  datatype RawRecord = NotARecord | RawRecord(owner: Option<Case>, checkId: Option<string>)

  datatype Totals = Totals(passed: int, failed: int, total: int, casesPassed: int, casesTotal: int)

  datatype Body =
    | Full(cases: Option<seq<RawCase>>, success: Option<bool>)
    | Compact(kind: string, requiredCases: Option<seq<Option<Case>>>, hasChecks: bool,
              passing: Option<seq<RawRecord>>, failing: Option<seq<RawRecord>>)

  datatype Report = Report(
    schemaVersion: int, reviewer: string, modes: seq<string>, summary: Option<Totals>, body: Body)

  const REVIEW_MODES := ["2025-06-18", "2025-11-25", "2026-07-28"]
  const REVIEW_REPORT_SCHEMA_VERSION := 1
  const REVIEW_BASELINE_KIND := "mcp-review-regression-baseline-v1"
  const REVIEWER := "codex-mcp-regression-suite"

  datatype Issue =
    | WrongSchema | WrongReviewer | WrongModes | WrongBaselineKind
    | NoRequiredCases | NoCases | MalformedCase | UnexpectedCase | DuplicateCase
    | NoIdentities | NoBucket(success: bool) | MalformedRecord(success: bool) | MalformedCheck | DuplicateCheck
    | NoChecks(key: Case) | InconsistentCase(key: Case)
    | CaseMissing(key: Case) | CaseUnexpected(key: Case) | InconsistentTotals | InconsistentSuccess

  type Checks = map<Identity, bool>

  datatype Reading = Reading(checks: Checks, cases: set<Case>, issues: set<Issue>)

  predicate IsReviewCheck(name: Option<string>) {
    name.Some? && HasPrefix(name.value, "review/")
  }

  // ------------------------------------------------------------- full reports

  /** The checks of one case and whether all of them succeeded. */
  datatype CaseReading = CaseReading(checks: Checks, success: bool, issues: set<Issue>)

  function ReadCase(key: Case, raw: seq<RawCheck>): CaseReading {
    if raw == [] then CaseReading(map[], true, {})
    else
      var r, c := ReadCase(key, raw[..|raw| - 1]), raw[|raw| - 1];
      if c.NotACheck? || !IsReviewCheck(c.name) || c.success.None? then r.(issues := r.issues + {MalformedCheck})
      else
        var id := Identity(key, c.name.value);
        if id in r.checks then r.(issues := r.issues + {DuplicateCheck})
        else CaseReading(r.checks[id := c.success.value], r.success && c.success.value, r.issues)
  }

  function ReadCases(required: set<Case>, raw: seq<RawCase>): Reading {
    if raw == [] then Reading(map[], {}, {})
    else
      var r, c := ReadCases(required, raw[..|raw| - 1]), raw[|raw| - 1];
      if c.NotACase? then r.(issues := r.issues + {MalformedCase})
      else if c.key.None? || c.key.value !in required then r.(issues := r.issues + {UnexpectedCase})
      else if c.key.value in r.cases then r.(issues := r.issues + {DuplicateCase})
      else
        var key := c.key.value;
        if c.checks.None? || c.checks.value == [] then
          Reading(r.checks, r.cases + {key}, r.issues + {NoChecks(key)})
        else
          var one := ReadCase(key, c.checks.value);
          Reading(r.checks + one.checks, r.cases + {key},
                  r.issues + one.issues + if c.success == Some(one.success) then {} else {InconsistentCase(key)})
  }

  // -------------------------------------------------------- compact baselines

  function ReadCaseKeys(raw: seq<Option<Case>>): (set<Case>, set<Issue>) {
    if raw == [] then ({}, {})
    else
      var (cases, issues) := ReadCaseKeys(raw[..|raw| - 1]);
      var c := raw[|raw| - 1];
      if c.None? then (cases, issues + {MalformedCase})
      else if c.value in cases then (cases, issues + {DuplicateCase})
      else (cases + {c.value}, issues)
  }

  function ReadRecord(required: set<Case>, r: RawRecord): Option<Identity> {
    if r.NotARecord? || r.owner.None? || !IsReviewCheck(r.checkId) || r.owner.value !in required then None
    else Some(Identity(r.owner.value, r.checkId.value))
  }

  /** Adds the records of one bucket to the checks read before. */
  function ReadRecords(required: set<Case>, before: Checks, success: bool, raw: seq<RawRecord>): (Checks, set<Issue>) {
    if raw == [] then (before, {})
    else
      var (checks, issues) := ReadRecords(required, before, success, raw[..|raw| - 1]);
      var id := ReadRecord(required, raw[|raw| - 1]);
      if id.None? then (checks, issues + {MalformedRecord(success)})
      else if id.value in checks then (checks, issues + {DuplicateCheck})
      else (checks[id.value := success], issues)
  }

  function ReadBucket(required: set<Case>, before: Checks, success: bool, raw: Option<seq<RawRecord>>)
    : (Checks, set<Issue>)
  {
    if raw.None? then (before, {NoBucket(success)}) else ReadRecords(required, before, success, raw.value)
  }

  function ReadCompact(required: set<Case>, b: Body): Reading
    requires b.Compact?
  {
    var (cases, ci) := if b.requiredCases.Some? then ReadCaseKeys(b.requiredCases.value) else ({}, {NoRequiredCases});
    var kind := if b.kind == REVIEW_BASELINE_KIND then {} else {WrongBaselineKind};
    var (passing, pi) := ReadBucket(required, map[], true, if b.hasChecks then b.passing else None);
    var (checks, fi) := ReadBucket(required, passing, false, if b.hasChecks then b.failing else None);
    Reading(checks, cases, kind + ci + (if b.hasChecks then {} else {NoIdentities}) + pi + fi)
  }

  // ------------------------------------------------------------------- totals

  predicate CasePasses(checks: Checks, key: Case) {
    (exists id :: id in checks && id.owner == key) && forall id | id in checks && id.owner == key :: checks[id]
  }

  function Count(checks: Checks, cases: set<Case>): Totals {
    var passed := |set id | id in checks && checks[id]|;
    Totals(passed, |checks| - passed, |checks|, |set c | c in cases && CasePasses(checks, c)|, |cases|)
  }

  function ClosingIssues(required: set<Case>, r: Report, reading: Reading): set<Issue> {
    (set c | c in required - reading.cases :: CaseMissing(c))
    + (set c | c in reading.cases - required :: CaseUnexpected(c))
    + (if r.summary == Some(Count(reading.checks, reading.cases)) then {} else {InconsistentTotals})
    + (if r.body.Full?
          && r.body.success != Some(reading.cases != {} && Count(reading.checks, reading.cases).failed == 0)
       then {InconsistentSuccess} else {})
  }

  function HeaderIssues(r: Report): set<Issue> {
    (if r.schemaVersion == REVIEW_REPORT_SCHEMA_VERSION then {} else {WrongSchema})
    + (if r.reviewer == REVIEWER then {} else {WrongReviewer})
    + (if r.modes == REVIEW_MODES then {} else {WrongModes})
  }

  function ReadBody(required: set<Case>, body: Body): Reading {
    match body
    case Full(cases, _) => if cases.Some? then ReadCases(required, cases.value) else Reading(map[], {}, {NoCases})
    case Compact(_, _, _, _, _) => ReadCompact(required, body)
  }

  /** `_required_review_checks`; `required` are the required cases. */
  function Read(required: set<Case>, r: Report): Reading {
    var reading := ReadBody(required, r.body);
    reading.(issues := HeaderIssues(r) + reading.issues + ClosingIssues(required, r, reading))
  }

  // --------------------------------------------------------------------- gate

  datatype Gate = Gate(
    baselineIssues: set<Issue>,
    candidateIssues: set<Issue>,
    knownFailures: set<Identity>,
    newFailures: set<Identity>,
    missingChecks: set<Identity>,
    fixedChecks: set<Identity>)
  {
    predicate Success() {
      baselineIssues == {} && candidateIssues == {} && newFailures == {} && missingChecks == {}
    }
  }

  predicate Fails(checks: Checks, id: Identity) {
    id in checks && !checks[id]
  }

  /** `_evaluate_review_regression_gate`. */
  function Evaluate(required: set<Case>, candidate: Report, baseline: Report): Gate {
    var b, c := Read(required, baseline), Read(required, candidate);
    Gate(b.issues, c.issues,
         set id | id in c.checks && Fails(c.checks, id) && Fails(b.checks, id),
         set id | id in c.checks && Fails(c.checks, id) && !Fails(b.checks, id),
         set id | id in b.checks && id !in c.checks,
         set id | id in b.checks && id in c.checks && Fails(b.checks, id) && !Fails(c.checks, id))
  }

  // -------------------------------------------------------------------- loops

  method ReadCheckLoop(key: Case, raw: seq<RawCheck>) returns (r: CaseReading)
    ensures r == ReadCase(key, raw)
  {
    var checks: Checks, success, issues: set<Issue> := map[], true, {};
    for i := 0 to |raw|
      invariant CaseReading(checks, success, issues) == ReadCase(key, raw[..i])
    {
      assert raw[..i + 1][..i] == raw[..i];
      var c := raw[i];
      if c.NotACheck? {
        issues := issues + {MalformedCheck};
        continue;
      }
      if !IsReviewCheck(c.name) || c.success.None? {
        issues := issues + {MalformedCheck};
        continue;
      }
      var id := Identity(key, c.name.value);
      if id in checks {
        issues := issues + {DuplicateCheck};
        continue;
      }
      checks := checks[id := c.success.value];
      success := success && c.success.value;
    }
    assert raw[..|raw|] == raw;
    return CaseReading(checks, success, issues);
  }

  method ReadCaseLoop(required: set<Case>, raw: seq<RawCase>) returns (r: Reading)
    ensures r == ReadCases(required, raw)
  {
    hide ReadCase;
    var checks: Checks, observed: set<Case>, issues: set<Issue> := map[], {}, {};
    for i := 0 to |raw|
      invariant Reading(checks, observed, issues) == ReadCases(required, raw[..i])
    {
      assert raw[..i + 1][..i] == raw[..i];
      var c := raw[i];
      if c.NotACase? {
        issues := issues + {MalformedCase};
        continue;
      }
      if c.key.None? || c.key.value !in required {
        issues := issues + {UnexpectedCase};
        continue;
      }
      var key := c.key.value;
      if key in observed {
        issues := issues + {DuplicateCase};
        continue;
      }
      observed := observed + {key};
      if c.checks.None? || c.checks.value == [] {
        issues := issues + {NoChecks(key)};
        continue;
      }
      var one := ReadCheckLoop(key, c.checks.value);
      checks, issues := checks + one.checks, issues + one.issues;
      if c.success != Some(one.success) {
        issues := issues + {InconsistentCase(key)};
      }
    }
    assert raw[..|raw|] == raw;
    return Reading(checks, observed, issues);
  }

  method ReadRecordLoop(required: set<Case>, before: Checks, success: bool, raw: seq<RawRecord>)
    returns (checks: Checks, issues: set<Issue>)
    ensures (checks, issues) == ReadRecords(required, before, success, raw)
  {
    hide ReadRecord;
    checks, issues := before, {};
    for i := 0 to |raw|
      invariant (checks, issues) == ReadRecords(required, before, success, raw[..i])
    {
      assert raw[..i + 1][..i] == raw[..i];
      var id := ReadRecord(required, raw[i]);
      if id.None? {
        issues := issues + {MalformedRecord(success)};
        continue;
      }
      if id.value in checks {
        issues := issues + {DuplicateCheck};
        continue;
      }
      checks := checks[id.value := success];
    }
    assert raw[..|raw|] == raw;
  }

  method EvaluateReviewRegressionGate(required: set<Case>, candidate: Report, baseline: Report) returns (gate: Gate)
    ensures gate == Evaluate(required, candidate, baseline)
  {
    hide Read;
    var b, c := Read(required, baseline), Read(required, candidate);
    var known: set<Identity>, new_: set<Identity> := {}, {};
    var left := c.checks.Keys;
    while left != {}
      invariant left <= c.checks.Keys
      invariant known == set id | id in c.checks.Keys - left && Fails(c.checks, id) && Fails(b.checks, id)
      invariant new_ == set id | id in c.checks.Keys - left && Fails(c.checks, id) && !Fails(b.checks, id)
    {
      var id :| id in left;
      left := left - {id};
      if c.checks[id] {
        continue;
      }
      if Fails(b.checks, id) {
        known := known + {id};
      } else {
        new_ := new_ + {id};
      }
    }
    var missing: set<Identity>, fixed: set<Identity> := {}, {};
    left := b.checks.Keys;
    while left != {}
      invariant left <= b.checks.Keys
      invariant missing == set id | id in b.checks.Keys - left && id !in c.checks
      invariant fixed ==
                set id | id in b.checks.Keys - left && id in c.checks && Fails(b.checks, id) && !Fails(c.checks, id)
    {
      var id :| id in left;
      left := left - {id};
      if id !in c.checks {
        missing := missing + {id};
      } else if !b.checks[id] && c.checks[id] {
        fixed := fixed + {id};
      }
    }
    gate := Gate(b.issues, c.issues, known, new_, missing, fixed);
  }

  // ----------------------------------------------------------------- preorder

  /** Every failing check of the candidate failed before, and no check of the
      baseline is gone. */
  ghost predicate NoWorse(candidate: Checks, baseline: Checks) {
    && (forall id :: Fails(candidate, id) ==> Fails(baseline, id))
    && (forall id :: id in baseline ==> id in candidate)
  }

  lemma GateSucceedsIff(required: set<Case>, candidate: Report, baseline: Report)
    ensures Evaluate(required, candidate, baseline).Success() <==>
            && Read(required, candidate).issues == {} && Read(required, baseline).issues == {}
            && NoWorse(Read(required, candidate).checks, Read(required, baseline).checks)
  {
    hide Read;
    var b, c := Read(required, baseline).checks, Read(required, candidate).checks;
    var g := Evaluate(required, candidate, baseline);
    assert forall id :: id in g.newFailures <==> Fails(c, id) && !Fails(b, id);
    assert forall id :: id in g.missingChecks <==> id in b && id !in c;
  }

  /** A report passes against itself exactly when it reads without errors. */
  lemma GateIsReflexiveIff(required: set<Case>, r: Report)
    ensures Evaluate(required, r, r).Success() <==> Read(required, r).issues == {}
  {
  }

  lemma GateIsTransitive(required: set<Case>, a: Report, b: Report, c: Report)
    requires Evaluate(required, b, a).Success() && Evaluate(required, c, b).Success()
    ensures Evaluate(required, c, a).Success()
  {
    GateSucceedsIff(required, b, a);
    GateSucceedsIff(required, c, b);
    GateSucceedsIff(required, c, a);
    hide Evaluate, Read;
  }

  // --------------------------------------------------------- compact baselines

  function WithResult(checks: Checks, success: bool): set<Identity> {
    set id | id in checks && checks[id] == success
  }

  function RecordOf(id: Identity): RawRecord {
    RawRecord(Some(id.owner), Some(id.checkId))
  }

  /** The records of a set of identities, in some fixed order. */
  ghost function Records(ids: set<Identity>): seq<RawRecord> {
    if ids == {} then []
    else
      var id :| id in ids;
      Records(ids - {id}) + [RecordOf(id)]
  }

  ghost function CaseKeys(cases: set<Case>): seq<Option<Case>> {
    if cases == {} then []
    else
      var c :| c in cases;
      CaseKeys(cases - {c}) + [Some(c)]
  }

  ghost function CompactBody(required: set<Case>, checks: Checks): Body {
    Compact(REVIEW_BASELINE_KIND, Some(CaseKeys(required)), true,
            Some(Records(WithResult(checks, true))), Some(Records(WithResult(checks, false))))
  }

  /** `_compact_review_regression_baseline` for a report that reads without
      errors. */
  ghost function CompactBaseline(required: set<Case>, r: Report): Report {
    Report(REVIEW_REPORT_SCHEMA_VERSION, REVIEWER, REVIEW_MODES, r.summary,
           CompactBody(required, Read(required, r).checks))
  }

  lemma {:induction false} CaseKeysRead(cases: set<Case>)
    ensures ReadCaseKeys(CaseKeys(cases)) == (cases, {})
  {
    if cases != {} {
      var keys := CaseKeys(cases);
      var c :| c in cases && keys == CaseKeys(cases - {c}) + [Some(c)];
      CaseKeysRead(cases - {c});
      assert keys[..|keys| - 1] == CaseKeys(cases - {c}) && keys[|keys| - 1] == Some(c);
      assert cases == (cases - {c}) + {c};
    }
  }

  /** The reader accepts the identity. */
  ghost predicate IsReadable(required: set<Case>, id: Identity) {
    id.owner in required && HasPrefix(id.checkId, "review/")
  }

  ghost predicate AllReadable(required: set<Case>, checks: Checks) {
    forall id | id in checks :: IsReadable(required, id)
  }

  function Marked(ids: set<Identity>, success: bool): Checks {
    map id | id in ids :: success
  }

  lemma {:induction false} RecordsRead(required: set<Case>, before: Checks, success: bool, ids: set<Identity>)
    requires forall id | id in ids :: IsReadable(required, id) && id !in before
    ensures ReadRecords(required, before, success, Records(ids)) == (before + Marked(ids, success), {})
  {
    if ids == {} {
      assert before + Marked({}, success) == before;
    } else {
      var records := Records(ids);
      var id :| id in ids && records == Records(ids - {id}) + [RecordOf(id)];
      RecordsRead(required, before, success, ids - {id});
      assert records[..|records| - 1] == Records(ids - {id}) && records[|records| - 1] == RecordOf(id);
      assert ReadRecord(required, RecordOf(id)) == Some(id) by {
        assert IsReadable(required, id);
      }
      assert before + Marked(ids, success) == (before + Marked(ids - {id}, success))[id := success];
    }
  }

  lemma {:induction false} CaseIsReadable(required: set<Case>, key: Case, raw: seq<RawCheck>)
    requires key in required
    ensures AllReadable(required, ReadCase(key, raw).checks)
  {
    if raw != [] {
      CaseIsReadable(required, key, raw[..|raw| - 1]);
    }
  }

  lemma {:induction false} CasesAreReadable(required: set<Case>, raw: seq<RawCase>)
    ensures AllReadable(required, ReadCases(required, raw).checks)
  {
    hide ReadCase;
    if raw != [] {
      CasesAreReadable(required, raw[..|raw| - 1]);
      var c := raw[|raw| - 1];
      if c.RawCase? && c.key.Some? && c.key.value in required && c.checks.Some? {
        CaseIsReadable(required, c.key.value, c.checks.value);
      }
    }
  }

  lemma {:induction false} BucketIsReadable(required: set<Case>, before: Checks, success: bool, raw: seq<RawRecord>)
    requires AllReadable(required, before)
    ensures AllReadable(required, ReadRecords(required, before, success, raw).0)
  {
    if raw != [] {
      BucketIsReadable(required, before, success, raw[..|raw| - 1]);
    }
  }

  /** Whatever the reader returns it would read again. */
  lemma ReadingIsReadable(required: set<Case>, r: Report)
    ensures AllReadable(required, Read(required, r).checks)
  {
    hide ClosingIssues, HeaderIssues, IsReadable;
    match r.body
    case Full(cases, _) =>
      if cases.Some? {
        CasesAreReadable(required, cases.value);
      }
      hide ReadCases;
    case Compact(_, _, hasChecks, passing, failing) =>
      var p := if hasChecks then passing else None;
      var f := if hasChecks then failing else None;
      if p.Some? {
        BucketIsReadable(required, map[], true, p.value);
      }
      var (before, _) := ReadBucket(required, map[], true, p);
      if f.Some? {
        BucketIsReadable(required, before, false, f.value);
      }
      hide ReadRecords, ReadCaseKeys;
  }

  lemma CompactBodyReads(required: set<Case>, checks: Checks)
    requires AllReadable(required, checks)
    ensures ReadBody(required, CompactBody(required, checks)) == Reading(checks, required, {})
  {
    hide Records, CaseKeys, ReadRecords, ReadCaseKeys, IsReadable;
    CaseKeysRead(required);
    var passing, failing := WithResult(checks, true), WithResult(checks, false);
    var before := map[] + Marked(passing, true);
    assert ReadBucket(required, map[], true, Some(Records(passing))) == (before, {}) by {
      RecordsRead(required, map[], true, passing);
    }
    assert ReadBucket(required, before, false, Some(Records(failing))) == (checks, {}) by {
      RecordsRead(required, before, false, failing);
      assert before + Marked(failing, false) == checks;
    }
    hide ReadBucket, WithResult, Marked;
  }

  /** When a report reads without errors, all its cases were observed and its
      totals are right. */
  lemma CleanReading(required: set<Case>, r: Report)
    requires Read(required, r).issues == {}
    ensures var reading := Read(required, r);
            reading.cases == required && r.summary == Some(Count(reading.checks, reading.cases))
  {
    hide ReadBody, Count, HeaderIssues;
    var reading := ReadBody(required, r.body);
    var closing := ClosingIssues(required, r, reading);
    assert closing <= Read(required, r).issues;
    assert forall c :: c in required && c !in reading.cases ==> CaseMissing(c) in closing;
    assert forall c :: c in reading.cases && c !in required ==> CaseUnexpected(c) in closing;
    assert r.summary != Some(Count(reading.checks, reading.cases)) ==> InconsistentTotals in closing;
  }

  /** The compact form of a clean report reads without errors to the same
      checks, the same cases and the same totals. */
  lemma CompactBaselineRoundTrips(required: set<Case>, r: Report)
    requires Read(required, r).issues == {}
    ensures var compact := CompactBaseline(required, r);
            && Read(required, compact) == Reading(Read(required, r).checks, required, {})
            && compact.summary == r.summary
  {
    ReadingIsReadable(required, r);
    CleanReading(required, r);
    var checks := Read(required, r).checks;
    CompactBodyReads(required, checks);
    var compact := CompactBaseline(required, r);
    assert HeaderIssues(compact) == {};
    NothingToClose(required, compact, Reading(checks, required, {}));
    hide ReadBody, Count, HeaderIssues, ClosingIssues;
  }

  lemma NothingToClose(required: set<Case>, r: Report, reading: Reading)
    requires reading.cases == required && r.body.Compact? && r.summary == Some(Count(reading.checks, required))
    ensures ClosingIssues(required, r, reading) == {}
  {
  }

  /** Compacting again changes nothing. */
  lemma CompactingTwice(required: set<Case>, r: Report)
    requires Read(required, r).issues == {}
    ensures CompactBaseline(required, CompactBaseline(required, r)) == CompactBaseline(required, r)
  {
    CompactBaselineRoundTrips(required, r);
    hide Read, CompactBody;
  }

  /** So the gate cannot tell a clean report from its compact form, and the
      report passes against it. */
  lemma CompactBaselineIsFaithful(required: set<Case>, candidate: Report, baseline: Report)
    requires Read(required, baseline).issues == {}
    ensures Evaluate(required, candidate, CompactBaseline(required, baseline))
            == Evaluate(required, candidate, baseline)
    ensures Evaluate(required, baseline, CompactBaseline(required, baseline)).Success()
  {
    CompactBaselineRoundTrips(required, baseline);
    GateIsReflexiveIff(required, baseline);
    hide Read, CompactBaseline;
  }
}

/** The reader and the gate as the loops of the script, and the laws of the
    gate: it is a preorder on clean reports, and a compact baseline stands for
    its report (scripts/mcp_conformance/run_codex_compliance.py). */
module RegressionGateLaws {
  import opened Text
  import opened RegressionGate

  // -------------------------------------------------------------------- loops

  method ReadCheckLoop(m: Mode, t: Transport, raw: seq<RawCheck>) returns (checks: Checks, issues: set<Issue>)
    ensures Reading(checks, issues) == ReadChecks(m, t, raw)
  {
    hide ReadCheck;
    checks, issues := map[], {};
    for i := 0 to |raw|
      invariant Reading(checks, issues) == ReadChecks(m, t, raw[..i])
    {
      assert raw[..i + 1][..i] == raw[..i];
      var id := ReadCheck(m, t, raw[i]);
      if id.None? {
        issues := issues + {MalformedCheck(m, t)};
        continue;
      }
      var statuses := if id.value in checks then checks[id.value] else {};
      checks := checks[id.value := statuses + {raw[i].status.value}];
    }
    assert raw[..|raw|] == raw;
  }

  method ReadCaseLoop(cases: seq<RawCase>) returns (table: CaseTable, issues: set<Issue>)
    ensures (table, issues) == ReadCases(cases)
  {
    table, issues := map[], {};
    for i := 0 to |cases|
      invariant (table, issues) == ReadCases(cases[..i])
    {
      assert cases[..i + 1][..i] == cases[..i];
      var c := cases[i];
      if c.NotACase? {
        issues := issues + {MalformedCase};
        continue;
      }
      if c.mode.None? {
        continue;
      }
      if c.transport.None? {
        issues := issues + {MalformedRequiredCase};
        continue;
      }
      var key := (c.mode.value, c.transport.value);
      if key in table {
        issues := issues + {DuplicateCase(key.0, key.1)};
        continue;
      }
      table := table[key := c.checks];
    }
    assert cases[..|cases|] == cases;
  }

  method ReadIdentityLoop(status: Status, records: seq<RawIdentity>) returns (seen: set<Identity>, issues: set<Issue>)
    ensures (seen, issues) == ReadIdentities(status, records)
  {
    hide ReadIdentity;
    seen, issues := {}, {};
    for i := 0 to |records|
      invariant (seen, issues) == ReadIdentities(status, records[..i])
    {
      assert records[..i + 1][..i] == records[..i];
      var id := ReadIdentity(records[i]);
      if id.None? {
        issues := issues + {MalformedIdentity(status)};
        continue;
      }
      if id.value in seen {
        issues := issues + {DuplicateIdentity(status)};
        continue;
      }
      seen := seen + {id.value};
    }
    assert records[..|records|] == records;
  }

  method ReadCaseChecks(catalog: Catalog, table: CaseTable, m: Mode, t: Transport) returns (r: Reading)
    ensures r == ReadCase(catalog, table, m, t)
  {
    var key := (m, TransportName(t));
    if key !in table {
      return Reading(map[], {MissingCase(m, t)});
    }
    if table[key].None? || table[key].value == [] {
      return Reading(map[], {NoChecks(m, t)});
    }
    var checks, issues := ReadCheckLoop(m, t, table[key].value);
    if t.OfficialHttp? {
      issues := issues + ScenarioIssues(catalog, m, Observed(checks, m));
    }
    return Reading(checks, issues);
  }

  lemma ModeReading(
      catalog: Catalog, selected: map<Mode, seq<string>>, table: CaseTable, m: Mode,
      done: Checks, s: Reading, h: Reading)
    requires s == ReadCase(catalog, table, m, Stdio) && h == ReadCase(catalog, table, m, OfficialHttp)
    ensures var r := ReadMode(catalog, selected, table, m);
            && done + s.checks + h.checks == done + r.checks
            && r.issues == ScenarioListIssues(catalog, selected, m) + s.issues + h.issues
  {
    hide ReadCase, ScenarioListIssues;
  }

  method ReadFullReport(catalog: Catalog, selected: map<Mode, seq<string>>, cases: Option<seq<RawCase>>)
    returns (r: Reading)
    ensures r == ReadFull(catalog, selected, cases)
  {
    hide ReadCase, ReadCases, ScenarioListIssues, ReadMode;
    var table: CaseTable, issues: set<Issue> := map[], {NoCases};
    if cases.Some? {
      table, issues := ReadCaseLoop(cases.value);
    }
    var checks: Checks := map[];
    ghost var before := issues;
    for i := 0 to |MODES|
      invariant checks == ReadModes(catalog, selected, table, MODES[..i]).checks
      invariant issues == before + ReadModes(catalog, selected, table, MODES[..i]).issues
    {
      assert MODES[..i + 1][..i] == MODES[..i];
      var m := MODES[i];
      ghost var done := checks;
      issues := issues + ScenarioListIssues(catalog, selected, m);
      var s := ReadCaseChecks(catalog, table, m, Stdio);
      checks, issues := checks + s.checks, issues + s.issues;
      var h := ReadCaseChecks(catalog, table, m, OfficialHttp);
      checks, issues := checks + h.checks, issues + h.issues;
      ModeReading(catalog, selected, table, m, done, s, h);
    }
    assert MODES[..|MODES|] == MODES;
    return Reading(checks, issues);
  }

  method ReadCompactReport(catalog: Catalog, selected: map<Mode, seq<string>>, body: Body) returns (r: Reading)
    requires body.Compact?
    ensures r == ReadCompact(catalog, selected, body)
  {
    hide CoverageIssues, ReadIdentities, BucketChecks;
    if body.kind != COMPACT_REGRESSION_BASELINE_KIND {
      return Reading(map[], {WrongBaselineKind});
    }
    var issues: set<Issue> := {};
    if body.modes != MODES {
      issues := issues + {WrongModes};
    }
    if body.transports.None? || !AreBothTransports(body.transports.value) {
      issues := issues + {WrongTransports};
    }
    if body.buckets.None? {
      return Reading(map[], issues + {NoIdentities});
    }
    var passing: set<Identity>, failing: set<Identity> := {}, {};
    if body.buckets.value.passing.None? {
      issues := issues + {NoBucket(Pass)};
    } else {
      var pi;
      passing, pi := ReadIdentityLoop(Pass, body.buckets.value.passing.value);
      issues := issues + pi;
    }
    if body.buckets.value.failing.None? {
      issues := issues + {NoBucket(Fail)};
    } else {
      var fi;
      failing, fi := ReadIdentityLoop(Fail, body.buckets.value.failing.value);
      issues := issues + fi;
    }
    var checks := BucketChecks(passing, failing);
    issues := issues + CoverageIssues(catalog, selected, checks, Shipping);
    issues := issues + CoverageIssues(catalog, selected, checks, Intermediate);
    issues := issues + CoverageIssues(catalog, selected, checks, Modern);
    return Reading(checks, issues);
  }

  method RequiredRegressionChecks(catalog: Catalog, report: Report) returns (r: Reading)
    ensures r == Read(catalog, report)
  {
    hide ReadFull, ReadCompact, HeaderIssues;
    match report.body {
      case Full(cases) =>
        r := ReadFullReport(catalog, Selected(report), cases);
      case Compact(_, _, _, _) =>
        r := ReadCompactReport(catalog, Selected(report), report.body);
    }
    r := Reading(r.checks, HeaderIssues(report) + r.issues);
  }

  method EvaluateRegressionGate(catalog: Catalog, candidate: Report, baseline: Report) returns (gate: Gate)
    ensures gate == Evaluate(catalog, candidate, baseline)
  {
    hide Read;
    var b := RequiredRegressionChecks(catalog, baseline);
    var c := RequiredRegressionChecks(catalog, candidate);
    var newFailures, knownFailures, candidateShipping := CandidateLoop(c.checks, b.checks);
    var missing, fixed, baselineShipping := BaselineLoop(c.checks, b.checks);
    gate := Gate(b.issues, c.issues, AuthIssues(candidate, baseline) + (candidateShipping + baselineShipping),
                 newFailures, missing, knownFailures, fixed);
  }

  method CandidateLoop(candidate: Checks, baseline: Checks)
    returns (newFailures: set<Identity>, knownFailures: set<Identity>, shipping: set<Issue>)
    ensures newFailures == set id | id in candidate && Says(candidate, id, Fail) && !Says(baseline, id, Fail)
    ensures knownFailures == set id | id in candidate && Says(candidate, id, Fail) && Says(baseline, id, Fail)
    ensures shipping ==
            set id | id in candidate && id.mode.Shipping? && Says(candidate, id, Fail) :: ShippingFails(id.checkId)
  {
    newFailures, knownFailures, shipping := {}, {}, {};
    var left := candidate.Keys;
    while left != {}
      invariant left <= candidate.Keys
      invariant newFailures ==
                set id | id in candidate.Keys - left && Says(candidate, id, Fail) && !Says(baseline, id, Fail)
      invariant knownFailures ==
                set id | id in candidate.Keys - left && Says(candidate, id, Fail) && Says(baseline, id, Fail)
      invariant shipping ==
                set id | id in candidate.Keys - left && id.mode.Shipping? && Says(candidate, id, Fail) ::
                  ShippingFails(id.checkId)
    {
      var id :| id in left;
      ghost var was := left;
      left := left - {id};
      assert candidate.Keys - left == (candidate.Keys - was) + {id};
      if Fail !in candidate[id] {
        continue;
      }
      if id.mode.Shipping? {
        shipping := shipping + {ShippingFails(id.checkId)};
      }
      if Says(baseline, id, Fail) {
        knownFailures := knownFailures + {id};
      } else {
        newFailures := newFailures + {id};
      }
    }
  }

  method BaselineLoop(candidate: Checks, baseline: Checks)
    returns (missing: set<Identity>, fixed: set<Identity>, shipping: set<Issue>)
    ensures missing == set id | id in baseline && IsMissing(candidate, baseline, id)
    ensures fixed == set id | id in baseline && !IsMissing(candidate, baseline, id) && Says(baseline, id, Fail)
                              && !Says(candidate, id, Fail)
    ensures shipping ==
            set id | id in baseline && id.mode.Shipping? && Says(baseline, id, Fail) ::
              BaselineShippingFails(id.checkId)
  {
    missing, fixed, shipping := {}, {}, {};
    var left := baseline.Keys;
    while left != {}
      invariant left <= baseline.Keys
      invariant missing == set id | id in baseline.Keys - left && IsMissing(candidate, baseline, id)
      invariant fixed ==
                set id | id in baseline.Keys - left && !IsMissing(candidate, baseline, id) && Says(baseline, id, Fail)
                         && !Says(candidate, id, Fail)
      invariant shipping ==
                set id | id in baseline.Keys - left && id.mode.Shipping? && Says(baseline, id, Fail) ::
                  BaselineShippingFails(id.checkId)
    {
      var id :| id in left;
      ghost var was := left;
      left := left - {id};
      assert baseline.Keys - left == (baseline.Keys - was) + {id};
      if id.mode.Shipping? && Fail in baseline[id] {
        shipping := shipping + {BaselineShippingFails(id.checkId)};
      }
      if Pass in baseline[id] && !Says(candidate, id, Pass) {
        missing := missing + {id};
      } else if Fail in baseline[id] && !Says(candidate, id, Fail) && !Says(candidate, id, Pass) {
        missing := missing + {id};
      } else if Fail in baseline[id] && !Says(candidate, id, Fail) {
        fixed := fixed + {id};
      }
    }
  }

  // ----------------------------------------------------------------- preorder

  /** No check of the candidate is worse than in the baseline. */
  ghost predicate NoWorse(candidate: Checks, baseline: Checks) {
    forall id: Identity ::
      && (Says(candidate, id, Fail) ==> Says(baseline, id, Fail))
      && (Says(baseline, id, Pass) ==> Says(candidate, id, Pass))
      && (Says(baseline, id, Fail) ==> Says(candidate, id, Fail) || Says(candidate, id, Pass))
  }

  ghost predicate ShippingPasses(checks: Checks) {
    forall id: Identity :: id.mode.Shipping? ==> !Says(checks, id, Fail)
  }

  /** A report the gate can use: readable, with a recorded policy and no
      failure in the shipping mode. */
  ghost predicate IsClean(catalog: Catalog, r: Report) {
    Read(catalog, r).issues == {} && r.automaticAuth.Some? && ShippingPasses(Read(catalog, r).checks)
  }

  /** What success of the gate means. */
  lemma GateSucceedsIff(catalog: Catalog, candidate: Report, baseline: Report)
    ensures Evaluate(catalog, candidate, baseline).Success() <==>
            && IsClean(catalog, candidate) && IsClean(catalog, baseline)
            && candidate.automaticAuth == baseline.automaticAuth
            && NoWorse(Read(catalog, candidate).checks, Read(catalog, baseline).checks)
  {
    hide Read;
    var b, c := Read(catalog, baseline), Read(catalog, candidate);
    var g := Evaluate(catalog, candidate, baseline);
    ShippingIssuesIff(c.checks, b.checks);
    assert g.newFailures == {} <==> forall id: Identity :: Says(c.checks, id, Fail) ==> Says(b.checks, id, Fail) by {
      if id: Identity :| Says(c.checks, id, Fail) && !Says(b.checks, id, Fail) {
        assert id in g.newFailures;
      }
    }
    assert g.missingChecks == {} <==> forall id: Identity :: !IsMissing(c.checks, b.checks, id) by {
      if id: Identity :| IsMissing(c.checks, b.checks, id) {
        assert id in g.missingChecks;
      }
    }
    hide Says, IsMissing, ShippingIssues, ShippingPasses;
    MissingIff(c.checks, b.checks);
  }

  lemma MissingIff(candidate: Checks, baseline: Checks)
    ensures (forall id: Identity :: Says(candidate, id, Fail) ==> Says(baseline, id, Fail))
            && (forall id: Identity :: !IsMissing(candidate, baseline, id))
            <==> NoWorse(candidate, baseline)
  {
    hide Says;
    if forall id: Identity :: !IsMissing(candidate, baseline, id) {
      forall id: Identity
        ensures Says(baseline, id, Pass) ==> Says(candidate, id, Pass)
        ensures Says(baseline, id, Fail) ==> Says(candidate, id, Fail) || Says(candidate, id, Pass)
      {
        assert !IsMissing(candidate, baseline, id);
      }
    }
  }

  lemma ShippingIssuesIff(candidate: Checks, baseline: Checks)
    ensures ShippingIssues(candidate, baseline) == {} <==> ShippingPasses(candidate) && ShippingPasses(baseline)
  {
    var issues := ShippingIssues(candidate, baseline);
    if issues == {} {
      assert forall id: Identity | id.mode.Shipping? && Says(candidate, id, Fail) ::
          ShippingFails(id.checkId) in issues;
      assert forall id: Identity | id.mode.Shipping? && Says(baseline, id, Fail) ::
          BaselineShippingFails(id.checkId) in issues;
      assert ShippingPasses(candidate) && ShippingPasses(baseline);
    } else {
      var i :| i in issues;
      if id :| id in candidate && id.mode.Shipping? && Says(candidate, id, Fail) && i == ShippingFails(id.checkId) {
        assert !ShippingPasses(candidate);
      } else {
        var id :| id in baseline && id.mode.Shipping? && Says(baseline, id, Fail)
          && i == BaselineShippingFails(id.checkId);
        assert !ShippingPasses(baseline);
      }
    }
  }

  /** A report passes against itself exactly when it is clean. */
  lemma GateIsReflexiveIff(catalog: Catalog, r: Report)
    ensures Evaluate(catalog, r, r).Success() <==> IsClean(catalog, r)
  {
    GateSucceedsIff(catalog, r, r);
  }

  /** Passing against one baseline and then against the next composes. */
  lemma GateIsTransitive(catalog: Catalog, a: Report, b: Report, c: Report)
    requires Evaluate(catalog, b, a).Success() && Evaluate(catalog, c, b).Success()
    ensures Evaluate(catalog, c, a).Success()
  {
    GateSucceedsIff(catalog, b, a);
    GateSucceedsIff(catalog, c, b);
    GateSucceedsIff(catalog, c, a);
    hide Evaluate, Read, IsClean, Says;
  }

  // --------------------------------------------------------- compact baselines

  function WithStatus(checks: Checks, status: Status): set<Identity> {
    set id | id in checks && status in checks[id]
  }

  /** The checks that passed or failed, without those that were only skipped. */
  function Decided(checks: Checks): Checks {
    BucketChecks(WithStatus(checks, Pass), WithStatus(checks, Fail))
  }

  function RawOf(id: Identity): RawIdentity {
    RawIdentity(Some(id.mode), Some(id.transport), Some(id.source), Some(id.scenario), Some(id.checkId))
  }

  /** The records of a set of identities, in some fixed order. */
  ghost function Records(ids: set<Identity>): seq<RawIdentity> {
    if ids == {} then []
    else
      var id :| id in ids;
      Records(ids - {id}) + [RawOf(id)]
  }

  /** `_compact_regression_baseline` for a report it accepts. */
  ghost function CompactBaseline(catalog: Catalog, r: Report): Report {
    var checks := Read(catalog, r).checks;
    CompactOf(r.automaticAuth, RequiredScenarios(r), WithStatus(checks, Pass), WithStatus(checks, Fail))
  }

  function RequiredScenarios(r: Report): map<Mode, seq<string>> {
    map m | m in MODES && m in Selected(r) :: Selected(r)[m]
  }

  ghost function CompactOf(
      auth: Option<bool>, scenarios: map<Mode, seq<string>>, passing: set<Identity>, failing: set<Identity>): Report {
    Report(REPORT_SCHEMA_VERSION, true, true,
           Some(OfficialRun(OFFICIAL_CONFORMANCE_REPOSITORY, OFFICIAL_CONFORMANCE_GIT_REF, true, Some(scenarios))),
           auth,
           CompactBody(passing, failing))
  }

  ghost predicate AllNamed(checks: Checks) {
    forall id | id in checks :: id.checkId != ""
  }

  lemma {:induction false} ChecksAreNamed(m: Mode, t: Transport, raw: seq<RawCheck>)
    ensures AllNamed(ReadChecks(m, t, raw).checks)
  {
    hide ReadCheck;
    if raw != [] {
      ChecksAreNamed(m, t, raw[..|raw| - 1]);
    }
  }

  lemma ModeIsNamed(catalog: Catalog, selected: map<Mode, seq<string>>, table: CaseTable, m: Mode)
    ensures AllNamed(ReadMode(catalog, selected, table, m).checks)
    ensures ReadMode(catalog, selected, table, m).issues == {} ==> ScenarioListIssues(catalog, selected, m) == {}
  {
    var stdio, http := (m, TransportName(Stdio)), (m, TransportName(OfficialHttp));
    if stdio in table && table[stdio].Some? {
      ChecksAreNamed(m, Stdio, table[stdio].value);
    }
    if http in table && table[http].Some? {
      ChecksAreNamed(m, OfficialHttp, table[http].value);
    }
    hide ReadChecks, ScenarioIssues, ScenarioListIssues;
  }

  lemma {:induction false} ModesAreNamed(
      catalog: Catalog, selected: map<Mode, seq<string>>, table: CaseTable, modes: seq<Mode>)
    ensures AllNamed(ReadModes(catalog, selected, table, modes).checks)
    ensures ReadModes(catalog, selected, table, modes).issues == {} ==>
              forall m | m in modes :: ScenarioListIssues(catalog, selected, m) == {}
  {
    hide ReadMode, ScenarioListIssues;
    if modes != [] {
      var init, last := modes[..|modes| - 1], modes[|modes| - 1];
      ModesAreNamed(catalog, selected, table, init);
      ModeIsNamed(catalog, selected, table, last);
      assert modes == init + [last];
    }
  }

  lemma {:induction false} IdentitiesAreNamed(status: Status, records: seq<RawIdentity>)
    ensures forall id | id in ReadIdentities(status, records).0 :: id.checkId != ""
  {
    if records != [] {
      IdentitiesAreNamed(status, records[..|records| - 1]);
    }
  }

  /** What the reader guarantees, whichever kind of report it reads. */
  lemma ReadingFacts(catalog: Catalog, r: Report)
    ensures AllNamed(Read(catalog, r).checks)
    ensures Read(catalog, r).issues == {} ==>
              forall m | m in MODES :: m in Selected(r) && Selected(r)[m] == catalog(m)
  {
    hide ReadModes, ReadCases, HeaderIssues, ScenarioIssues;
    match r.body
    case Full(cases) =>
      var table := if cases.Some? then ReadCases(cases.value).0 else map[];
      ModesAreNamed(catalog, Selected(r), table, MODES);
    case Compact(_, _, _, buckets) =>
      if buckets.Some? && buckets.value.passing.Some? {
        IdentitiesAreNamed(Pass, buckets.value.passing.value);
      }
      if buckets.Some? && buckets.value.failing.Some? {
        IdentitiesAreNamed(Fail, buckets.value.failing.value);
      }
      hide ReadIdentities, HasCase, Observed;
  }

  lemma {:induction false} RecordsRead(status: Status, ids: set<Identity>)
    requires forall id | id in ids :: id.checkId != ""
    ensures ReadIdentities(status, Records(ids)) == (ids, {})
  {
    if ids != {} {
      var records := Records(ids);
      var id :| id in ids && records == Records(ids - {id}) + [RawOf(id)];
      RecordsRead(status, ids - {id});
      assert records[..|records| - 1] == Records(ids - {id}) && records[|records| - 1] == RawOf(id);
      assert ReadIdentity(RawOf(id)) == Some(id);
      assert ids == (ids - {id}) + {id};
    }
  }

  /** The check passed or failed in some observation: it was not only skipped. */
  predicate IsDecided(checks: Checks, id: Identity) {
    Says(checks, id, Pass) || Says(checks, id, Fail)
  }

  ghost predicate IsTransportDecided(checks: Checks, m: Mode, t: Transport) {
    exists id: Identity :: IsDecided(checks, id) && id.mode == m && id.transport == t
  }

  /** An official or harness check over HTTP decided the scenario. */
  ghost predicate IsScenarioDecided(checks: Checks, m: Mode, scenario: string) {
    exists id: Identity ::
      && IsDecided(checks, id) && id.mode == m && id.transport.OfficialHttp?
      && !id.source.Supplemental? && id.scenario == scenario
  }

  ghost predicate IsModeCovered(catalog: Catalog, checks: Checks, m: Mode) {
    && IsTransportDecided(checks, m, Stdio) && IsTransportDecided(checks, m, OfficialHttp)
    && forall s | s in catalog(m) :: IsScenarioDecided(checks, m, s)
  }

  /** In every mode each transport has a check with a status other than SKIP, and
      each required scenario has one among its official or harness checks over
      HTTP. */
  ghost predicate IsCovered(catalog: Catalog, checks: Checks) {
    forall m: Mode :: IsModeCovered(catalog, checks, m)
  }

  lemma DecidedAre(checks: Checks, id: Identity)
    ensures id in Decided(checks) <==> IsDecided(checks, id)
  {
  }

  lemma HasDecidedCase(checks: Checks, m: Mode, t: Transport)
    ensures HasCase(Decided(checks), m, t) <==> IsTransportDecided(checks, m, t)
  {
    forall id: Identity
      ensures id in Decided(checks) <==> IsDecided(checks, id)
    {
      DecidedAre(checks, id);
    }
    hide Decided, IsDecided;
  }

  lemma DecidedScenario(checks: Checks, m: Mode, s: string)
    ensures s in Observed(Decided(checks), m) <==> IsScenarioDecided(checks, m, s)
    ensures s in Observed(Decided(checks), m) ==> s in Observed(checks, m)
  {
    forall id: Identity
      ensures id in Decided(checks) <==> IsDecided(checks, id)
    {
      DecidedAre(checks, id);
    }
    assert forall id: Identity | IsDecided(checks, id) :: id in checks;
    hide Decided, IsDecided;
  }

  /** What a compact baseline must show, in terms of the statuses it was made
      from. */
  lemma ModeIsCoveredIff(catalog: Catalog, checks: Checks, m: Mode)
    requires Observed(checks, m) == Expected(catalog, m)
    ensures var d := Decided(checks);
            HasCase(d, m, Stdio) && HasCase(d, m, OfficialHttp) && Observed(d, m) == Expected(catalog, m)
            <==> IsModeCovered(catalog, checks, m)
  {
    HasDecidedCase(checks, m, Stdio);
    HasDecidedCase(checks, m, OfficialHttp);
    hide HasCase, Decided, IsTransportDecided, IsScenarioDecided;
    forall s
      ensures s in Observed(Decided(checks), m) <==> IsScenarioDecided(checks, m, s)
      ensures s in Observed(Decided(checks), m) ==> s in Observed(checks, m)
    {
      DecidedScenario(checks, m, s);
    }
    hide Observed;
  }

  // ------------------------------------------- a clean report sees its catalog

  ghost predicate AllFrom(checks: Checks, m: Mode, t: Transport) {
    forall id | id in checks :: id.mode == m && id.transport == t
  }

  lemma {:induction false} ChecksAreFrom(m: Mode, t: Transport, raw: seq<RawCheck>)
    ensures AllFrom(ReadChecks(m, t, raw).checks, m, t)
  {
    hide ReadCheck;
    if raw != [] {
      ChecksAreFrom(m, t, raw[..|raw| - 1]);
    }
  }

  lemma CaseObserves(catalog: Catalog, table: CaseTable, m: Mode, t: Transport)
    ensures var r := ReadCase(catalog, table, m, t);
            && AllFrom(r.checks, m, t)
            && (r.issues == {} && t.OfficialHttp? ==> Observed(r.checks, m) == Expected(catalog, m))
  {
    var key := (m, TransportName(t));
    if key in table && table[key].Some? {
      ChecksAreFrom(m, t, table[key].value);
    }
    hide ReadChecks, Observed, Expected, TransportName;
  }

  lemma ModeObserves(catalog: Catalog, selected: map<Mode, seq<string>>, table: CaseTable, m: Mode)
    ensures var r := ReadMode(catalog, selected, table, m);
            && (forall id | id in r.checks :: id.mode == m)
            && (r.issues == {} ==> Observed(r.checks, m) == Expected(catalog, m))
  {
    CaseObserves(catalog, table, m, Stdio);
    CaseObserves(catalog, table, m, OfficialHttp);
    hide ReadCase, ScenarioListIssues, Expected;
    var s, h := ReadCase(catalog, table, m, Stdio).checks, ReadCase(catalog, table, m, OfficialHttp).checks;
    assert Observed(s + h, m) == Observed(h, m);
  }

  lemma {:induction false} ModesObserve(
      catalog: Catalog, selected: map<Mode, seq<string>>, table: CaseTable, modes: seq<Mode>)
    requires forall i, j | 0 <= i < j < |modes| :: modes[i] != modes[j]
    ensures var r := ReadModes(catalog, selected, table, modes);
            && (forall id | id in r.checks :: id.mode in modes)
            && (r.issues == {} ==> forall m | m in modes :: Observed(r.checks, m) == Expected(catalog, m))
  {
    hide ReadMode, Expected;
    if modes != [] {
      var init, last := modes[..|modes| - 1], modes[|modes| - 1];
      ModesObserve(catalog, selected, table, init);
      ModeObserves(catalog, selected, table, last);
      assert modes == init + [last] && last !in init;
      var r, l := ReadModes(catalog, selected, table, init).checks, ReadMode(catalog, selected, table, last).checks;
      forall m | m in modes
        ensures Observed(r + l, m) == if m == last then Observed(l, m) else Observed(r, m)
      {
      }
      hide Observed;
    }
  }

  lemma AllModes(m: Mode)
    ensures m in MODES && forall i, j | 0 <= i < j < |MODES| :: MODES[i] != MODES[j]
  {
    assert MODES[0] == Shipping && MODES[1] == Intermediate && MODES[2] == Modern;
  }

  /** A report without issues observed over HTTP exactly the required scenarios
      of each mode, be it full or compact. */
  lemma CleanReadingObserves(catalog: Catalog, r: Report, m: Mode)
    requires Read(catalog, r).issues == {}
    ensures Observed(Read(catalog, r).checks, m) == Expected(catalog, m)
  {
    AllModes(m);
    if r.body.Full? {
      FullReadingObserves(catalog, Selected(r), r.body.cases, m);
    } else {
      CompactReadingObserves(catalog, Selected(r), r.body, m);
    }
    hide ReadFull, ReadCompact, HeaderIssues, Observed, Expected, Selected;
  }

  lemma FullReadingObserves(
      catalog: Catalog, selected: map<Mode, seq<string>>, cases: Option<seq<RawCase>>, m: Mode)
    requires ReadFull(catalog, selected, cases).issues == {}
    ensures Observed(ReadFull(catalog, selected, cases).checks, m) == Expected(catalog, m)
  {
    AllModes(m);
    var table := if cases.Some? then ReadCases(cases.value).0 else map[];
    ModesObserve(catalog, selected, table, MODES);
    hide ReadModes, ReadCases, Observed, Expected;
  }

  lemma CompactReadingObserves(catalog: Catalog, selected: map<Mode, seq<string>>, body: Body, m: Mode)
    requires body.Compact? && ReadCompact(catalog, selected, body).issues == {}
    ensures Observed(ReadCompact(catalog, selected, body).checks, m) == Expected(catalog, m)
  {
    hide ReadIdentities, HasCase, Observed, Expected, BucketChecks;
  }

  lemma CoverageIff(catalog: Catalog, selected: map<Mode, seq<string>>, checks: Checks, m: Mode)
    requires m in selected && selected[m] == catalog(m)
    ensures CoverageIssues(catalog, selected, checks, m) == {} <==>
            HasCase(checks, m, Stdio) && HasCase(checks, m, OfficialHttp) && Observed(checks, m) == Expected(catalog, m)
  {
  }

  ghost function CompactBody(passing: set<Identity>, failing: set<Identity>): Body {
    Compact(COMPACT_REGRESSION_BASELINE_KIND, MODES, Some(["stdio", "official-http"]),
            Some(Buckets(Some(Records(passing)), Some(Records(failing)))))
  }

  lemma CompactBodyReads(
      catalog: Catalog, selected: map<Mode, seq<string>>, passing: set<Identity>, failing: set<Identity>)
    requires forall id | id in passing + failing :: id.checkId != ""
    ensures var checks := BucketChecks(passing, failing);
            ReadCompact(catalog, selected, CompactBody(passing, failing)) ==
            Reading(checks, AllCoverageIssues(catalog, selected, checks))
  {
    hide AllCoverageIssues, BucketChecks, Records, AreBothTransports, ReadBucket;
    BothTransports();
    BucketReads(Pass, passing);
    BucketReads(Fail, failing);
  }

  lemma BucketReads(status: Status, ids: set<Identity>)
    requires forall id | id in ids :: id.checkId != ""
    ensures ReadBucket(status, Some(Records(ids))) == (ids, {})
  {
    RecordsRead(status, ids);
    hide Records, ReadIdentities;
  }

  lemma CompactParts(
      auth: Option<bool>, scenarios: map<Mode, seq<string>>, passing: set<Identity>, failing: set<Identity>)
    ensures var r := CompactOf(auth, scenarios, passing, failing);
            && r.body == CompactBody(passing, failing) && r.body.Compact? && r.automaticAuth == auth
            && Selected(r) == scenarios && HeaderIssues(r) == {}
  {
  }

  lemma CompactIssues(catalog: Catalog, r: Report)
    requires Read(catalog, r).issues == {}
    ensures var compact, d := CompactBaseline(catalog, r), Decided(Read(catalog, r).checks);
            Read(catalog, compact) ==
            Reading(d, AllCoverageIssues(catalog, Selected(compact), d))
  {
    ReadingFacts(catalog, r);
    var checks := Read(catalog, r).checks;
    var passing, failing := WithStatus(checks, Pass), WithStatus(checks, Fail);
    assert forall id: Identity | id in passing + failing :: id.checkId != "";
    hide Read, ReadCompact, AllCoverageIssues, BucketChecks, WithStatus, Records, HeaderIssues, CompactBody, CompactOf;
    hide RequiredScenarios, Selected;
    CompactParts(r.automaticAuth, RequiredScenarios(r), passing, failing);
    CompactBodyReads(catalog, RequiredScenarios(r), passing, failing);
    ReadsItsBody(catalog, CompactBaseline(catalog, r));
  }

  lemma ReadsItsBody(catalog: Catalog, r: Report)
    requires r.body.Compact? && HeaderIssues(r) == {}
    ensures Read(catalog, r) == ReadCompact(catalog, Selected(r), r.body)
  {
    hide HeaderIssues, Selected, ReadCompact;
  }

  lemma CompactKeepsPolicy(catalog: Catalog, r: Report)
    ensures CompactBaseline(catalog, r).automaticAuth == r.automaticAuth
  {
    hide Read, WithStatus, CompactBody;
  }

  lemma CompactSelects(catalog: Catalog, r: Report, m: Mode)
    requires Read(catalog, r).issues == {}
    ensures m in Selected(CompactBaseline(catalog, r)) && Selected(CompactBaseline(catalog, r))[m] == catalog(m)
  {
    ReadingFacts(catalog, r);
    hide Read;
    assert m in MODES;
  }

  /** A compact baseline reads as the decided checks of its report, without
      errors exactly when those cover everything that is required. */
  lemma CompactBaselineReads(catalog: Catalog, r: Report)
    requires Read(catalog, r).issues == {}
    ensures var compact, checks := Read(catalog, CompactBaseline(catalog, r)), Read(catalog, r).checks;
            compact.checks == Decided(checks) && (compact.issues == {} <==> IsCovered(catalog, checks))
  {
    hide Read, CompactBaseline, Selected, CoverageIssues, HasCase, Observed, Expected, Decided, IsModeCovered;
    var checks := Read(catalog, r).checks;
    var selected, d := Selected(CompactBaseline(catalog, r)), Decided(checks);
    forall m: Mode
      ensures CoverageIssues(catalog, selected, d, m) == {} <==> IsModeCovered(catalog, checks, m)
    {
      CleanReadingObserves(catalog, r, m);
      ModeIsCoveredIff(catalog, checks, m);
      CompactSelects(catalog, r, m);
      CoverageIff(catalog, selected, d, m);
    }
    CompactIssues(catalog, r);
    var issues := Read(catalog, CompactBaseline(catalog, r)).issues;
    forall m: Mode
      ensures CoverageIssues(catalog, selected, d, m) <= issues
    {
      if m.Shipping? {
      } else if m.Intermediate? {
      } else {
      }
    }
    assert issues == {} <==> forall m: Mode :: CoverageIssues(catalog, selected, d, m) == {};
  }

  lemma BothTransports()
    ensures AreBothTransports(["stdio", "official-http"])
  {
  }

  lemma DecidedSays(checks: Checks, id: Identity, status: Status)
    requires !status.Skip?
    ensures Says(Decided(checks), id, status) <==> Says(checks, id, status)
  {
  }

  /** Against a compact baseline the gate gives the same lists as against the
      report it stands for, and the same errors and verdict exactly when every
      required scenario and transport case has a status other than SKIP. */
  lemma CompactBaselineIsFaithfulIff(catalog: Catalog, candidate: Report, baseline: Report)
    requires IsClean(catalog, baseline)
    ensures var full, compact :=
              Evaluate(catalog, candidate, baseline), Evaluate(catalog, candidate, CompactBaseline(catalog, baseline));
            && compact == full.(baselineIssues := compact.baselineIssues)
            && (compact == full <==> IsCovered(catalog, Read(catalog, baseline).checks))
  {
    hide Read, Decided, IsCovered, CompactBaseline;
    CompactBaselineReads(catalog, baseline);
    CompactKeepsPolicy(catalog, baseline);
    var checks := Read(catalog, baseline).checks;
    forall id: Identity
      ensures Says(Decided(checks), id, Pass) <==> Says(checks, id, Pass)
      ensures Says(Decided(checks), id, Fail) <==> Says(checks, id, Fail)
    {
      DecidedSays(checks, id, Pass);
      DecidedSays(checks, id, Fail);
    }
    GateSees(Read(catalog, candidate).checks, checks, Decided(checks));
  }

  /** The gate only looks at who passed and who failed. */
  lemma GateSees(candidate: Checks, b: Checks, d: Checks)
    requires forall id: Identity :: Says(b, id, Pass) == Says(d, id, Pass) && Says(b, id, Fail) == Says(d, id, Fail)
    ensures (set id | id in b && IsMissing(candidate, b, id)) == set id | id in d && IsMissing(candidate, d, id)
    ensures (set id | id in b && !IsMissing(candidate, b, id) && Says(b, id, Fail) && !Says(candidate, id, Fail))
            == set id | id in d && !IsMissing(candidate, d, id) && Says(d, id, Fail) && !Says(candidate, id, Fail)
    ensures (set id | id in candidate && Says(candidate, id, Fail) && !Says(b, id, Fail))
            == set id | id in candidate && Says(candidate, id, Fail) && !Says(d, id, Fail)
    ensures (set id | id in candidate && Says(candidate, id, Fail) && Says(b, id, Fail))
            == set id | id in candidate && Says(candidate, id, Fail) && Says(d, id, Fail)
    ensures ShippingIssues(candidate, b) == ShippingIssues(candidate, d)
  {
  }

  // -------------------------------------- a clean report that is not covered

  function SampleCatalog(m: Mode): seq<string> {
    ["s"]
  }

  function SampleCheck(status: Status): RawCheck {
    RawCheck(Some(Official), Given("s"), Given("check"), Given("c"), Some(status), Some(true))
  }

  function SampleCases(m: Mode): seq<RawCase> {
    [RawCase(Some(m), Some("stdio"), Some([SampleCheck(Pass)])),
     RawCase(Some(m), Some("official-http"), Some([SampleCheck(Skip)]))]
  }

  function SampleReport(): Report {
    Report(REPORT_SCHEMA_VERSION, true, true,
           Some(OfficialRun(OFFICIAL_CONFORMANCE_REPOSITORY, OFFICIAL_CONFORMANCE_GIT_REF, true,
                            Some(map[Shipping := ["s"], Intermediate := ["s"], Modern := ["s"]]))),
           Some(true),
           Full(Some(SampleCases(Shipping) + SampleCases(Intermediate) + SampleCases(Modern))))
  }

  /** Everything passed over stdio and was skipped over HTTP. */
  ghost predicate IsSample(checks: Checks) {
    forall id | id in checks :: checks[id] == if id.transport.Stdio? then {Pass} else {Skip}
  }

  ghost predicate HoldsSample(table: CaseTable, m: Mode) {
    && (m, "stdio") in table && table[(m, "stdio")] == Some([SampleCheck(Pass)])
    && (m, "official-http") in table && table[(m, "official-http")] == Some([SampleCheck(Skip)])
  }

  lemma SampleChecksRead(m: Mode, t: Transport, status: Status)
    requires !status.Fail?
    ensures var id := Identity(m, t, Official, "s", "c");
            ReadChecks(m, t, [SampleCheck(status)]) == Reading(map[id := {status}], {})
  {
    var raw, id := [SampleCheck(status)], Identity(m, t, Official, "s", "c");
    assert raw[..|raw| - 1] == [] && raw[|raw| - 1] == SampleCheck(status);
    assert ReadCheck(m, t, SampleCheck(status)) == Some(id);
    assert ReadChecks(m, t, []) == Reading(map[], {}) && {} + {status} == {status};
  }

  lemma SampleCasesRead(cases: seq<RawCase>, m: Mode)
    requires ReadCases(cases).1 == {} && forall key | key in ReadCases(cases).0 :: key.0 != m
    ensures var (before, none) := ReadCases(cases);
            var (table, issues) := ReadCases(cases + SampleCases(m));
            && issues == {} && HoldsSample(table, m)
            && (forall key | key in table :: key.0 == m || key in before)
            && (forall d | HoldsSample(before, d) :: HoldsSample(table, d))
  {
    hide ReadCases, SampleCheck;
    var stdio := RawCase(Some(m), Some("stdio"), Some([SampleCheck(Pass)]));
    var http := RawCase(Some(m), Some("official-http"), Some([SampleCheck(Skip)]));
    NewCaseRead(cases, m, "stdio", stdio.checks);
    assert "stdio"[0] != "official-http"[0];
    NewCaseRead(cases + [stdio], m, "official-http", http.checks);
    assert cases + SampleCases(m) == cases + [stdio] + [http];
  }

  lemma NewCaseRead(cases: seq<RawCase>, m: Mode, transport: string, checks: Option<seq<RawCheck>>)
    requires (m, transport) !in ReadCases(cases).0
    ensures var (table, issues) := ReadCases(cases);
            ReadCases(cases + [RawCase(Some(m), Some(transport), checks)])
            == (table[(m, transport) := checks], issues)
  {
    var more := cases + [RawCase(Some(m), Some(transport), checks)];
    assert more[..|more| - 1] == cases;
  }

  lemma SampleModeReads(catalog: Catalog, selected: map<Mode, seq<string>>, table: CaseTable, m: Mode)
    requires catalog(m) == ["s"] && m in selected && selected[m] == ["s"] && HoldsSample(table, m)
    ensures var r := ReadMode(catalog, selected, table, m);
            r.issues == {} && IsSample(r.checks)
  {
    SampleChecksRead(m, Stdio, Pass);
    SampleChecksRead(m, OfficialHttp, Skip);
    hide ReadChecks, SampleCheck;
  }

  lemma SampleTable()
    ensures var (table, issues) := ReadCases(SampleReport().body.cases.value);
            issues == {} && forall m: Mode :: HoldsSample(table, m)
  {
    assert [] + SampleCases(Shipping) == SampleCases(Shipping);
    SampleCasesRead([], Shipping);
    SampleCasesRead(SampleCases(Shipping), Intermediate);
    SampleCasesRead(SampleCases(Shipping) + SampleCases(Intermediate), Modern);
    hide SampleCases, HoldsSample, ReadCases;
    forall m: Mode
      ensures HoldsSample(ReadCases(SampleReport().body.cases.value).0, m)
    {
      assert m.Shipping? || m.Intermediate? || m.Modern?;
    }
  }

  lemma {:induction false} SampleModesRead(selected: map<Mode, seq<string>>, table: CaseTable, modes: seq<Mode>)
    requires forall m: Mode :: m in selected && selected[m] == ["s"] && HoldsSample(table, m)
    ensures var r := ReadModes(SampleCatalog, selected, table, modes);
            r.issues == {} && IsSample(r.checks)
  {
    hide ReadMode, HoldsSample;
    if modes != [] {
      SampleModesRead(selected, table, modes[..|modes| - 1]);
      SampleModeReads(SampleCatalog, selected, table, modes[|modes| - 1]);
    }
  }

  lemma SampleReads()
    ensures var r := Read(SampleCatalog, SampleReport());
            r.issues == {} && IsSample(r.checks)
  {
    var r := SampleReport();
    var table := ReadCases(r.body.cases.value).0;
    assert HeaderIssues(r) == {};
    forall m: Mode
      ensures m in Selected(r) && Selected(r)[m] == ["s"]
    {
      assert m.Shipping? || m.Intermediate? || m.Modern?;
    }
    SampleTable();
    SampleModesRead(Selected(r), table, MODES);
    hide SampleCases, HoldsSample, HeaderIssues, ReadCases, ReadModes, IsSample;
  }

  /** The only required scenario was skipped over HTTP: the report passes the
      gate as its own baseline, but not against its compact baseline. */
  lemma SkippedScenarioIsLostInCompact()
    ensures var r := SampleReport();
            && Evaluate(SampleCatalog, r, r).Success()
            && !IsCovered(SampleCatalog, Read(SampleCatalog, r).checks)
            && !Evaluate(SampleCatalog, r, CompactBaseline(SampleCatalog, r)).Success()
  {
    var r := SampleReport();
    SampleReads();
    SampleIsClean(r);
    SampleIsNotCovered(Read(SampleCatalog, r).checks);
    hide Read, Evaluate, CompactBaseline, SampleReport, IsCovered, ShippingPasses, NoWorse, Decided, IsSample;
    GateIsReflexiveIff(SampleCatalog, r);
    CompactBaselineReads(SampleCatalog, r);
    GateSucceedsIff(SampleCatalog, r, CompactBaseline(SampleCatalog, r));
  }

  lemma SampleIsClean(r: Report)
    requires Read(SampleCatalog, r).issues == {} && IsSample(Read(SampleCatalog, r).checks) && r.automaticAuth.Some?
    ensures IsClean(SampleCatalog, r)
  {
    hide Read;
  }

  lemma SampleIsNotCovered(checks: Checks)
    requires IsSample(checks)
    ensures !IsCovered(SampleCatalog, checks)
  {
    assert !IsTransportDecided(checks, Shipping, OfficialHttp);
    assert !IsModeCovered(SampleCatalog, checks, Shipping);
  }

  /** Compacting a compact baseline changes nothing. */
  lemma CompactingTwice(catalog: Catalog, r: Report)
    requires IsClean(catalog, r) && IsCovered(catalog, Read(catalog, r).checks)
    ensures IsClean(catalog, CompactBaseline(catalog, r))
    ensures CompactBaseline(catalog, CompactBaseline(catalog, r)) == CompactBaseline(catalog, r)
  {
    hide Read, Decided, WithStatus, IsCovered, CompactOf, Says, Records;
    CompactBaselineReads(catalog, r);
    var checks, compact := Read(catalog, r).checks, CompactBaseline(catalog, r);
    CompactParts(r.automaticAuth, RequiredScenarios(r), WithStatus(checks, Pass), WithStatus(checks, Fail));
    OnlyRequiredScenarios(compact, r);
    DecidedBuckets(checks);
    forall id: Identity
      ensures Says(Decided(checks), id, Fail) <==> Says(checks, id, Fail)
    {
      DecidedSays(checks, id, Fail);
    }
  }

  lemma OnlyRequiredScenarios(compact: Report, r: Report)
    requires Selected(compact) == RequiredScenarios(r)
    ensures RequiredScenarios(compact) == RequiredScenarios(r)
  {
  }

  lemma DecidedBuckets(checks: Checks)
    ensures WithStatus(Decided(checks), Pass) == WithStatus(checks, Pass)
    ensures WithStatus(Decided(checks), Fail) == WithStatus(checks, Fail)
  {
  }
}
